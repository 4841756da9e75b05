/**
 What a round hands to scoring (rlvr/v3/round.py, MinerEvaluation and RoundResult).
 */
module Evaluations {
  import opened Seqs
  import opened Grading

  datatype MinerEvaluation = MinerEvaluation(
    uid: nat, hotkey: string, latencyMs: nat, result: EvaluationResult, gradingDurationMs: nat,
        trajectory: Option<string>)

  predicate PassedIt(item: MinerEvaluation) {
    item.result.status.Passed?
  }
}
