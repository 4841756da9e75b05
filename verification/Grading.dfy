/**
 One submission's verdict (rlvr/v3/grading.py).

 Containers, directories and file reads are foreign: every value they can return or raise
 is an arbitrary field of the environment, so each result below holds for all of them.
 */
module Grading {
  import opened Seqs

  datatype Status = Passed | Failed | Rejected | Abandoned

  datatype MinerReason =
    | PatchRejected | ScriptRejected | WorkingDirectoryInvalid | SetupFailed | CheckFailed
    | Timeout | MemoryLimit | OutputLimit | ResultTreeInvalid
    | SlotMismatch | ArtifactInvalid | TrajectoryInvalid

  datatype RoundReason =
    | WorkspaceInvalid | PatchToolFailed | SetupUnavailable | ScriptUnavailable | VerifierUnavailable

  datatype Reason = NoReason | Miner(miner: MinerReason) | Validator(validator: RoundReason)

  datatype Kind = Invocation | Inspection

  datatype Outcome = CheckPassed | CheckNotPassed | Skipped

  datatype CheckResult = CheckResult(id: string, kind: Kind, outcome: Outcome, exitCode: Option<int>)

  datatype EvaluationResult = EvaluationResult(status: Status, reason: Reason, checks: seq<CheckResult>,
      scriptExit: Option<int>)

  datatype Check = Check(id: string, kind: Kind, expectExit: int, expectStdout: Bytes, expectStderr: Option<Bytes>)

  datatype Container = Container(exitCode: int, timedOut: bool, oomKilled: bool, stdoutOverflow: bool,
      stderrOverflow: bool,
                                 stdout: Bytes, stderr: Bytes)

  /** What `_inspect_result_tree` finds. Every error of reading the tree is reported like an
      unsafe entry in it, as an invalid tree. */
  datatype TreeState = TreeOk | TreeInvalid

  /** One check's world: None for the container is any OSError, SupervisorError or
      ValueError raised before it returned. */
  datatype CheckWorld = CheckWorld(cwdAvailable: bool, container: Option<Container>, expectedReadable: bool,
      treeAfter: TreeState)

  /** `_container_failure` and `_resource_reason` in one: the first limit exceeded. */
  function ResourceReason(c: Container): Option<MinerReason> {
    if c.timedOut then Some(Timeout)
    else if c.oomKilled then Some(MemoryLimit)
    else if c.stdoutOverflow || c.stderrOverflow then Some(OutputLimit)
    else None
  }

  function SkippedResult(c: Check): CheckResult {
    CheckResult(c.id, c.kind, Skipped, None)
  }

  /** `_stop`: what ran, then every remaining check as skipped. */
  function Stop(status: Status, reason: Reason, manifest: seq<Check>, completed: seq<CheckResult>,
      scriptExit: Option<int>): EvaluationResult
    requires |completed| <= |manifest|
  {
    var rest := manifest[|completed|..];
    EvaluationResult(status, reason,
                     completed + seq(|rest|, i requires 0 <= i < |rest| => SkippedResult(rest[i])), scriptExit)
  }

  predicate Matches(check: Check, c: Container) {
    && c.exitCode == check.expectExit
    && c.stdout == check.expectStdout
    && (check.expectStderr.Some? ==> c.stderr == check.expectStderr.value)
  }

  /** The check did what the verifier expects, all the way through. */
  predicate Clean(check: Check, w: CheckWorld) {
    && (check.kind.Invocation? ==> w.cwdAvailable && w.treeAfter.TreeOk?)
    && w.container.Some? && ResourceReason(w.container.value).None?
    && !(check.kind.Inspection? && w.container.value.exitCode in {126, 127})
    && w.expectedReadable
    && Matches(check, w.container.value)
  }

  /** The validator, not the candidate, is at fault for this check. */
  predicate Infrastructure(check: Check, w: CheckWorld) {
    if check.kind.Invocation? && !w.cwdAvailable then false
    else if w.container.None? then true
    else
      var c := w.container.value;
      if ResourceReason(c).Some? then false
      else if check.kind.Inspection? && c.exitCode in {126, 127} then true
      else !w.expectedReadable
  }

  /** What a candidate that failed this check is told, in the order the limits apply. */
  function Fault(check: Check, w: CheckWorld): MinerReason {
    if (check.kind.Invocation? && !w.cwdAvailable) || w.container.None? then WorkingDirectoryInvalid
    else if ResourceReason(w.container.value).Some? then ResourceReason(w.container.value).value
    else if Matches(check, w.container.value) then ResultTreeInvalid
    else CheckFailed
  }

  /** The container ended by itself, within its limits. */
  predicate InLimits(c: Container) {
    !c.timedOut && !c.oomKilled && !c.stdoutOverflow && !c.stderrOverflow
  }

  /** What a pass takes: the container returned in time and within its limits, with exactly the
      exit code and the output expected, and the error output if that is expected too; and for an
      invocation, a directory to run in and a readable, safe tree after it. */
  lemma CleanExactly(check: Check, w: CheckWorld)
    ensures Clean(check, w) <==>
              && w.container.Some? && w.expectedReadable
              && InLimits(w.container.value)
              && w.container.value.exitCode == check.expectExit
              && w.container.value.stdout == check.expectStdout
              && (check.expectStderr.None? || w.container.value.stderr == check.expectStderr.value)
              && (if check.kind.Invocation? then w.cwdAvailable && w.treeAfter.TreeOk?
                  else w.container.value.exitCode != 126 && w.container.value.exitCode != 127)
  {
  }

  /** Nobody is blamed for what did not happen: the reason a candidate is given names something
      that did, and the validator takes the blame only for what it provides. */
  lemma BlameIsTrue(check: Check, w: CheckWorld)
    requires !Clean(check, w)
    ensures if Infrastructure(check, w) then
              || w.container.None? || !w.expectedReadable
              || (check.kind.Inspection? && (w.container.value.exitCode == 126 || w.container.value.exitCode == 127))
            else
              match Fault(check, w)
              case WorkingDirectoryInvalid => check.kind.Invocation? && !w.cwdAvailable
              case Timeout => w.container.Some? && w.container.value.timedOut
              case MemoryLimit => w.container.Some? && w.container.value.oomKilled
              case OutputLimit =>
                w.container.Some? && (w.container.value.stdoutOverflow || w.container.value.stderrOverflow)
              case CheckFailed =>
                && w.container.Some?
                && (|| w.container.value.exitCode != check.expectExit || w.container.value.stdout != check.expectStdout
                    || (check.expectStderr.Some? && w.container.value.stderr != check.expectStderr.value))
              case ResultTreeInvalid => check.kind.Invocation? && w.treeAfter.TreeInvalid?
              case _ => false
    ensures w.container.Some? && !InLimits(w.container.value) ==> !Infrastructure(check, w)
    ensures w.container.Some? && w.container.value.timedOut && (w.cwdAvailable || check.kind.Inspection?) ==>
              Fault(check, w) == Timeout
  {
  }

  /** What is on record for a check the validator itself could not finish: never a pass. */
  function LeftBehind(check: Check, w: CheckWorld): (r: Outcome)
    ensures r != CheckPassed
  {
    if w.container.Some? && check.kind.Inspection? && w.container.value.exitCode in {126, 127} then CheckNotPassed
        else Skipped
  }

  /** Results line up with the manifest: the first `n` passed, entry `n` (if any) is the
      one that stopped the run, everything after it was skipped. */
  ghost predicate Aligned(manifest: seq<Check>, checks: seq<CheckResult>, n: nat) {
    && |checks| == |manifest|
    && (forall i :: 0 <= i < |checks| ==> Named(manifest[i], checks[i]))
    && (forall i :: 0 <= i < |checks| && i < n ==> checks[i].outcome == CheckPassed)
    && (forall i :: n < i < |checks| ==> checks[i].outcome == Skipped)
  }

  ghost predicate Named(check: Check, result: CheckResult) {
    result.id == check.id && result.kind == check.kind
  }

  /** One iteration of the loop in `_run_checks`: what it appends to (or overwrites in)
      `completed` and whether it ends the run. */
  method RunOneCheck(check: Check, w: CheckWorld, before: seq<CheckResult>)
    returns (completed: seq<CheckResult>, stop: Option<Status>, reason: Reason)
    ensures stop.None? <==> Clean(check, w)
    ensures stop == Some(Abandoned) <==> Infrastructure(check, w)
    ensures stop in {None, Some(Abandoned), Some(Failed)}
    ensures stop == Some(Abandoned) ==> reason.Validator?
    ensures stop == Some(Failed) ==> reason == Miner(Fault(check, w))
    ensures |before| <= |completed| <= |before| + 1 && completed[..|before|] == before
    ensures |completed| > |before| ==> Named(check, completed[|before|])
    ensures stop != Some(Abandoned) ==>
              |completed| > |before| &&
              completed[|before|].outcome == if stop.None? then CheckPassed else CheckNotPassed
    ensures stop == Some(Abandoned) ==>
              LeftBehind(check, w) == if |completed| > |before| then completed[|before|].outcome else Skipped
  {
    completed, stop, reason := before, None, NoReason;
    if check.kind.Invocation? && !w.cwdAvailable {
      completed := completed + [CheckResult(check.id, Invocation, CheckNotPassed, None)];
      return completed, Some(Failed), Miner(WorkingDirectoryInvalid);
    }
    if w.container.None? {
      return completed, Some(Abandoned), Validator(VerifierUnavailable);
    }
    var c := w.container.value;
    var limit := ResourceReason(c);
    var infrastructure := limit.None? && check.kind.Inspection? && c.exitCode in {126, 127};
    if limit.Some? || infrastructure {
      completed := completed + [CheckResult(check.id, check.kind, CheckNotPassed, Some(c.exitCode))];
      if infrastructure {
        return completed, Some(Abandoned), Validator(VerifierUnavailable);
      }
      return completed, Some(Failed), Miner(limit.value);
    }
    if !w.expectedReadable {
      return completed, Some(Abandoned), Validator(VerifierUnavailable);
    }
    var passed := Matches(check, c);
    completed := completed
        + [CheckResult(check.id, check.kind, if passed then CheckPassed else CheckNotPassed, Some(c.exitCode))];
    if !passed {
      return completed, Some(Failed), Miner(CheckFailed);
    }
    if check.kind.Invocation? {
      if w.treeAfter.TreeInvalid? {
        completed := completed[|completed| - 1 := CheckResult(check.id, Invocation, CheckNotPassed, Some(c.exitCode))];
        return completed, Some(Failed), Miner(ResultTreeInvalid);
      }
    }
  }

  /** The index of the first check that is not clean, or the number of checks. */
  function FirstUnclean(manifest: seq<Check>, world: seq<CheckWorld>, from: nat := 0): (n: nat)
    requires |world| == |manifest| && from <= |manifest|
    ensures from <= n <= |manifest|
    ensures forall j :: from <= j < n ==> Clean(manifest[j], world[j])
    ensures n < |manifest| ==> !Clean(manifest[n], world[n])
    decreases |manifest| - from
  {
    if from == |manifest| || !Clean(manifest[from], world[from]) then from
    else FirstUnclean(manifest, world, from + 1)
  }

  lemma StopAligns(manifest: seq<Check>, completed: seq<CheckResult>, n: nat, status: Status, reason: Reason,
      scriptExit: Option<int>)
    requires n < |manifest| && n <= |completed| <= n + 1
    requires forall j :: 0 <= j < |completed| ==> Named(manifest[j], completed[j])
    requires forall j :: 0 <= j < n ==> completed[j].outcome == CheckPassed
    ensures var checks := Stop(status, reason, manifest, completed, scriptExit).checks;
            && Aligned(manifest, checks, n)
            && checks[n] == if |completed| > n then completed[n] else SkippedResult(manifest[n])
  {
  }

  /** `_run_checks`. The run passes exactly when the tree is valid and every check is clean;
      otherwise the first check that is not clean decides who is blamed. A check is on record
      as passed exactly when it and all before it were clean, whoever is blamed. */
  method RunChecks(manifest: seq<Check>, treeBefore: TreeState, world: seq<CheckWorld>, scriptExit: Option<int>)
    returns (r: EvaluationResult)
    requires |world| == |manifest|
    ensures r.scriptExit == scriptExit && WellFormed(r) && !r.status.Rejected?
    ensures treeBefore.TreeInvalid? ==>
              r.status.Failed? && r.reason == Miner(ResultTreeInvalid) && AllSkipped(manifest, r.checks)
    ensures treeBefore.TreeOk? ==>
              var n := FirstUnclean(manifest, world);
              && Aligned(manifest, r.checks, n)
              && (r.status.Passed? <==> n == |manifest|)
              && (r.status.Abandoned? <==> n < |manifest| && Infrastructure(manifest[n], world[n]))
              && (r.status.Failed? ==>
                    r.checks[n].outcome == CheckNotPassed && r.reason == Miner(Fault(manifest[n], world[n])))
              && (r.status.Abandoned? ==> r.checks[n].outcome == LeftBehind(manifest[n], world[n]))
              && (forall i :: 0 <= i < |r.checks| ==> (r.checks[i].outcome == CheckPassed <==> i < n))
  {
    var completed: seq<CheckResult> := [];
    if treeBefore.TreeInvalid? {
      return Stop(Failed, Miner(ResultTreeInvalid), manifest, completed, scriptExit);
    }
    ghost var n := FirstUnclean(manifest, world);
    for i := 0 to |manifest|
      invariant i <= n && |completed| == i
      invariant forall j :: 0 <= j < i ==> Named(manifest[j], completed[j]) && completed[j].outcome == CheckPassed
    {
      var stop, reason;
      ghost var before := completed;
      completed, stop, reason := RunOneCheck(manifest[i], world[i], completed);
      assert forall j :: 0 <= j < i ==> completed[j] == completed[..i][j] == before[j];
      if stop.Some? {
        assert n == i;
        StopAligns(manifest, completed, i, stop.value, reason, scriptExit);
        return Stop(stop.value, reason, manifest, completed, scriptExit);
      }
    }
    r := EvaluationResult(Passed, NoReason, completed, scriptExit);
  }

  /** A tree that cannot be read, or is unsafe, after an invocation that did everything else
      right fails the miner; it does not abandon the run. */
  method TreeFaultsBlameTheMiner(check: Check, w: CheckWorld) returns (r: EvaluationResult)
    requires check.kind.Invocation? && Clean(check, w)
    ensures r.status.Failed? && r.reason == Miner(ResultTreeInvalid)
    ensures |r.checks| == 1 && r.checks[0].outcome == CheckNotPassed
  {
    var after := w.(treeAfter := TreeInvalid);
    assert FirstUnclean([check], [after]) == 0;
    r := RunChecks([check], TreeOk, [after], None);
  }

  ghost predicate AllSkipped(manifest: seq<Check>, checks: seq<CheckResult>) {
    && |checks| == |manifest|
    && forall i :: 0 <= i < |checks| ==> checks[i] == SkippedResult(manifest[i])
  }

  /** A miner is only ever blamed with a miner reason, and a round is only ever abandoned
      with a validator reason. */
  predicate WellFormed(r: EvaluationResult) {
    match r.status
    case Passed => r.reason.NoReason?
    case Failed => r.reason.Miner?
    case Rejected => r.reason.Miner?
    case Abandoned => r.reason.Validator?
  }

  datatype SetupWorld = NoSetup | SetupRaised | SetupRan(container: Container)

  /** `_run_setup`: None when the task goes on. */
  function RunSetup(manifest: seq<Check>, setup: SetupWorld): Option<EvaluationResult> {
    match setup
    case NoSetup => None
    case SetupRaised => Some(Stop(Abandoned, Validator(SetupUnavailable), manifest, [], None))
    case SetupRan(c) =>
      if ResourceReason(c).Some? then Some(Stop(Failed, Miner(ResourceReason(c).value), manifest, [], None))
      else if c.exitCode != 0 then Some(Stop(Failed, Miner(SetupFailed), manifest, [], None))
      else None
  }

  /** The task goes on after its setup iff there is none, or it ran within its limits and returned
      zero; the validator is to blame iff the container could not be run. */
  lemma SetupExactly(manifest: seq<Check>, setup: SetupWorld)
    ensures var r := RunSetup(manifest, setup);
            && (r.None? <==> setup.NoSetup?
                             || (setup.SetupRan? && InLimits(setup.container) && setup.container.exitCode == 0))
            && (r.Some? ==> AllSkipped(manifest, r.value.checks) && WellFormed(r.value) && r.value.scriptExit.None?)
            && (r.Some? ==> r.value.status == if setup.SetupRaised? then Abandoned else Failed)
            && (setup.SetupRan? && setup.container.timedOut ==> r.Some? && r.value.reason == Miner(Timeout))
            && (setup.SetupRan? && InLimits(setup.container) && setup.container.exitCode != 0 ==>
                  r.Some? && r.value.reason == Miner(SetupFailed))
  {
  }

  /** `PatchFaulted` is an error of the validator's own scratch space, which nothing catches. */
  datatype PatchWorld = PatchToolRaised | PatchFaulted | PatchRefused(code: Option<MinerReason>) | PatchApplied

  datatype World = World(
    directoryBefore: bool, directoryAfter: bool, patch: PatchWorld, scriptAccepted: bool,
    setup: SetupWorld, script: Option<Container>, treeBefore: TreeState, checks: seq<CheckWorld>)

  /** The checks run, and the validator cannot finish the first one that is not clean. */
  predicate ChecksAbandon(manifest: seq<Check>, w: World)
    requires |w.checks| == |manifest|
  {
    var n := FirstUnclean(manifest, w.checks);
    w.treeBefore.TreeOk? && n < |manifest| && Infrastructure(manifest[n], w.checks[n])
  }

  /** Nothing the validator itself provides to the setup and the checks went wrong. */
  predicate Healthy(manifest: seq<Check>, w: World)
    requires |w.checks| == |manifest|
  {
    && w.directoryBefore && !w.setup.SetupRaised?
    && forall i :: 0 <= i < |manifest| ==> !Infrastructure(manifest[i], w.checks[i])
  }

  /** None is the exception that leaves the function. */
  method EvaluateRepository(manifest: seq<Check>, w: World) returns (r: Option<EvaluationResult>)
    requires |w.checks| == |manifest|
    ensures r.None? <==> w.directoryBefore && w.patch.PatchFaulted?
    ensures r.Some? ==> WellFormed(r.value)
    ensures r.Some? && r.value.status.Abandoned? <==>
            || !w.directoryBefore || w.patch.PatchToolRaised?
            || (w.patch.PatchApplied? && w.directoryAfter
                && (w.setup.SetupRaised? || (RunSetup(manifest, w.setup).None? && ChecksAbandon(manifest, w))))
    ensures r.Some? && r.value.status.Rejected? <==> w.directoryBefore && w.patch.PatchRefused?
    ensures r.Some? && r.value.status.Rejected? ==>
              r.value.reason == Miner(if w.patch.code.Some? then w.patch.code.value else PatchRejected)
    ensures Healthy(manifest, w) && !w.patch.PatchToolRaised? && !w.patch.PatchFaulted? ==>
              r.Some? && !r.value.status.Abandoned?
    ensures r.Some? && r.value.status.Passed? <==>
            && w.directoryBefore && w.patch.PatchApplied? && w.directoryAfter
            && RunSetup(manifest, w.setup).None? && w.treeBefore.TreeOk?
            && FirstUnclean(manifest, w.checks) == |manifest|
  {
    if !w.directoryBefore {
      return Some(Stop(Abandoned, Validator(WorkspaceInvalid), manifest, [], None));
    }
    match w.patch {
      case PatchToolRaised => return Some(EvaluationResult(Abandoned, Validator(PatchToolFailed), [], None));
      case PatchFaulted => return None;
      case PatchRefused(code) =>
        return Some(EvaluationResult(Rejected, Miner(if code.Some? then code.value else PatchRejected), [], None));
      case PatchApplied =>
    }
    if !w.directoryAfter {
      return Some(Stop(Failed, Miner(WorkingDirectoryInvalid), manifest, [], None));
    }
    var setupFailure := RunSetup(manifest, w.setup);
    if setupFailure.Some? {
      return setupFailure;
    }
    var checked := RunChecks(manifest, w.treeBefore, w.checks, None);
    return Some(checked);
  }

  method EvaluateTerminal(manifest: seq<Check>, w: World) returns (r: EvaluationResult)
    requires |w.checks| == |manifest|
    ensures WellFormed(r)
    ensures r.status.Abandoned? <==>
            && w.scriptAccepted
            && (|| !w.directoryBefore || w.setup.SetupRaised?
                || (RunSetup(manifest, w.setup).None? && w.directoryAfter
                    && (w.script.None? || (ResourceReason(w.script.value).None? && ChecksAbandon(manifest, w)))))
    ensures r.status.Rejected? <==> !w.scriptAccepted
    ensures r.status.Rejected? ==> r.reason == Miner(ScriptRejected)
    ensures Healthy(manifest, w) && w.script.Some? ==> !r.status.Abandoned?
    ensures r.status.Passed? <==>
            && w.scriptAccepted && w.directoryBefore && RunSetup(manifest, w.setup).None? && w.directoryAfter
            && w.script.Some? && ResourceReason(w.script.value).None? && w.treeBefore.TreeOk?
            && FirstUnclean(manifest, w.checks) == |manifest|
    ensures r.status.Passed? ==> r.scriptExit == Some(w.script.value.exitCode)
  {
    if !w.scriptAccepted {
      return EvaluationResult(Rejected, Miner(ScriptRejected), [], None);
    }
    if !w.directoryBefore {
      return Stop(Abandoned, Validator(WorkspaceInvalid), manifest, [], None);
    }
    var setupFailure := RunSetup(manifest, w.setup);
    if setupFailure.Some? {
      return setupFailure.value;
    }
    if !w.directoryAfter {
      return Stop(Failed, Miner(WorkingDirectoryInvalid), manifest, [], None);
    }
    if w.script.None? {
      return Stop(Abandoned, Validator(ScriptUnavailable), manifest, [], None);
    }
    var c := w.script.value;
    var limit := ResourceReason(c);
    if limit.Some? {
      return Stop(Failed, Miner(limit.value), manifest, [], Some(c.exitCode));
    }
    r := RunChecks(manifest, w.treeBefore, w.checks, Some(c.exitCode));
  }
}
