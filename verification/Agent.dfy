/**
 The reference miner's model loop and the trajectory it uploads
 (rlvr/neurons/demo_miner.py, DemoMiner._generate and the event assembly in solve).

 The model, the clock, the submission check and the workspace tools are inputs: what the
 loop meets in its k-th iteration is `script(k)`.
 */
module Agent {
  import opened Seqs
  import opened Unicode
  import opened Canonical
  import opened CanonicalLaws
  import opened Trajectories

  const REASK_LIMIT: nat := 2

  /** What becomes of a workspace call: it runs and is recorded, it is malformed and raises
      before it runs, or running or recording it raises. */
  datatype Call = Runs | Malformed | Raises

  /** A reply: its text, which alternative tokens have a finite log probability, and the
      workspace calls in it. */
  datatype Completion = Completion(output: Text, alternatives: seq<bool>, calls: seq<Call>)

  /** The outcome of checking a reply without calls. */
  datatype Checked = Checked(submission: Text, accepted: bool, outOfTime: bool)

  /** `ReplyRaised` is a reply whose tool call could not be read, or whose check as a
      submission raised. */
  datatype Step =
    | DeadlinePassed
    | TimedOut
    | ModelRaised
    | ReplyRaised
    | Answered(completion: Completion, checked: Checked)

  datatype Answer = Answer(completion: Completion, events: seq<Body>, submission: Text)

  datatype Failure = NoTime | OverBudget | Broken

  datatype Result = Finished(answer: Answer) | GaveUp(why: Failure)

  /** The result, the model calls made and the workspace calls run. */
  datatype Outcome = Outcome(result: Result, modelCalls: nat, toolCalls: nat)

  /** `workspace-{n}`. */
  function EventId(n: nat): Text {
    [119, 111, 114, 107, 115, 112, 97, 99, 101, 45] + Digits(n)
  }

  /** `submission-validation-0`. */
  const VALIDATION_ID: Text :=
    [115, 117, 98, 109, 105, 115, 115, 105, 111, 110, 45, 118, 97, 108, 105, 100, 97, 116, 105, 111, 110, 45, 48]

  // ---- The loop, on values ----------------------------------------------------------------------

  /** The calls that are recorded before the first one that raises. */
  function Runnable(calls: seq<Call>): (n: nat)
    ensures n <= |calls|
    ensures forall i :: 0 <= i < n ==> calls[i].Runs?
    ensures n < |calls| ==> !calls[n].Runs?
  {
    if calls != [] && calls[0].Runs? then 1 + Runnable(calls[1..]) else 0
  }

  /** The calls that were run: a call that raises while it runs is one of them. */
  function Started(calls: seq<Call>): (n: nat)
    ensures Runnable(calls) <= n <= |calls|
  {
    var n := Runnable(calls);
    if n < |calls| && calls[n].Raises? then n + 1 else n
  }

  /** The events of `count` calls numbered from `first`. */
  function CallEvents(first: nat, count: nat): (r: seq<Body>)
    ensures |r| == 2 * count
  {
    if count == 0 then []
    else CallEvents(first, count - 1) + [ToolCall(EventId(first + count - 1)), ToolResult(EventId(first + count - 1))]
  }

  datatype State = State(events: seq<Body>, callsMade: nat, reasks: nat, fallback: Option<Answer>)

  function Fallback(s: State): Result {
    if s.fallback.Some? then Finished(s.fallback.value) else GaveUp(NoTime)
  }

  datatype Progress = Stop(outcome: Outcome) | Go(state: State)

  ghost predicate Within(budget: nat, s: State) {
    s.callsMade <= budget && s.reasks <= REASK_LIMIT
  }

  function Left(budget: nat, s: State): int {
    (budget - s.callsMade) + (REASK_LIMIT - s.reasks)
  }

  /** Iteration k in state s. */
  function Iterate(budget: nat, step: Step, k: nat, s: State): (p: Progress)
    requires Within(budget, s)
    ensures p.Go? ==> Within(budget, p.state) && Left(budget, p.state) < Left(budget, s)
  {
    match step
    case DeadlinePassed => Stop(Outcome(Fallback(s), k, s.callsMade))
    case TimedOut => Stop(Outcome(Fallback(s), k + 1, s.callsMade))
    case ModelRaised => Stop(Outcome(GaveUp(Broken), k + 1, s.callsMade))
    case ReplyRaised => Stop(Outcome(GaveUp(Broken), k + 1, s.callsMade))
    case Answered(c, checked) =>
      var events := s.events + [ModelTurn(c.output, c.alternatives)];
      if c.calls == [] then
        var answer := Answer(c, events, checked.submission);
        if checked.accepted || s.reasks == REASK_LIMIT || checked.outOfTime
            then Stop(Outcome(Finished(answer), k + 1, s.callsMade))
        else Go(State(events, s.callsMade, s.reasks + 1, Some(answer)))
      else if s.callsMade + |c.calls| > budget then
        if s.reasks == REASK_LIMIT then Stop(Outcome(GaveUp(OverBudget), k + 1, s.callsMade))
        else Go(State(events, s.callsMade, s.reasks + 1, s.fallback))
      else
        var n := Runnable(c.calls);
        if n < |c.calls| then Stop(Outcome(GaveUp(Broken), k + 1, s.callsMade + Started(c.calls)))
        else Go(State(events + CallEvents(s.callsMade, n), s.callsMade + n, s.reasks, s.fallback))
  }

  /** The run from iteration k in state s. */
  function Play(budget: nat, script: nat -> Step, k: nat, s: State): Outcome
    requires Within(budget, s)
    decreases Left(budget, s)
  {
    var p := Iterate(budget, script(k), k, s);
    if p.Stop? then p.outcome else Play(budget, script, k + 1, p.state)
  }

  const INITIAL: State := State([], 0, 0, None)

  function Run(budget: nat, script: nat -> Step): Outcome {
    Play(budget, script, 0, INITIAL)
  }

  // ---- The loop, as written ---------------------------------------------------------------------

  /** The inner loop: run the calls of one reply, in order. */
  method RunCalls(calls: seq<Call>, before: seq<Body>, made: nat)
    returns (events: seq<Body>, callsMade: nat, started: nat, raised: bool)
    ensures callsMade == made + Runnable(calls) && started == made + Started(calls)
    ensures raised <==> Runnable(calls) < |calls|
    ensures events == before + CallEvents(made, Runnable(calls))
  {
    events, callsMade, started, raised := before, made, made, false;
    ghost var n := Runnable(calls);
    for i := 0 to |calls|
      invariant i <= n && callsMade == started == made + i
      invariant events == before + CallEvents(made, i)
    {
      if calls[i].Malformed? {
        raised := true;
        return;
      }
      started := started + 1;
      if calls[i].Raises? {
        raised := true;
        return;
      }
      var id := EventId(callsMade);
      callsMade := callsMade + 1;
      events := events + [ToolCall(id), ToolResult(id)];
    }
  }

  method Generate(budget: nat, script: nat -> Step) returns (o: Outcome)
    ensures o == Run(budget, script)
  {
    var events: seq<Body>, callsMade: nat, reasks: nat, fallback: Option<Answer> := [], 0, 0, None;
    var k := 0;
    while true
      invariant callsMade <= budget && reasks <= REASK_LIMIT
      invariant Play(budget, script, k, State(events, callsMade, reasks, fallback)) == Run(budget, script)
      decreases (budget - callsMade) + (REASK_LIMIT - reasks)
    {
      hide Run, CallEvents, Runnable, Started, EventId;
      if script(k).DeadlinePassed? {
        return Outcome(if fallback.Some? then Finished(fallback.value) else GaveUp(NoTime), k, callsMade);
      }
      if script(k).TimedOut? {
        return Outcome(if fallback.Some? then Finished(fallback.value) else GaveUp(NoTime), k + 1, callsMade);
      }
      if script(k).ModelRaised? || script(k).ReplyRaised? {
        return Outcome(GaveUp(Broken), k + 1, callsMade);
      }
      var completion, checked := script(k).completion, script(k).checked;
      k := k + 1;
      events := events + [ModelTurn(completion.output, completion.alternatives)];
      if completion.calls == [] {
        var answer := Answer(completion, events, checked.submission);
        if checked.accepted || reasks == REASK_LIMIT || checked.outOfTime {
          return Outcome(Finished(answer), k, callsMade);
        }
        reasks, fallback := reasks + 1, Some(answer);
        continue;
      }
      if callsMade + |completion.calls| > budget {
        if reasks == REASK_LIMIT {
          return Outcome(GaveUp(OverBudget), k, callsMade);
        }
        reasks := reasks + 1;
        continue;
      }
      var started, raised;
      events, callsMade, started, raised := RunCalls(completion.calls, events, callsMade);
      if raised {
        return Outcome(GaveUp(Broken), k, started);
      }
    }
  }

  // ---- Bounds -----------------------------------------------------------------------------------

  lemma {:induction false} PlayIsBounded(budget: nat, script: nat -> Step, k: nat, s: State)
    requires Within(budget, s)
    ensures var o := Play(budget, script, k, s);
            o.modelCalls <= k + Left(budget, s) + 1 && s.callsMade <= o.toolCalls <= budget
    decreases Left(budget, s)
  {
    var p := Iterate(budget, script(k), k, s);
    if p.Go? {
      PlayIsBounded(budget, script, k + 1, p.state);
    }
  }

  /** Whatever the model says, the loop ends within its budgets. */
  lemma RunIsBounded(budget: nat, script: nat -> Step)
    ensures Run(budget, script).modelCalls <= budget + REASK_LIMIT + 1
    ensures Run(budget, script).toolCalls <= budget
  {
    PlayIsBounded(budget, script, 0, INITIAL);
  }

  // ---- Where the answer comes from --------------------------------------------------------------

  /** Model turns, with each call directly followed by its result, numbered in order. */
  ghost predicate Built(events: seq<Body>, n: nat) {
    if events == [] then n == 0
    else
      var last := |events| - 1;
      if events[last].ModelTurn? then Built(events[..last], n)
      else
        && n >= 1 && last >= 1
        && events[last - 1] == ToolCall(EventId(n - 1)) && events[last] == ToolResult(EventId(n - 1))
        && Built(events[..last - 1], n - 1)
  }

  lemma BuiltTurn(events: seq<Body>, n: nat, turn: Body)
    requires Built(events, n) && turn.ModelTurn?
    ensures Built(events + [turn], n)
  {
    assert (events + [turn])[..|events|] == events;
  }

  lemma {:induction false} BuiltCalls(events: seq<Body>, n: nat, count: nat)
    requires Built(events, n)
    ensures Built(events + CallEvents(n, count), n + count)
  {
    if count == 0 {
      assert events + CallEvents(n, count) == events;
    } else {
      BuiltCalls(events, n, count - 1);
      var before := events + CallEvents(n, count - 1);
      var id := EventId(n + count - 1);
      hide EventId;
      var all := before + [ToolCall(id), ToolResult(id)];
      assert events + CallEvents(n, count) == all;
      assert all[..|all| - 2] == before;
    }
  }

  /** An answer's events end in the model turn its submission was extracted from. */
  ghost predicate Sourced(a: Answer, script: nat -> Step, upTo: nat) {
    && a.events != [] && a.events[|a.events| - 1] == ModelTurn(a.completion.output, a.completion.alternatives)
    && (exists n :: Built(a.events, n))
    && a.completion.calls == []
    && exists j :: 0 <= j < upTo && script(j).Answered? && script(j).completion == a.completion
                   && script(j).checked.submission == a.submission
  }

  ghost predicate GoodState(s: State, script: nat -> Step, k: nat) {
    && Built(s.events, s.callsMade)
    && (s.fallback.Some? ==> Sourced(s.fallback.value, script, k))
  }

  lemma SourcedHere(s: State, script: nat -> Step, k: nat)
    requires GoodState(s, script, k) && script(k).Answered? && script(k).completion.calls == []
    ensures var c := script(k).completion;
            Sourced(Answer(c, s.events + [ModelTurn(c.output, c.alternatives)], script(k).checked.submission), script,
                k + 1)
  {
    BuiltTurn(s.events, s.callsMade, ModelTurn(script(k).completion.output, script(k).completion.alternatives));
  }

  lemma SourcedLater(a: Answer, script: nat -> Step, k: nat)
    requires Sourced(a, script, k)
    ensures Sourced(a, script, k + 1)
  {
    var j :| 0 <= j < k && script(j).Answered? && script(j).completion == a.completion
             && script(j).checked.submission == a.submission;
    assert j < k + 1;
  }

  lemma IterateIsSourced(budget: nat, script: nat -> Step, k: nat, s: State)
    requires Within(budget, s) && GoodState(s, script, k)
    ensures var p := Iterate(budget, script(k), k, s);
            && (p.Go? ==> GoodState(p.state, script, k + 1))
            && (p.Stop? && p.outcome.result.Finished? ==>
                Sourced(p.outcome.result.answer, script, p.outcome.modelCalls))
  {
    if s.fallback.Some? {
      SourcedLater(s.fallback.value, script, k);
    }
    if script(k).Answered? {
      var c := script(k).completion;
      BuiltTurn(s.events, s.callsMade, ModelTurn(c.output, c.alternatives));
      if c.calls == [] {
        SourcedHere(s, script, k);
      } else {
        BuiltCalls(s.events + [ModelTurn(c.output, c.alternatives)], s.callsMade, Runnable(c.calls));
      }
    }
    hide Sourced, Built, CallEvents;
  }

  lemma {:induction false} PlayIsSourced(budget: nat, script: nat -> Step, k: nat, s: State)
    requires Within(budget, s) && GoodState(s, script, k)
    ensures var o := Play(budget, script, k, s);
            o.result.Finished? ==> Sourced(o.result.answer, script, o.modelCalls)
    decreases Left(budget, s)
  {
    IterateIsSourced(budget, script, k, s);
    hide GoodState, Sourced;
    var p := Iterate(budget, script(k), k, s);
    if p.Go? {
      PlayIsSourced(budget, script, k + 1, p.state);
    }
  }

  /** Every answer ends in the model turn its submission came from. */
  lemma AnswersAreSourced(budget: nat, script: nat -> Step)
    ensures var o := Run(budget, script);
            o.result.Finished? ==> Sourced(o.result.answer, script, o.modelCalls)
  {
    PlayIsSourced(budget, script, 0, INITIAL);
  }

  // ---- A run, told from what the model sent ------------------------------------------------------

  /** The model answered without calls: the reply is checked as a submission. */
  predicate IsReply(step: Step) {
    step.Answered? && step.completion.calls == []
  }

  /** The workspace calls of the first k iterations. */
  function Called(budget: nat, script: nat -> Step, k: nat): nat
    decreases k, 0
  {
    if k == 0 then 0
    else Called(budget, script, k - 1) + if InBudget(budget, script, k - 1) then |script(k - 1).completion.calls| else 0
  }

  predicate InBudget(budget: nat, script: nat -> Step, k: nat)
    decreases k, 1
  {
    script(k).Answered? && Called(budget, script, k) + |script(k).completion.calls| <= budget
  }

  /** How many of the first k answers were sent back, as submissions or as requests. */
  function SentBack(budget: nat, script: nat -> Step, k: nat): nat {
    if k == 0 then 0
    else
      SentBack(budget, script, k - 1) +
      if script(k - 1).Answered? && (IsReply(script(k - 1)) || !InBudget(budget, script, k - 1)) then 1 else 0
  }

  function TurnOf(step: Step): Body
    requires step.Answered?
  {
    ModelTurn(step.completion.output, step.completion.alternatives)
  }

  /** Everything that happened in the first k iterations: each answer, and the calls it made. */
  function Transcript(budget: nat, script: nat -> Step, k: nat): seq<Body> {
    if k == 0 || !script(k - 1).Answered? then []
    else
      Transcript(budget, script, k - 1) + [TurnOf(script(k - 1))] +
      if InBudget(budget, script, k - 1)
      then CallEvents(Called(budget, script, k - 1), |script(k - 1).completion.calls|) else []
  }

  /** The last reply of the first k iterations, or -1. */
  function LastReply(script: nat -> Step, k: nat): (j: int)
    ensures -1 <= j < k
    ensures j >= 0 ==> IsReply(script(j))
    ensures forall i :: j < i < k ==> !IsReply(script(i))
  {
    if k == 0 then -1 else if IsReply(script(k - 1)) then k - 1 else LastReply(script, k - 1)
  }

  /** What there is to upload after reply j. */
  function AnswerAt(budget: nat, script: nat -> Step, j: nat): Answer
    requires IsReply(script(j))
  {
    var step := script(j);
    Answer(step.completion, Transcript(budget, script, j) + [TurnOf(step)], step.checked.submission)
  }

  /** The loop goes on after iteration k: a reply that was rejected in time, or a request over the
      budget, with fewer than two sent back before; or calls that all run. */
  predicate GoesOn(budget: nat, script: nat -> Step, k: nat) {
    var step := script(k);
    && step.Answered?
    && if IsReply(step) then !step.checked.accepted && !step.checked.outOfTime && SentBack(budget, script, k) < 2
       else if InBudget(budget, script, k) then
         forall i :: 0 <= i < |step.completion.calls| ==> step.completion.calls[i].Runs?
       else SentBack(budget, script, k) < 2
  }

  /** The result of a run whose last iteration is n. */
  function ResultOf(budget: nat, script: nat -> Step, n: nat): Result {
    var step := script(n);
    if OutOfTime(step) then
      if LastReply(script, n) >= 0 then Finished(AnswerAt(budget, script, LastReply(script, n))) else GaveUp(NoTime)
    else if IsReply(step) then Finished(AnswerAt(budget, script, n))
    else if step.Answered? && !InBudget(budget, script, n) then GaveUp(OverBudget)
    else GaveUp(Broken)
  }

  /** The workspace calls of such a run, one that raised while it ran included. */
  function CallsMade(budget: nat, script: nat -> Step, n: nat): nat {
    Called(budget, script, n) + if InBudget(budget, script, n) then Started(script(n).completion.calls) else 0
  }

  /** The loop's variables are functions of what the model sent. */
  ghost predicate Agrees(budget: nat, script: nat -> Step, k: nat, s: State) {
    && s.events == Transcript(budget, script, k)
    && s.callsMade == Called(budget, script, k) <= budget
    && s.reasks == SentBack(budget, script, k) <= 2
    && s.fallback == if LastReply(script, k) < 0 then None else Some(AnswerAt(budget, script, LastReply(script, k)))
  }

  lemma OneIteration(budget: nat, script: nat -> Step, k: nat, s: State)
    requires Agrees(budget, script, k, s)
    ensures var p := Iterate(budget, script(k), k, s);
            && (p.Go? <==> GoesOn(budget, script, k))
            && (p.Go? ==> Agrees(budget, script, k + 1, p.state))
            && (p.Stop? ==> p.outcome.result == ResultOf(budget, script, k))
            && (p.Stop? ==> p.outcome.modelCalls == if script(k).DeadlinePassed? then k else k + 1)
            && (p.Stop? ==> p.outcome.toolCalls == CallsMade(budget, script, k))
  {
    hide CallEvents, EventId;
    assert forall j :: 0 <= j <= k ==> (j == k ==> Transcript(budget, script, j) == s.events);
    if script(k).Answered? {
      assert s.events + [TurnOf(script(k))] + [] == s.events + [TurnOf(script(k))];
      if IsReply(script(k)) {
        assert CallEvents(s.callsMade, 0) == [];
      }
    }
  }

  lemma {:induction false} PlayExactly(budget: nat, script: nat -> Step, k: nat, s: State) returns (n: nat)
    requires Agrees(budget, script, k, s)
    requires forall i :: 0 <= i < k ==> GoesOn(budget, script, i)
    ensures !GoesOn(budget, script, n) && forall i :: 0 <= i < n ==> GoesOn(budget, script, i)
    ensures Play(budget, script, k, s).result == ResultOf(budget, script, n)
    ensures Play(budget, script, k, s).modelCalls == if script(n).DeadlinePassed? then n else n + 1
    ensures Play(budget, script, k, s).toolCalls == CallsMade(budget, script, n)
    decreases Left(budget, s)
  {
    OneIteration(budget, script, k, s);
    hide Agrees, GoesOn, ResultOf, CallsMade;
    var p := Iterate(budget, script(k), k, s);
    if p.Go? {
      n := PlayExactly(budget, script, k + 1, p.state);
    } else {
      n := k;
    }
  }

  /** Every run, without the loop: it ends at the first iteration after which the rules do not let
      it go on, and what it uploads is decided there. */
  lemma RunExactly(budget: nat, script: nat -> Step) returns (n: nat)
    ensures !GoesOn(budget, script, n) && forall i :: 0 <= i < n ==> GoesOn(budget, script, i)
    ensures Run(budget, script).result == ResultOf(budget, script, n)
    ensures Run(budget, script).modelCalls == if script(n).DeadlinePassed? then n else n + 1
    ensures Run(budget, script).toolCalls == CallsMade(budget, script, n)
  {
    n := PlayExactly(budget, script, 0, INITIAL);
  }

  /** A reply the run gets to is what the miner uploads as soon as its check accepts it. */
  lemma AcceptedIsUploaded(budget: nat, script: nat -> Step, j: nat)
    requires j < Run(budget, script).modelCalls
    requires IsReply(script(j)) && script(j).checked.accepted
    ensures var o := Run(budget, script);
            && o.result.Finished? && o.modelCalls == j + 1
            && o.result.answer.completion == script(j).completion
            && o.result.answer.submission == script(j).checked.submission
  {
    var n := RunExactly(budget, script);
    assert !GoesOn(budget, script, j);
    assert n == j;
  }

  /** What is uploaded is a reply the run got to: either reply j ended the run, because it was
      accepted, out of time, or two answers had been sent back before it; or time ran out in
      iteration n, and j is the last reply there was, rejected in time. */
  lemma UploadedOnlyIf(budget: nat, script: nat -> Step) returns (j: nat, n: nat)
    requires Run(budget, script).result.Finished?
    ensures var o := Run(budget, script);
            && j <= n && o.modelCalls == (if script(n).DeadlinePassed? then n else n + 1)
            && IsReply(script(j))
            && o.result.answer.completion == script(j).completion
            && o.result.answer.submission == script(j).checked.submission
    ensures j == n ==> script(j).checked.accepted || script(j).checked.outOfTime || SentBack(budget, script, j) >= 2
    ensures j < n ==> OutOfTime(script(n)) && !script(j).checked.accepted && !script(j).checked.outOfTime
    ensures forall i :: j < i < n ==> !IsReply(script(i))
  {
    n := RunExactly(budget, script);
    j := if OutOfTime(script(n)) then LastReply(script, n) else n;
    assert j < n ==> GoesOn(budget, script, j);
  }

  // ---- When a checked reply is kept -------------------------------------------------------------

  /** The iteration that stops the run, and the state it starts in. */
  function StopsAt(budget: nat, script: nat -> Step, k: nat, s: State): (nat, State)
    requires Within(budget, s)
    decreases Left(budget, s)
  {
    var p := Iterate(budget, script(k), k, s);
    if p.Stop? then (k, s) else StopsAt(budget, script, k + 1, p.state)
  }

  predicate OutOfTime(step: Step) {
    step.DeadlinePassed? || step.TimedOut?
  }

  /** An iteration that ends the run with an error, whatever was checked before: the model
      raises, its reply cannot be read or checked, it asks for tools beyond the budget once the
      reasks are used up, or a call within the budget raises. */
  predicate Loses(budget: nat, step: Step, s: State) {
    || step.ModelRaised? || step.ReplyRaised?
    || (step.Answered? && step.completion.calls != []
        && if s.callsMade + |step.completion.calls| > budget then s.reasks == REASK_LIMIT
           else exists i :: 0 <= i < |step.completion.calls| && !step.completion.calls[i].Runs?)
  }

  /** A reply without calls among iterations k to j, that is, one that was checked. */
  ghost predicate SomeChecked(script: nat -> Step, k: nat, j: nat) {
    exists i :: k <= i < j && script(i).Answered? && script(i).completion.calls == []
  }

  /** Every run: where it stops, what it then holds, and exactly when it gives up. It uploads
      nothing iff the stopping iteration is one of the four errors, or time runs out before
      any reply was checked. */
  lemma {:induction false} GivesUpExactly(budget: nat, script: nat -> Step, k: nat, s: State)
    requires Within(budget, s)
    ensures var (j, last) := StopsAt(budget, script, k, s);
            && k <= j && Within(budget, last) && Iterate(budget, script(j), j, last).Stop?
            && (last.fallback.Some? <==> s.fallback.Some? || SomeChecked(script, k, j))
            && (Play(budget, script, k, s).result.GaveUp? <==>
                  Loses(budget, script(j), last) || (OutOfTime(script(j)) && last.fallback.None?))
    decreases Left(budget, s)
  {
    var p := Iterate(budget, script(k), k, s);
    if p.Go? {
      GivesUpExactly(budget, script, k + 1, p.state);
      var j := StopsAt(budget, script, k, s).0;
      assert SomeChecked(script, k, j) <==>
          SomeChecked(script, k + 1, j) || (script(k).Answered? && script(k).completion.calls == []);
    } else {
      assert !SomeChecked(script, k, k);
    }
  }

  /** Once a reply was checked, it is lost iff the run stops at one of the four errors. */
  lemma ReplyIsLostExactly(budget: nat, script: nat -> Step, k: nat, s: State)
    requires Within(budget, s) && s.fallback.Some?
    ensures var (j, last) := StopsAt(budget, script, k, s);
            Play(budget, script, k, s).result.GaveUp? <==> Loses(budget, script(j), last)
  {
    GivesUpExactly(budget, script, k, s);
  }

  /** Running out of time never loses a reply that was already checked. */
  lemma {:induction false} TimeoutKeepsReply(budget: nat, script: nat -> Step, k: nat, s: State)
    requires Within(budget, s) && s.fallback.Some?
    ensures Play(budget, script, k, s).result != GaveUp(NoTime)
    decreases Left(budget, s)
  {
    var p := Iterate(budget, script(k), k, s);
    if p.Go? {
      TimeoutKeepsReply(budget, script, k + 1, p.state);
    }
  }

  /** A checked reply is kept whenever the model goes on without calls and nothing raises. */
  lemma WithoutCallsReplyIsKept(budget: nat, script: nat -> Step, k: nat, s: State)
    requires Within(budget, s) && s.fallback.Some?
    requires forall i :: k <= i ==> !script(i).ModelRaised? && !script(i).ReplyRaised?
    requires forall i :: k <= i && script(i).Answered? ==> script(i).completion.calls == []
    ensures Play(budget, script, k, s).result.Finished?
  {
    GivesUpExactly(budget, script, k, s);
  }

  /** Such a loss: with one call allowed, a rejected
      submission followed by two over-long requests ends with nothing to upload. */
  lemma OverBudgetLosesReply(script: nat -> Step)
    requires script(0) == Answered(Completion([1], [], []), Checked([1], false, false))
    requires script(1) == Answered(Completion([], [], [Runs, Runs]), Checked([], false, false))
    requires script(2) == script(1)
    ensures Run(1, script) == Outcome(GaveUp(OverBudget), 3, 0)
  {
    var answer := Answer(Completion([1], [], []), [ModelTurn([1], [])], [1]);
    var one := State([ModelTurn([1], [])], 0, 1, Some(answer));
    assert [] + [ModelTurn([1], [])] == [ModelTurn([1], [])];
    assert Iterate(1, script(0), 0, INITIAL) == Go(one);
    var two := State([ModelTurn([1], [])] + [ModelTurn([], [])], 0, 2, Some(answer));
    assert Iterate(1, script(1), 1, one) == Go(two);
    assert Iterate(1, script(2), 2, two) == Stop(Outcome(GaveUp(OverBudget), 3, 0));
    assert Play(1, script, 2, two) == Outcome(GaveUp(OverBudget), 3, 0);
    assert Play(1, script, 1, one) == Play(1, script, 2, two);
  }

  /** Another: a rejected submission followed by one that cannot even be checked, such as text
      that does not encode, within any budget. */
  lemma UncheckableReplyLosesReply(budget: nat, script: nat -> Step)
    requires script(0) == Answered(Completion([1], [], []), Checked([1], false, false))
    requires script(1) == ReplyRaised
    ensures Run(budget, script) == Outcome(GaveUp(Broken), 2, 0)
  {
    var one := State([] + [ModelTurn([1], [])], 0, 1,
        Some(Answer(Completion([1], [], []), [] + [ModelTurn([1], [])], [1])));
    assert Iterate(budget, script(0), 0, INITIAL) == Go(one);
    assert Iterate(budget, script(1), 1, one) == Stop(Outcome(GaveUp(Broken), 2, 0));
    assert Play(budget, script, 1, one) == Outcome(GaveUp(Broken), 2, 0);
  }

  // ---- The uploaded trajectory ------------------------------------------------------------------

  /** The events `solve` uploads: the answer's, the validation call, the final submission. */
  function Assembled(events: seq<Body>, sha256: Text): seq<Body> {
    events + [ToolCall(VALIDATION_ID), ToolResult(VALIDATION_ID), FinalSubmission(sha256)]
  }

  method Number(bodies: seq<Body>) returns (events: seq<Event>)
    ensures events == Numbered(bodies)
  {
    events := [];
    for sequence := 0 to |bodies|
      invariant events == Numbered(bodies[..sequence])
    {
      events := events + [Event(sequence, bodies[sequence])];
    }
    assert bodies[..|bodies|] == bodies;
  }

  function Numbered(bodies: seq<Body>): (r: seq<Event>)
    ensures |r| == |bodies|
  {
    seq(|bodies|, i requires 0 <= i < |bodies| => Event(i, bodies[i]))
  }

  lemma DigitsDecide(a: nat, b: nat)
    requires EventId(a) == EventId(b)
    ensures a == b
  {
    assert EventId(a)[10..] == Digits(a) && EventId(b)[10..] == Digits(b);
    DigitsReadOn(a, []);
    DigitsReadOn(b, []);
    assert Digits(a) + [] == Digits(a) && Digits(b) + [] == Digits(b);
  }

  ghost predicate IdBelow(id: Text, n: nat) {
    exists k :: 0 <= k < n && id == EventId(k)
  }

  /** Each call is directly followed by its result, no id is used twice, nothing else occurs. */
  ghost predicate PairedUp(events: seq<Body>, n: nat) {
    && (forall i :: 0 <= i < |events| ==> events[i].ModelTurn? || events[i].ToolCall? || events[i].ToolResult?)
    && (forall i :: 0 <= i < |events| && events[i].ToolCall? ==>
          i + 1 < |events| && events[i + 1] == ToolResult(events[i].callId) && IdBelow(events[i].callId, n))
    && (forall i :: 0 <= i < |events| && events[i].ToolResult? ==>
        i >= 1 && events[i - 1] == ToolCall(events[i].resultId))
    && (forall i, j :: 0 <= i < j < |events| && events[i].ToolCall? && events[j].ToolCall? ==>
          events[i].callId != events[j].callId)
  }

  lemma MorePaired(events: seq<Body>, n: nat)
    requires PairedUp(events, n)
    ensures PairedUp(events + [ToolCall(EventId(n)), ToolResult(EventId(n))], n + 1)
  {
    var id := EventId(n);
    var all := events + [ToolCall(id), ToolResult(id)];
    forall i | 0 <= i < |events| && events[i].ToolCall?
      ensures events[i].callId != id && IdBelow(events[i].callId, n + 1)
    {
      var k :| 0 <= k < n && events[i].callId == EventId(k);
      if EventId(k) == id {
        DigitsDecide(k, n);
      }
      assert k < n + 1;
    }
    assert IdBelow(id, n + 1);
    hide IdBelow, EventId;
    assert forall i :: 0 <= i < |events| ==> all[i] == events[i];
  }

  lemma {:induction false} BuiltIsPaired(events: seq<Body>, n: nat)
    requires Built(events, n)
    ensures PairedUp(events, n)
    decreases |events|
  {
    hide PairedUp, EventId;
    if events == [] {
      NothingPaired(n);
    } else {
      var last := |events| - 1;
      if events[last].ModelTurn? {
        BuiltIsPaired(events[..last], n);
        assert events == events[..last] + [events[last]];
        TurnPaired(events[..last], n, events[last]);
      } else {
        BuiltIsPaired(events[..last - 1], n - 1);
        MorePaired(events[..last - 1], n - 1);
        assert events == events[..last - 1] + [ToolCall(EventId(n - 1)), ToolResult(EventId(n - 1))];
      }
    }
  }

  lemma NothingPaired(n: nat)
    ensures PairedUp([], n)
  {
  }

  lemma TurnPaired(events: seq<Body>, n: nat, turn: Body)
    requires PairedUp(events, n) && turn.ModelTurn?
    ensures PairedUp(events + [turn], n)
  {
    hide IdBelow;
    var all := events + [turn];
    assert forall i :: 0 <= i < |events| ==> all[i] == events[i];
  }

  lemma ValidationIsNew(id: Text, n: nat)
    requires IdBelow(id, n)
    ensures id != VALIDATION_ID
  {
    assert forall k: nat :: EventId(k)[0] == 119;
    assert VALIDATION_ID[0] == 115;
  }

  /** Paired calls with new ids, closed by the submission, are a valid trace. */
  lemma PairedIsAnswered(bodies: seq<Body>)
    requires forall i :: 0 <= i < |bodies| && bodies[i].ToolCall? ==>
               i + 1 < |bodies| && bodies[i + 1] == ToolResult(bodies[i].callId)
    requires forall i :: 0 <= i < |bodies| && bodies[i].ToolResult? ==>
        i >= 1 && bodies[i - 1] == ToolCall(bodies[i].resultId)
    requires forall i, j :: 0 <= i < j < |bodies| && bodies[i].ToolCall? && bodies[j].ToolCall? ==>
               bodies[i].callId != bodies[j].callId
    requires exists i :: 0 <= i < |bodies| && bodies[i].ToolCall?
    ensures CallsAnswered(Numbered(bodies))
  {
    var events := Numbered(bodies);
    var i :| 0 <= i < |bodies| && bodies[i].ToolCall?;
    assert CallsAt(events, i, bodies[i].callId);
    CallsOnce(bodies);
    NextAnswers(bodies);
    hide Numbered;
    forall i, id | CallsAt(events, i, id) ensures exists j :: i < j && ResultAt(events, j, id) {
      assert ResultAt(events, i + 1, id);
    }
    hide CallsAt, ResultAt;
    forall i, j, id | ResultAt(events, i, id) && ResultAt(events, j, id) ensures i == j {
      assert CallsAt(events, i - 1, id) && CallsAt(events, j - 1, id);
    }
  }

  lemma NextAnswers(bodies: seq<Body>)
    requires forall i :: 0 <= i < |bodies| && bodies[i].ToolCall? ==>
               i + 1 < |bodies| && bodies[i + 1] == ToolResult(bodies[i].callId)
    requires forall i :: 0 <= i < |bodies| && bodies[i].ToolResult? ==>
        i >= 1 && bodies[i - 1] == ToolCall(bodies[i].resultId)
    ensures forall i, id :: CallsAt(Numbered(bodies), i, id) ==> ResultAt(Numbered(bodies), i + 1, id)
    ensures forall j, id :: ResultAt(Numbered(bodies), j, id) ==> CallsAt(Numbered(bodies), j - 1, id)
  {
    var events := Numbered(bodies);
    forall i, id | CallsAt(events, i, id) ensures ResultAt(events, i + 1, id) {
      assert bodies[i] == ToolCall(id);
    }
    forall j, id | ResultAt(events, j, id) ensures CallsAt(events, j - 1, id) {
      assert bodies[j] == ToolResult(id);
    }
  }

  lemma CallsOnce(bodies: seq<Body>)
    requires forall i, j :: 0 <= i < j < |bodies| && bodies[i].ToolCall? && bodies[j].ToolCall? ==>
               bodies[i].callId != bodies[j].callId
    ensures forall i, j, id :: CallsAt(Numbered(bodies), i, id) && CallsAt(Numbered(bodies), j, id) ==> i == j
  {
    forall i, j, id | CallsAt(Numbered(bodies), i, id) && CallsAt(Numbered(bodies), j, id) ensures i == j {
      assert bodies[i] == ToolCall(id) && bodies[j] == ToolCall(id);
    }
  }

  lemma AssembledIsPaired(events: seq<Body>, n: nat, sha256: Text)
    requires PairedUp(events, n)
    ensures CallsAnswered(Numbered(Assembled(events, sha256)))
  {
    var all := Assembled(events, sha256);
    forall i | 0 <= i < |events| && events[i].ToolCall? ensures events[i].callId != VALIDATION_ID {
      ValidationIsNew(events[i].callId, n);
    }
    assert all[|events|] == ToolCall(VALIDATION_ID);
    assert forall i :: 0 <= i < |events| ==> all[i] == events[i];
    PairedIsAnswered(all);
  }

  /** The most the settings allow. */
  const MAX_TOOL_CALLS: nat := 128

  /** Events so far: one per model call and two per tool call, at most. */
  ghost predicate Short(s: State, k: nat) {
    && |s.events| <= k + 2 * s.callsMade
    && (s.fallback.Some? ==> |s.fallback.value.events| <= k + 2 * s.callsMade)
  }

  lemma {:induction false} AnswersAreShort(budget: nat, script: nat -> Step, k: nat, s: State)
    requires Within(budget, s) && Short(s, k)
    ensures var o := Play(budget, script, k, s);
            o.result.Finished? ==> |o.result.answer.events| <= o.modelCalls + 2 * o.toolCalls
    decreases Left(budget, s)
  {
    var p := Iterate(budget, script(k), k, s);
    if p.Go? {
      AnswersAreShort(budget, script, k + 1, p.state);
    }
  }

  lemma {:induction false} AlternativesBefore(events: seq<Body>, more: seq<Body>)
    requires forall i :: 0 <= i < |more| ==> !more[i].ModelTurn?
    ensures Alternatives(Numbered(events + more)) == Alternatives(Numbered(events))
    decreases |more|
  {
    if more == [] {
      assert events + more == events;
    } else {
      var n := |more| - 1;
      var all, before := events + more, events + more[..n];
      AlternativesBefore(events, more[..n]);
      assert all == before + [more[n]];
      NothingMore(before, more[n]);
    }
  }

  lemma NothingMore(events: seq<Body>, body: Body)
    requires !body.ModelTurn?
    ensures Alternatives(Numbered(events + [body])) == Alternatives(Numbered(events))
  {
    var trace := Numbered(events + [body]);
    assert trace[..|events|] == Numbered(events);
    assert AlternativesOf(trace[|events|].body) == [];
  }

  /** Everything but the calls: numbering, the model turn, the final submission, the alternatives. */
  lemma AssembledEnds(events: seq<Body>, n: nat, sha256: Text)
    requires PairedUp(events, n) && events != [] && events[|events| - 1].ModelTurn?
    ensures var trace := Numbered(Assembled(events, sha256));
            && |trace| == |events| + 3
            && Contiguous(trace) && HasModelTurn(trace) && EndsWith(trace, sha256)
            && Alternatives(trace) == Alternatives(Numbered(events))
  {
    AlternativesBefore(events, [ToolCall(VALIDATION_ID), ToolResult(VALIDATION_ID), FinalSubmission(sha256)]);
    var trace := Numbered(Assembled(events, sha256));
    hide Alternatives, IdBelow;
    assert trace[|events| - 1].body.ModelTurn?;
    assert EndsWith(trace, sha256);
  }

  /** Every trajectory `solve` assembles meets the validator's rules, except that the share of
      finite alternatives is the provider's: the trajectory is valid iff that share is met. */
  lemma TrajectoryIsValid(budget: nat, script: nat -> Step, sha256: Text)
    requires budget <= MAX_TOOL_CALLS && Run(budget, script).result.Finished?
    ensures var events := Run(budget, script).result.answer.events;
            ValidTrace(Numbered(Assembled(events, sha256)), sha256) <==> MostlyFinite(Alternatives(Numbered(events)))
  {
    var events := Run(budget, script).result.answer.events;
    AnswersAreSourced(budget, script);
    AnswersAreShort(budget, script, 0, INITIAL);
    RunIsBounded(budget, script);
    var n :| Built(events, n);
    assert events != [] && events[|events| - 1].ModelTurn? && |events| + 3 <= MAX_EVENTS;
    hide Run, Play, Built, PairedUp, CallsAnswered, Alternatives, MostlyFinite, Contiguous, HasModelTurn, EndsWith,
        Numbered, Assembled;
    BuiltIsPaired(events, n);
    AssembledIsPaired(events, n, sha256);
    AssembledEnds(events, n, sha256);
  }
}
