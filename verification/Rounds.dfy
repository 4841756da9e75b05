/**
 One validator round (rlvr/v3/round.py, evaluate_round; rlvr/v3/api.py, the wire checks).

 Everything outside the validator is arbitrary: the lease, each miner's reply, the reveal,
 the outcome of every download, container and clock comparison, and the order in which
 grading tasks run.
 */
module Rounds {
  import opened Seqs
  import opened Grading
  import opened Evaluations

  /** A registration: the (uid, hotkey) pair a slot, submission, grant or failure is for. */
  type Reg = (nat, string)

  // ---- Wire objects --------------------------------------------------------------------

  datatype Artifact = Artifact(uploadId: string, sha256: string, sizeBytes: nat, format: string)

  datatype Response = Response(submission: Artifact, trajectory: string)

  datatype Lease = Lease(challengeId: string, taskId: string, verifierSha: string, verifierPolicy: string,
                         format: string, profile: string, expiresAt: int, slots: seq<Reg>, quorum: nat)

  datatype Submission = Submission(reg: Reg, latencyMs: nat)

  datatype Grant = Grant(reg: Reg, artifact: Artifact)

  datatype Failure = Failure(reg: Reg, reason: MinerReason)

  datatype Reveal = Reveal(challengeId: string, taskId: string, verifierSha: string, verifierPolicy: string,
                           gradingExpiresAt: int, grants: seq<Grant>, failures: seq<Failure>)

  function SlotUids(regs: seq<Reg>): (r: seq<nat>)
    ensures |r| == |regs|
  {
    seq(|regs|, i requires 0 <= i < |regs| => regs[i].0)
  }

  function SlotHotkeys(regs: seq<Reg>): (r: seq<string>)
    ensures |r| == |regs|
  {
    seq(|regs|, i requires 0 <= i < |regs| => regs[i].1)
  }

  /** No uid and no hotkey twice. */
  ghost predicate Distinct(regs: seq<Reg>) {
    NoDup(SlotUids(regs)) && NoDup(SlotHotkeys(regs))
  }

  /** `known` holds the first n entries, which do not repeat. */
  ghost predicate Collected<T(!new)>(list: seq<T>, n: nat, known: set<T>) {
    n <= |list| && known == ToSet(list[..n]) && NoDup(list[..n])
  }

  lemma CollectOne<T(!new)>(list: seq<T>, n: nat, known: set<T>)
    requires Collected(list, n, known) && n < |list|
    ensures list[n] in known ==> !NoDup(list)
    ensures list[n] !in known ==> Collected(list, n + 1, known + {list[n]})
  {
    assert list[..n + 1] == list[..n] + [list[n]];
    AddLast(list[..n], list[n]);
  }

  lemma CollectedAll<T(!new)>(list: seq<T>, known: set<T>)
    requires Collected(list, |list|, known)
    ensures NoDup(list)
  {
    assert list[..|list|] == list;
  }

  /** The duplicate test of the lease's slot pool: two sets filled in a loop. */
  method UniqueSlots(regs: seq<Reg>) returns (ok: bool)
    ensures ok <==> Distinct(regs)
  {
    var uids: set<nat>, hotkeys: set<string> := {}, {};
    ghost var u, h := SlotUids(regs), SlotHotkeys(regs);
    assert Collected(u, 0, uids) && Collected(h, 0, hotkeys);
    hide Collected;
    for i := 0 to |regs|
      invariant Collected(u, i, uids) && Collected(h, i, hotkeys)
    {
      CollectOne(u, i, uids);
      CollectOne(h, i, hotkeys);
      if regs[i].0 in uids || regs[i].1 in hotkeys {
        return false;
      }
      uids, hotkeys := uids + {regs[i].0}, hotkeys + {regs[i].1};
    }
    CollectedAll(u, uids);
    CollectedAll(h, hotkeys);
    return true;
  }

  function ResultRegs(revealed: Reveal): (r: seq<Reg>)
    ensures |r| == |revealed.grants| + |revealed.failures|
  {
    seq(|revealed.grants|, i requires 0 <= i < |revealed.grants| => revealed.grants[i].reg)
    + seq(|revealed.failures|, i requires 0 <= i < |revealed.failures| => revealed.failures[i].reg)
  }

  /** The duplicate test of commits and reveals: `len(xs) == len(set(xs))` twice. */
  predicate UniqueResults(regs: seq<Reg>) {
    |ToSet(SlotUids(regs))| == |regs| && |ToSet(SlotHotkeys(regs))| == |regs|
  }

  lemma UniqueResultsIsDistinct(regs: seq<Reg>)
    ensures UniqueResults(regs) <==> Distinct(regs)
  {
    CardIffNoDup(SlotUids(regs));
    CardIffNoDup(SlotHotkeys(regs));
  }

  predicate ValidateCommitReveal(lease: Lease, submissions: seq<Submission>, revealed: Reveal) {
    && revealed.challengeId == lease.challengeId && revealed.taskId == lease.taskId
    && revealed.verifierSha == lease.verifierSha && revealed.verifierPolicy == lease.verifierPolicy
    && ToSet(ResultRegs(revealed)) == (set s | s in submissions :: s.reg)
  }

  predicate GrantMatches(grant: Grant, response: Option<Response>) {
    && response.Some?
    && grant.artifact == response.value.submission
  }

  // ---- Grouping identical submissions -------------------------------------------------------

  function IndexOf(groups: seq<seq<Grant>>, sha256: string): (i: nat)
    requires forall k :: 0 <= k < |groups| ==> groups[k] != []
    ensures i <= |groups|
    ensures i < |groups| ==> groups[i][0].artifact.sha256 == sha256
    ensures forall k :: 0 <= k < i ==> groups[k][0].artifact.sha256 != sha256
  {
    if groups == [] then 0
    else
      var i := IndexOf(groups[..|groups| - 1], sha256);
      if i < |groups| - 1 then i
      else if groups[i][0].artifact.sha256 == sha256 then i else |groups|
  }

  /** `groups.setdefault(grant.sha256, []).append(grant)`. */
  function AddToGroup(groups: seq<seq<Grant>>, grant: Grant): (r: seq<seq<Grant>>)
    requires forall k :: 0 <= k < |groups| ==> groups[k] != []
    ensures forall k :: 0 <= k < |r| ==> r[k] != []
  {
    var i := IndexOf(groups, grant.artifact.sha256);
    if i < |groups| then groups[i := groups[i] + [grant]] else groups + [[grant]]
  }

  function Groups(grants: seq<Grant>): (r: seq<seq<Grant>>)
    ensures forall k :: 0 <= k < |r| ==> r[k] != []
  {
    if grants == [] then [] else AddToGroup(Groups(grants[..|grants| - 1]), grants[|grants| - 1])
  }

  /** One group per digest. */
  ghost predicate ByDigest(groups: seq<seq<Grant>>) {
    && (forall k :: 0 <= k < |groups| ==> groups[k] != [])
    && (forall k, i :: 0 <= k < |groups| && 0 <= i < |groups[k]| ==>
        groups[k][i].artifact.sha256 == groups[k][0].artifact.sha256)
    && (forall k, l :: 0 <= k < l < |groups| ==> groups[k][0].artifact.sha256 != groups[l][0].artifact.sha256)
  }

  lemma AddKeepsDigests(groups: seq<seq<Grant>>, grant: Grant)
    requires ByDigest(groups)
    ensures ByDigest(AddToGroup(groups, grant))
  {
    var r, i := AddToGroup(groups, grant), IndexOf(groups, grant.artifact.sha256);
    hide IndexOf;
    assert forall k :: 0 <= k < |groups| ==> r[k][0] == groups[k][0];
    assert i == |groups| ==> r[i] == [grant];
  }

  lemma AddAddsOne(groups: seq<seq<Grant>>, grant: Grant)
    requires forall k :: 0 <= k < |groups| ==> groups[k] != []
    ensures |Flatten(AddToGroup(groups, grant))| == |Flatten(groups)| + 1
  {
    var r, i := AddToGroup(groups, grant), IndexOf(groups, grant.artifact.sha256);
    if i < |groups| {
      FlattenLength(groups, r, i, 1);
    } else {
      assert r[..|groups|] == groups;
    }
  }

  lemma AddKeepsMembers(groups: seq<seq<Grant>>, grant: Grant, g: Grant)
    requires forall k :: 0 <= k < |groups| ==> groups[k] != []
    ensures g in Flatten(AddToGroup(groups, grant)) <==> g in Flatten(groups) || g == grant
  {
    var r, i := AddToGroup(groups, grant), IndexOf(groups, grant.artifact.sha256);
    FlattenMembers(groups);
    FlattenMembers(r);
    if g == grant { assert g in r[if i < |groups| then i else |groups|]; }
    if k :| 0 <= k < |groups| && g in groups[k] { assert g in r[k]; }
    if k :| 0 <= k < |r| && g in r[k] { assert (k < |groups| && g in groups[k]) || g == grant; }
  }

  /** The groups partition the grants. */
  lemma {:induction false} GroupsPartition(grants: seq<Grant>)
    ensures ByDigest(Groups(grants))
    ensures |Flatten(Groups(grants))| == |grants|
    ensures forall g :: g in Flatten(Groups(grants)) <==> g in grants
  {
    if grants != [] {
      var before, last := Groups(grants[..|grants| - 1]), grants[|grants| - 1];
      GroupsPartition(grants[..|grants| - 1]);
      AddKeepsDigests(before, last);
      AddAddsOne(before, last);
      forall g { AddKeepsMembers(before, last, g); }
      assert forall g :: g in grants <==> g in grants[..|grants| - 1] || g == last;
    }
  }

  /** The first grant with this digest: the one whose upload is fetched and graded. */
  function Leader(grants: seq<Grant>, sha256: string): Option<Grant> {
    if grants == [] then None
    else
      var n := |grants| - 1;
      var earlier := Leader(grants[..n], sha256);
      if earlier.Some? then earlier
      else if grants[n].artifact.sha256 == sha256 then Some(grants[n])
      else None
  }

  /** Grant i is the first with its digest. */
  ghost predicate IsFirst(grants: seq<Grant>, i: nat) {
    i < |grants| && forall j :: 0 <= j < i ==> grants[j].artifact.sha256 != grants[i].artifact.sha256
  }

  lemma {:induction false} LeaderIsFirst(grants: seq<Grant>, sha256: string) returns (i: nat)
    requires Leader(grants, sha256).Some?
    ensures IsFirst(grants, i) && grants[i].artifact.sha256 == sha256 && Leader(grants, sha256) == Some(grants[i])
  {
    var n := |grants| - 1;
    LeaderIsFound(grants[..n], sha256);
    if Leader(grants[..n], sha256).Some? {
      i := LeaderIsFirst(grants[..n], sha256);
      assert forall j :: 0 <= j <= i ==> grants[..n][j] == grants[j];
    } else {
      i := n;
      assert forall j :: 0 <= j < n ==> grants[j] in grants[..n];
    }
  }

  lemma {:induction false} LeaderIsFound(grants: seq<Grant>, sha256: string)
    ensures Leader(grants, sha256).None? <==> forall g :: g in grants ==> g.artifact.sha256 != sha256
    ensures Leader(grants, sha256).Some? ==>
              Leader(grants, sha256).value in grants && Leader(grants, sha256).value.artifact.sha256 == sha256
  {
    if grants != [] {
      var n := |grants| - 1;
      LeaderIsFound(grants[..n], sha256);
      assert forall g :: g in grants <==> g in grants[..n] || g == grants[n];
    }
  }

  /** Every group is led by the first grant with its digest. */
  lemma {:induction false} GroupsHaveLeaders(grants: seq<Grant>)
    ensures forall k :: 0 <= k < |Groups(grants)| ==>
              Leader(grants, Groups(grants)[k][0].artifact.sha256) == Some(Groups(grants)[k][0])
  {
    if grants != [] {
      var n := |grants| - 1;
      var before, last := Groups(grants[..n]), grants[n];
      var groups: seq<seq<Grant>> := Groups(grants);
      GroupsHaveLeaders(grants[..n]);
      var i := IndexOf(before, last.artifact.sha256);
      if i == |before| {
        NoGroupNoGrant(grants[..n], last.artifact.sha256);
        LeaderIsFound(grants[..n], last.artifact.sha256);
      }
      hide Groups, IndexOf;
      forall k | 0 <= k < |groups| ensures Leader(grants, groups[k][0].artifact.sha256) == Some(groups[k][0]) {
        assert k < |before| ==> groups[k][0] == before[k][0];
      }
    }
  }

  lemma NoGroupNoGrant(grants: seq<Grant>, sha256: string)
    requires forall k :: 0 <= k < |Groups(grants)| ==> Groups(grants)[k][0].artifact.sha256 != sha256
    ensures forall g :: g in grants ==> g.artifact.sha256 != sha256
  {
    var groups := Groups(grants);
    GroupsPartition(grants);
    FlattenMembers(groups);
    hide Groups, Flatten;
    forall g | g in grants ensures g.artifact.sha256 != sha256 {
      var k :| 0 <= k < |groups| && g in groups[k];
      var i :| 0 <= i < |groups[k]| && groups[k][i] == g;
    }
  }

  method GroupGrants(grants: seq<Grant>) returns (groups: seq<seq<Grant>>)
    ensures groups == Groups(grants)
  {
    groups := [];
    for i := 0 to |grants|
      invariant groups == Groups(grants[..i])
    {
      assert grants[..i + 1][..i] == grants[..i];
      groups := AddToGroup(groups, grants[i]);
    }
    assert grants[..|grants|] == grants;
  }

  // ---- One grading task ---------------------------------------------------------------------

  datatype Evaluated = Ran(result: EvaluationResult) | EvaluationRaised(isException: bool)

  /** What happens around one group's grading. */
  datatype GradeWorld = GradeWorld(downloaded: bool, expired: bool, storage: bool, materialized: bool,
                                   evaluated: Evaluated, durationMs: nat, cleaned: bool)

  datatype TaskOutcome =
    | Graded(evaluations: seq<MinerEvaluation>)
    | NotStarted
    | Abandon(evaluations: seq<MinerEvaluation>)
    | Raised(isException: bool)

  predicate IsFault(o: TaskOutcome) {
    o.Abandon? || o.Raised?
  }

  /** Latency and trajectory come from the miner's own submission and signed response. */
  datatype Context = Context(latency: map<Reg, nat>, trajectory: map<Reg, string>)

  function Evaluation(ctx: Context, grant: Grant, result: EvaluationResult, durationMs: nat): MinerEvaluation {
    MinerEvaluation(grant.reg.0, grant.reg.1,
                    if grant.reg in ctx.latency then ctx.latency[grant.reg] else 0,
                    result, durationMs,
                    if grant.reg in ctx.trajectory then Some(ctx.trajectory[grant.reg]) else None)
  }

  /** Every miner of the group gets the verdict, with its own latency and trajectory. */
  function Verdicts(ctx: Context, group: seq<Grant>, result: EvaluationResult,
      durationMs: nat): (r: seq<MinerEvaluation>)
    ensures |r| == |group|
  {
    seq(|group|, i requires 0 <= i < |group| => Evaluation(ctx, group[i], result, durationMs))
  }

  function GradeOnce(ctx: Context, group: seq<Grant>, w: GradeWorld): TaskOutcome {
    if !w.downloaded || w.expired || !w.storage || !w.materialized then Abandon([])
    else
      match w.evaluated
      case EvaluationRaised(isException) => if w.cleaned then Raised(isException) else Abandon([])
      case Ran(result) =>
        var graded := Verdicts(ctx, group, result, w.durationMs);
        if !w.cleaned || result.status.Abandoned? then Abandon(graded) else Graded(graded)
  }

  /** Nothing on the validator's side went wrong for this group. */
  predicate SoundGrading(w: GradeWorld) {
    && w.downloaded && !w.expired && w.storage && w.materialized && w.cleaned
    && w.evaluated.Ran? && !w.evaluated.result.status.Abandoned?
  }

  /** The evaluation of one submission: its task and everything its grading meets. */
  datatype Submitted = Repository(manifest: seq<Check>, world: World) | Terminal(manifest: seq<Check>, world: World)

  ghost predicate ValidSubmitted(t: Submitted) {
    |t.world.checks| == |t.manifest|
  }

  /** Nothing the validator provides to this evaluation goes wrong. */
  predicate Ready(t: Submitted)
    requires |t.world.checks| == |t.manifest|
  {
    && Healthy(t.manifest, t.world)
    && (t.Repository? ==> !t.world.patch.PatchToolRaised? && !t.world.patch.PatchFaulted?)
    && (t.Terminal? ==> t.world.script.Some?)
  }

  method EvaluateSubmission(t: Submitted) returns (e: Evaluated)
    requires ValidSubmitted(t)
    ensures e.Ran? ==> WellFormed(e.result)
    ensures e.EvaluationRaised? <==> t.Repository? && t.world.directoryBefore && t.world.patch.PatchFaulted?
    ensures e.EvaluationRaised? ==> e.isException
    ensures Ready(t) ==> e.Ran? && !e.result.status.Abandoned?
  {
    match t {
      case Repository(manifest, world) =>
        var result := EvaluateRepository(manifest, world);
        return if result.None? then EvaluationRaised(true) else Ran(result.value);
      case Terminal(manifest, world) =>
        var result := EvaluateTerminal(manifest, world);
        return Ran(result);
    }
  }

  /** `grade_once`, around the evaluation of `t`: every miner of the group is graded, with the
      verdict of the evaluation, whenever neither the validator's own steps nor anything it
      provides to the evaluation goes wrong. */
  method GradeSubmission(ctx: Context, group: seq<Grant>, around: GradeWorld, t: Submitted)
    returns (o: TaskOutcome, ghost w: GradeWorld)
    requires ValidSubmitted(t)
    ensures w == around.(evaluated := w.evaluated) && o == GradeOnce(ctx, group, w)
    ensures o.Graded? <==> SoundGrading(w)
    ensures o.Graded? ==> WellFormed(w.evaluated.result)
    ensures Ready(t) && SoundAround(around) ==> o.Graded?
  {
    w := around;
    hide Ready, WellFormed, Verdicts;
    if !around.downloaded {
      return Abandon([]), w;
    }
    if around.expired || !around.storage || !around.materialized {
      return Abandon([]), w;
    }
    var evaluated := EvaluateSubmission(t);
    w := around.(evaluated := evaluated);
    if evaluated.EvaluationRaised? {
      return if around.cleaned then Raised(evaluated.isException) else Abandon([]), w;
    }
    var graded := Verdicts(ctx, group, evaluated.result, around.durationMs);
    if !around.cleaned {
      return Abandon(graded), w;
    }
    if evaluated.result.status.Abandoned? {
      return Abandon(graded), w;
    }
    return Graded(graded), w;
  }

  /** The validator's own steps around an evaluation go well. */
  predicate SoundAround(w: GradeWorld) {
    w.downloaded && !w.expired && w.storage && w.materialized && w.cleaned
  }

  // ---- Interleaved grading --------------------------------------------------------------------

  datatype Task = Waiting | Running | Done(outcome: TaskOutcome)

  /** The tasks `asyncio.gather` runs, and the `round_dead` event. */
  datatype Grader = Grader(tasks: seq<Task>, dead: bool)

  datatype Plan = Plan(ctx: Context, groups: seq<seq<Grant>>, worlds: seq<GradeWorld>, slots: nat)

  ghost predicate ValidPlan(p: Plan) {
    |p.worlds| == |p.groups| && p.slots >= 1
  }

  function RunningCount(tasks: seq<Task>): nat {
    if tasks == [] then 0 else RunningCount(tasks[..|tasks| - 1]) + if tasks[|tasks| - 1].Running? then 1 else 0
  }

  function Start(n: nat): Grader {
    Grader(seq(n, _ => Waiting), false)
  }

  /** Task i gets the semaphore: it starts grading, unless the round is already dead. */
  predicate CanEnter(p: Plan, g: Grader, i: nat) {
    i < |g.tasks| && g.tasks[i].Waiting? && RunningCount(g.tasks) < p.slots
  }

  function Enter(g: Grader, i: nat): Grader
    requires i < |g.tasks|
  {
    g.(tasks := g.tasks[i := if g.dead then Done(NotStarted) else Running])
  }

  /** Task i ends; a fault kills the round before the semaphore is released. */
  function Leave(p: Plan, g: Grader, i: nat): Grader
    requires i < |g.tasks| && i < |p.groups| && i < |p.worlds|
  {
    var outcome := GradeOnce(p.ctx, p.groups[i], p.worlds[i]);
    Grader(g.tasks[i := Done(outcome)], g.dead || IsFault(outcome))
  }

  ghost predicate Step(p: Plan, g: Grader, g': Grader)
    requires ValidPlan(p) && |g.tasks| == |p.groups|
  {
    exists i: nat :: i < |g.tasks| &&
      ((CanEnter(p, g, i) && g' == Enter(g, i)) || (g.tasks[i].Running? && g' == Leave(p, g, i)))
  }

  /** What holds in every reachable state of every interleaving. */
  ghost predicate Inv(p: Plan, g: Grader)
    requires ValidPlan(p)
  {
    && |g.tasks| == |p.groups|
    && RunningCount(g.tasks) <= p.slots
    && (g.dead <==> exists i :: 0 <= i < |g.tasks| && g.tasks[i].Done? && IsFault(g.tasks[i].outcome))
    && (forall i :: 0 <= i < |g.tasks| && g.tasks[i].Done? ==>
          if g.tasks[i].outcome.NotStarted? then g.dead
          else g.tasks[i].outcome == GradeOnce(p.ctx, p.groups[i], p.worlds[i]))
  }

  lemma {:induction false} CountUpdate(tasks: seq<Task>, i: nat, t: Task)
    requires i < |tasks|
    ensures RunningCount(tasks[i := t])
            == RunningCount(tasks) - (if tasks[i].Running? then 1 else 0) + (if t.Running? then 1 else 0)
  {
    var n := |tasks| - 1;
    if i == n {
      assert tasks[i := t][..n] == tasks[..n];
    } else {
      assert tasks[i := t][..n] == tasks[..n][i := t];
      CountUpdate(tasks[..n], i, t);
    }
  }

  /** As many tasks grade at a time as the policy allows, and no more: a waiting task can take the
      semaphore iff fewer hold it, and then it grades unless the round is already dead. */
  lemma SlotsAreUsed(p: Plan, g: Grader, i: nat)
    requires ValidPlan(p) && Inv(p, g) && i < |g.tasks| && g.tasks[i].Waiting?
    ensures var next := if g.dead then Done(NotStarted) else Running;
            Step(p, g, g.(tasks := g.tasks[i := next])) <==> RunningCount(g.tasks) < p.slots
  {
    var next := if g.dead then Done(NotStarted) else Running;
    var g' := g.(tasks := g.tasks[i := next]);
    assert g'.tasks[i] == next;
    if Step(p, g, g') {
      var k: nat :| k < |g.tasks|
        && ((CanEnter(p, g, k) && g' == Enter(g, k)) || (g.tasks[k].Running? && g' == Leave(p, g, k)));
      assert k != i ==> g'.tasks[i] == g.tasks[i];
    }
    assert CanEnter(p, g, i) ==> g' == Enter(g, i);
  }

  lemma EnterKeepsInv(p: Plan, g: Grader, i: nat)
    requires ValidPlan(p) && Inv(p, g) && CanEnter(p, g, i)
    ensures Inv(p, Enter(g, i))
  {
    hide GradeOnce;
    var g' := Enter(g, i);
    CountUpdate(g.tasks, i, g'.tasks[i]);
    if g.dead {
      var k :| 0 <= k < |g.tasks| && g.tasks[k].Done? && IsFault(g.tasks[k].outcome);
      assert g'.tasks[k] == g.tasks[k];
    }
  }

  lemma LeaveKeepsInv(p: Plan, g: Grader, i: nat)
    requires ValidPlan(p) && Inv(p, g) && i < |g.tasks| && g.tasks[i].Running?
    ensures Inv(p, Leave(p, g, i))
  {
    hide Verdicts;
    var g' := Leave(p, g, i);
    CountUpdate(g.tasks, i, g'.tasks[i]);
    if g.dead {
      var k :| 0 <= k < |g.tasks| && g.tasks[k].Done? && IsFault(g.tasks[k].outcome);
      assert g'.tasks[k] == g.tasks[k];
    } else if IsFault(g'.tasks[i].outcome) {
      assert g'.tasks[i].Done?;
    }
  }

  lemma {:induction false} NoneRunning(tasks: seq<Task>)
    ensures RunningCount(tasks) == 0 <==> forall i :: 0 <= i < |tasks| ==> !tasks[i].Running?
  {
    if tasks != [] {
      var n := |tasks| - 1;
      NoneRunning(tasks[..n]);
      assert forall i :: 0 <= i < n ==> tasks[..n][i] == tasks[i];
    }
  }

  /** Grading never gets stuck: while a task is unfinished, some task can move. */
  lemma SomeTaskCanMove(p: Plan, g: Grader)
    requires ValidPlan(p) && Inv(p, g)
    requires exists i :: 0 <= i < |g.tasks| && !g.tasks[i].Done?
    ensures exists i: nat :: i < |g.tasks| && (CanEnter(p, g, i) || g.tasks[i].Running?)
  {
    var k :| 0 <= k < |g.tasks| && !g.tasks[k].Done?;
    NoneRunning(g.tasks);
    assert g.tasks[k].Running? || g.tasks[k].Waiting?;
    if RunningCount(g.tasks) == 0 {
      assert CanEnter(p, g, k);
    }
  }

  /** Steps left at most: two per waiting task, one per running task. */
  function Left(tasks: seq<Task>): nat {
    if tasks == [] then 0
    else Left(tasks[..|tasks| - 1]) + match tasks[|tasks| - 1] case Waiting => 2 case Running => 1 case Done(_) => 0
  }

  lemma {:induction false} LeftUpdate(tasks: seq<Task>, i: nat, t: Task)
    requires i < |tasks|
    requires (tasks[i].Waiting? && !t.Waiting?) || (tasks[i].Running? && t.Done?)
    ensures Left(tasks[i := t]) < Left(tasks)
  {
    var n := |tasks| - 1;
    if i == n {
      assert tasks[i := t][..n] == tasks[..n];
    } else {
      assert tasks[i := t][..n] == tasks[..n][i := t];
      LeftUpdate(tasks[..n], i, t);
    }
  }

  /** A schedule: the states an event loop passes through. */
  ghost predicate Schedule(p: Plan, states: seq<Grader>)
    requires ValidPlan(p)
  {
    && states != []
    && states[0] == Start(|p.groups|)
    && (forall k :: 0 <= k < |states| ==> |states[k].tasks| == |p.groups|)
    && forall k :: 0 <= k < |states| - 1 ==> Step(p, states[k], states[k + 1])
  }

  lemma {:induction false} ScheduleKeepsInv(p: Plan, states: seq<Grader>)
    requires ValidPlan(p) && Schedule(p, states)
    ensures Inv(p, states[|states| - 1])
  {
    var n := |states| - 1;
    if n == 0 {
      NoneRunning(states[0].tasks);
    } else {
      assert Step(p, states[n - 1], states[n]);
      ScheduleKeepsInv(p, states[..n]);
      var g := states[n - 1];
      var i: nat :| i < |g.tasks| &&
        ((CanEnter(p, g, i) && states[n] == Enter(g, i)) || (g.tasks[i].Running? && states[n] == Leave(p, g, i)));
      if CanEnter(p, g, i) && states[n] == Enter(g, i) {
        EnterKeepsInv(p, g, i);
      } else {
        LeaveKeepsInv(p, g, i);
      }
    }
  }

  ghost predicate AllDone(g: Grader) {
    forall i :: 0 <= i < |g.tasks| ==> g.tasks[i].Done?
  }

  /** Whatever the interleaving: the round ends without a fault exactly when every group is
      sound, and then every group was graded. A skipped task always comes with a fault. */
  lemma EveryInterleaving(p: Plan, states: seq<Grader>)
    requires ValidPlan(p) && Schedule(p, states)
    requires AllDone(states[|states| - 1])
    ensures var g := states[|states| - 1];
            && (g.dead <==> exists i :: 0 <= i < |p.worlds| && !SoundGrading(p.worlds[i]))
            && (g.dead <==> exists i :: 0 <= i < |g.tasks| && IsFault(g.tasks[i].outcome))
            && (!g.dead ==> forall i :: 0 <= i < |g.tasks| ==>
                  g.tasks[i].outcome == Graded(Verdicts(p.ctx, p.groups[i], p.worlds[i].evaluated.result,
                      p.worlds[i].durationMs)))
  {
    ScheduleKeepsInv(p, states);
    FinalTasks(p, states[|states| - 1]);
  }

  lemma FinalTasks(p: Plan, g: Grader)
    requires ValidPlan(p) && Inv(p, g) && AllDone(g)
    ensures g.dead <==> exists i :: 0 <= i < |p.worlds| && !SoundGrading(p.worlds[i])
    ensures !g.dead ==> forall i :: 0 <= i < |g.tasks| ==>
                  g.tasks[i].outcome == Graded(Verdicts(p.ctx, p.groups[i], p.worlds[i].evaluated.result,
                      p.worlds[i].durationMs))
  {
    hide Verdicts;
    forall i | 0 <= i < |p.worlds|
      ensures !SoundGrading(p.worlds[i]) <==> IsFault(GradeOnce(p.ctx, p.groups[i], p.worlds[i]))
    {
    }
    if g.dead {
      var k :| 0 <= k < |g.tasks| && g.tasks[k].Done? && IsFault(g.tasks[k].outcome);
      assert !SoundGrading(p.worlds[k]);
    } else {
      forall i | 0 <= i < |g.tasks|
        ensures SoundGrading(p.worlds[i])
        ensures g.tasks[i].outcome
            == Graded(Verdicts(p.ctx, p.groups[i], p.worlds[i].evaluated.result, p.worlds[i].durationMs))
      {
        assert g.tasks[i].Done?;
      }
    }
  }

  /** `asyncio.gather` over the grading tasks, under an arbitrary scheduler. */
  method RunGrading(p: Plan) returns (outcomes: seq<TaskOutcome>)
    requires ValidPlan(p)
    ensures |outcomes| == |p.groups|
    ensures (exists i :: 0 <= i < |outcomes| && IsFault(outcomes[i])) <==>
        exists i :: 0 <= i < |p.worlds| && !SoundGrading(p.worlds[i])
    ensures (forall i :: 0 <= i < |p.worlds| ==> SoundGrading(p.worlds[i])) ==> outcomes == AllGraded(p)
    ensures forall i :: 0 <= i < |outcomes| ==>
        outcomes[i].NotStarted? || outcomes[i] == GradeOnce(p.ctx, p.groups[i], p.worlds[i])
  {
    var g := Start(|p.groups|);
    NoneRunning(g.tasks);
    while exists i :: 0 <= i < |g.tasks| && !g.tasks[i].Done?
      invariant Inv(p, g)
      decreases Left(g.tasks)
    {
      SomeTaskCanMove(p, g);
      hide Inv;
      var i: nat :| i < |g.tasks| && (CanEnter(p, g, i) || g.tasks[i].Running?);
      assert |g.tasks| == |p.groups| by { InvSize(p, g); }
      if CanEnter(p, g, i) {
        EnterKeepsInv(p, g, i);
        LeftUpdate(g.tasks, i, Enter(g, i).tasks[i]);
        g := Enter(g, i);
      } else {
        LeaveKeepsInv(p, g, i);
        LeftUpdate(g.tasks, i, Leave(p, g, i).tasks[i]);
        g := Leave(p, g, i);
      }
    }
    FinalTasks(p, g);
    outcomes := seq(|g.tasks|, i requires 0 <= i < |g.tasks| => g.tasks[i].outcome);
    if i :| 0 <= i < |outcomes| && IsFault(outcomes[i]) {
      assert g.tasks[i].Done? && IsFault(g.tasks[i].outcome);
    }
    if g.dead {
      var k :| 0 <= k < |g.tasks| && g.tasks[k].Done? && IsFault(g.tasks[k].outcome);
      assert IsFault(outcomes[k]);
    }
  }

  lemma InvSize(p: Plan, g: Grader)
    requires ValidPlan(p) && Inv(p, g)
    ensures |g.tasks| == |p.groups|
  {
  }

  /** What the tasks return when each one runs. */
  function AllGraded(p: Plan): (r: seq<TaskOutcome>)
    requires |p.worlds| == |p.groups|
    ensures |r| == |p.groups|
  {
    seq(|p.groups|, i requires 0 <= i < |p.groups| => GradeOnce(p.ctx, p.groups[i], p.worlds[i]))
  }
}
