/**
 The protocol around grading (rlvr/v3/round.py, evaluate_round): lease checks, dispatch,
 quorum, commit and reveal checks, grading, and the all-or-nothing result.
 */
module RoundProtocol {
  import opened Seqs
  import opened Grading
  import opened Evaluations
  import opened Sorting
  import opened Rounds

  datatype Policy = Policy(
    minersPerTask: nat, commitQuorum: nat, gradingConcurrency: nat, minLeaseS: nat, profile: string,
        verifierPolicy: string)

  /** What the policy's own constructor enforces. */
  predicate ValidPolicy(p: Policy) {
    1 <= p.gradingConcurrency && 1 <= p.minersPerTask <= 1024 && 1 <= p.commitQuorum <= p.minersPerTask
  }

  datatype Reply = NotServing | DispatchRaised | Replied(latencyMs: nat, response: Option<Response>)

  datatype CommitReply = CommitRaised | NoReply | Revealed(revealed: Reveal)

  /** Everything a round meets: the server, the clock, the validator's own disk and network,
      each miner's reply, and what happens around the grading each registration's grant leads. */
  datatype World = World(
    lease: Option<Lease>, retryAfter: Option<int>, clockAtLease: real, workspaceReady: bool, clockAtDispatch: real,
    reply: Reg -> Reply, commit: CommitReply, clockAtReveal: int, verifierReady: bool, grading: Reg -> GradeWorld)

  /** Faults of the validator's storage, downloads and extraction are one code each here for
      the workspace, the verifier and grading. */
  datatype Code =
    | SlotPoolMismatch | LeaseQuorumMismatch | LeaseTooShort | UnsupportedProfile
    | UnsupportedVerifierPolicy | WorkspaceFault | QuorumNotMet | CommitFailed | ValidatorError | RevealMismatch
    | GradingExpired | VerifierFault | SubmissionFormatMismatch | SubmissionGrantMismatch | GradingFault

  datatype RoundResult =
    | Unavailable(retryAfter: Option<int>)
    | RoundAbandoned(code: Code, diagnostics: seq<MinerEvaluation>)
    | Completed(evaluations: seq<MinerEvaluation>)
    | Propagated

  // ---- Dispatch --------------------------------------------------------------------------

  function Latency(r: Reply): nat {
    if r.Replied? then r.latencyMs else 0
  }

  function Signed(r: Reply): Option<Response> {
    if r.Replied? then r.response else None
  }

  function Submissions(slots: seq<Reg>, replies: seq<Reply>): (r: seq<Submission>)
    requires |replies| == |slots|
    ensures |r| == |slots|
  {
    seq(|slots|, i requires 0 <= i < |slots| => Submission(slots[i], Latency(replies[i])))
  }

  /** `signed_responses`: the parsed responses by registration. */
  function SignedBy(slots: seq<Reg>, replies: seq<Reply>): map<Reg, Response>
    requires |replies| == |slots|
  {
    if slots == [] then map[]
    else
      var n := |slots| - 1;
      var before := SignedBy(slots[..n], replies[..n]);
      if Signed(replies[n]).Some? then before[slots[n] := Signed(replies[n]).value] else before
  }

  function LatencyBy(slots: seq<Reg>, replies: seq<Reply>): map<Reg, nat>
    requires |replies| == |slots|
  {
    if slots == [] then map[]
    else
      var n := |slots| - 1;
      LatencyBy(slots[..n], replies[..n])[slots[n] := Latency(replies[n])]
  }

  method Dispatch(slots: seq<Reg>, replies: seq<Reply>)
    returns (submissions: seq<Submission>, signed: map<Reg, Response>, latency: map<Reg, nat>)
    requires |replies| == |slots|
    ensures submissions == Submissions(slots, replies)
    ensures signed == SignedBy(slots, replies) && latency == LatencyBy(slots, replies)
  {
    submissions, signed, latency := [], map[], map[];
    for i := 0 to |slots|
      invariant submissions == Submissions(slots[..i], replies[..i])
      invariant signed == SignedBy(slots[..i], replies[..i]) && latency == LatencyBy(slots[..i], replies[..i])
    {
      assert slots[..i + 1][..i] == slots[..i] && replies[..i + 1][..i] == replies[..i];
      match replies[i] {
        case NotServing => submissions := submissions + [Submission(slots[i], 0)];
        case DispatchRaised => submissions := submissions + [Submission(slots[i], 0)];
        case Replied(ms, response) =>
          submissions := submissions + [Submission(slots[i], ms)];
          if response.Some? {
            signed := signed[slots[i] := response.value];
          }
      }
      latency := latency[slots[i] := submissions[i].latencyMs];
    }
    assert slots[..|slots|] == slots && replies[..|slots|] == replies;
  }

  /** With distinct slots the quorum counts the slots that answered with a signature. */
  lemma {:induction false} QuorumCountsAnswers(slots: seq<Reg>, replies: seq<Reply>)
    requires |replies| == |slots| && NoDup(slots)
    ensures SignedBy(slots, replies).Keys <= ToSet(slots)
    ensures forall i :: 0 <= i < |slots| ==>
              (slots[i] in SignedBy(slots, replies) <==> Signed(replies[i]).Some?)
              && (slots[i] in SignedBy(slots, replies) ==>
                  SignedBy(slots, replies)[slots[i]] == Signed(replies[i]).value)
  {
    if slots != [] {
      var n := |slots| - 1;
      QuorumCountsAnswers(slots[..n], replies[..n]);
      assert slots[n] !in ToSet(slots[..n]);
      assert forall i :: 0 <= i < n ==> slots[..n][i] == slots[i] && replies[..n][i] == replies[i];
    }
  }

  // ---- Turning results into evaluations --------------------------------------------------------

  function RejectedAtCommit(ctx: Context, f: Failure): MinerEvaluation {
    MinerEvaluation(f.reg.0, f.reg.1, if f.reg in ctx.latency then ctx.latency[f.reg] else 0,
                    EvaluationResult(Rejected, Miner(f.reason), [], None), 0, None)
  }

  function Rejections(ctx: Context, failures: seq<Failure>): (r: seq<MinerEvaluation>)
    ensures |r| == |failures|
  {
    seq(|failures|, i requires 0 <= i < |failures| => RejectedAtCommit(ctx, failures[i]))
  }

  function Produced(o: TaskOutcome): seq<MinerEvaluation> {
    match o
    case Graded(evaluations) => evaluations
    case Abandon(evaluations) => evaluations
    case NotStarted => []
    case Raised(_) => []
  }

  function ProducedBy(outcomes: seq<TaskOutcome>): (r: seq<seq<MinerEvaluation>>)
    ensures |r| == |outcomes|
  {
    seq(|outcomes|, i requires 0 <= i < |outcomes| => Produced(outcomes[i]))
  }

  /** The two loops after `gather`: collect what was graded, then let the first fault in
      grant order decide. */
  method Collect(rejections: seq<MinerEvaluation>, outcomes: seq<TaskOutcome>)
    returns (evaluations: seq<MinerEvaluation>, fault: Option<TaskOutcome>)
    ensures evaluations == rejections + Flatten(ProducedBy(outcomes))
    ensures fault.None? <==> forall i :: 0 <= i < |outcomes| ==> !IsFault(outcomes[i])
    ensures fault.Some? ==> exists i :: 0 <= i < |outcomes| && fault.value == outcomes[i] && IsFault(outcomes[i])
                                        && forall j :: 0 <= j < i ==> !IsFault(outcomes[j])
  {
    evaluations := rejections;
    var lists := ProducedBy(outcomes);
    for i := 0 to |outcomes|
      invariant evaluations == rejections + Flatten(lists[..i])
    {
      assert lists[..i + 1][..i] == lists[..i];
      match outcomes[i] {
        case Graded(more) => evaluations := evaluations + more;
        case Abandon(more) => evaluations := evaluations + more;
        case NotStarted =>
        case Raised(_) =>
      }
    }
    assert lists[..|outcomes|] == lists;
    for i := 0 to |outcomes|
      invariant forall j :: 0 <= j < i ==> !IsFault(outcomes[j])
    {
      if IsFault(outcomes[i]) {
        return evaluations, Some(outcomes[i]);
      }
    }
    fault := None;
  }

  // ---- The exact result ---------------------------------------------------------------------

  function RegOf(e: MinerEvaluation): Reg {
    (e.uid, e.hotkey)
  }

  function RegsOf(evaluations: seq<MinerEvaluation>): (r: seq<Reg>)
    ensures |r| == |evaluations|
  {
    seq(|evaluations|, i requires 0 <= i < |evaluations| => RegOf(evaluations[i]))
  }

  predicate UidLeq(a: MinerEvaluation, b: MinerEvaluation) {
    a.uid <= b.uid
  }

  ghost predicate ByUid(evaluations: seq<MinerEvaluation>) {
    forall i, j :: 0 <= i < j < |evaluations| ==> evaluations[i].uid < evaluations[j].uid
  }

  /** One evaluation per registration, no others, by strictly increasing uid. */
  ghost predicate OnePerSlot(evaluations: seq<MinerEvaluation>, pool: set<Reg>) {
    && ByUid(evaluations)
    && ToSet(RegsOf(evaluations)) == pool
  }

  function UidsOf(evaluations: seq<MinerEvaluation>): (r: seq<nat>)
    ensures |r| == |evaluations|
  {
    seq(|evaluations|, i requires 0 <= i < |evaluations| => evaluations[i].uid)
  }

  /** As many evaluations as registrations, covering all of them: then there is exactly one
      each, and sorting by uid lists them strictly increasing. */
  lemma CoveringIsExact(evaluations: seq<MinerEvaluation>, regs: seq<Reg>)
    requires Distinct(regs)
    requires |evaluations| == |regs|
    requires ToSet(RegsOf(evaluations)) == ToSet(regs)
    ensures OnePerSlot(Sort(evaluations, UidLeq), ToSet(regs))
    ensures forall e :: e in Sort(evaluations, UidLeq) <==> e in evaluations
  {
    UidsAreDistinct(evaluations, regs);
    var sorted := Sort(evaluations, UidLeq);
    hide RegsOf, Distinct, UidsOf, NoDup, ToSet, Sort, ByUid;
    SortedByUid(evaluations);
    SameRegs(evaluations, sorted);
  }

  lemma UidsAreDistinct(evaluations: seq<MinerEvaluation>, regs: seq<Reg>)
    requires Distinct(regs)
    requires |evaluations| == |regs|
    requires ToSet(RegsOf(evaluations)) == ToSet(regs)
    ensures NoDup(UidsOf(evaluations))
  {
    var uids := UidsOf(evaluations);
    UidsFromRegs(RegsOf(evaluations), regs);
    assert uids == SlotUids(RegsOf(evaluations));
    hide RegsOf, ToSet;
    CardNoDup(SlotUids(regs));
    CardIffNoDup(uids);
  }

  lemma UidsFromRegs(a: seq<Reg>, b: seq<Reg>)
    requires ToSet(a) == ToSet(b)
    ensures ToSet(SlotUids(a)) == ToSet(SlotUids(b))
  {
    UidsWithin(a, b);
    UidsWithin(b, a);
  }

  lemma UidsWithin(a: seq<Reg>, b: seq<Reg>)
    requires ToSet(a) <= ToSet(b)
    ensures ToSet(SlotUids(a)) <= ToSet(SlotUids(b))
  {
    forall i | 0 <= i < |a| ensures SlotUids(a)[i] in ToSet(SlotUids(b)) {
      assert a[i] in ToSet(a);
      var k :| 0 <= k < |b| && b[k] == a[i];
      assert SlotUids(b)[k] == a[i].0;
    }
  }

  lemma SortedByUid(evaluations: seq<MinerEvaluation>)
    requires NoDup(UidsOf(evaluations))
    ensures var s := Sort(evaluations, UidLeq);
            ByUid(s) && forall e :: e in s <==> e in evaluations
  {
    var s, uids := Sort(evaluations, UidLeq), UidsOf(evaluations);
    SortPermutes(evaluations, UidLeq);
    SortAscends(evaluations, UidLeq);
    assert NoDup(evaluations) by {
      forall i, j | 0 <= i < j < |evaluations| ensures evaluations[i] != evaluations[j] {
        assert uids[i] != uids[j];
      }
    }
    ShuffleKeeps(evaluations, s);
    forall e ensures e in s <==> e in evaluations {
      assert e in ToSet(s) <==> e in ToSet(evaluations);
    }
    forall i, j | 0 <= i < j < |s| ensures s[i].uid < s[j].uid {
      assert UidLeq(s[i], s[j]);
      assert s[i] in evaluations && s[j] in evaluations;
      var k :| 0 <= k < |evaluations| && evaluations[k] == s[i];
      var l :| 0 <= l < |evaluations| && evaluations[l] == s[j];
      assert k != l;
      assert uids[k] != uids[l];
    }
  }

  lemma SameRegs(a: seq<MinerEvaluation>, b: seq<MinerEvaluation>)
    requires forall e :: e in a <==> e in b
    ensures ToSet(RegsOf(a)) == ToSet(RegsOf(b))
  {
    RegsWithin(a, b);
    RegsWithin(b, a);
  }

  lemma RegsWithin(a: seq<MinerEvaluation>, b: seq<MinerEvaluation>)
    requires forall e :: e in a ==> e in b
    ensures ToSet(RegsOf(a)) <= ToSet(RegsOf(b))
  {
    forall i | 0 <= i < |a| ensures RegsOf(a)[i] in ToSet(RegsOf(b)) {
      assert a[i] in b;
      var k :| 0 <= k < |b| && b[k] == a[i];
      assert RegsOf(b)[k] == RegOf(a[i]);
    }
  }

  function GrantRegs(grants: seq<Grant>): (r: seq<Reg>)
    ensures |r| == |grants|
  {
    seq(|grants|, i requires 0 <= i < |grants| => grants[i].reg)
  }

  lemma GrantRegsWithin(a: seq<Grant>, b: seq<Grant>)
    requires forall g :: g in a ==> g in b
    ensures ToSet(GrantRegs(a)) <= ToSet(GrantRegs(b))
  {
    forall i | 0 <= i < |a| ensures GrantRegs(a)[i] in ToSet(GrantRegs(b)) {
      assert a[i] in b;
      var k :| 0 <= k < |b| && b[k] == a[i];
      assert GrantRegs(b)[k] == a[i].reg;
    }
  }

  lemma RegsOfConcat(a: seq<MinerEvaluation>, b: seq<MinerEvaluation>)
    ensures RegsOf(a + b) == RegsOf(a) + RegsOf(b)
  {
  }

  lemma ToSetConcat(a: seq<Reg>, b: seq<Reg>)
    ensures ToSet(a + b) == ToSet(a) + ToSet(b)
  {
  }

  // ---- Grading the reveal -------------------------------------------------------------------

  /** Who leads the grading of this grant's submission. */
  function LeaderOf(grants: seq<Grant>, grant: Grant): Reg {
    var leader := Leader(grants, grant.artifact.sha256);
    if leader.Some? then leader.value.reg else grant.reg
  }

  /** Grading once per digest: what each grant meets is what the first grant with its digest meets. */
  function Shared(grants: seq<Grant>, grading: Reg -> GradeWorld): Grant -> GradeWorld {
    (grant: Grant) => grading(LeaderOf(grants, grant))
  }

  /** What one grant's miner is told when its submission is graded under `world`. */
  function OwnVerdict(ctx: Context, grant: Grant, world: Grant -> GradeWorld): MinerEvaluation
    requires world(grant).evaluated.Ran?
  {
    Evaluation(ctx, grant, world(grant).evaluated.result, world(grant).durationMs)
  }

  ghost predicate AllSound(grants: seq<Grant>, world: Grant -> GradeWorld) {
    forall g :: g in grants ==> SoundGrading(world(g))
  }

  /** Exactly the rejections and each grant's verdict. */
  ghost predicate RecordsVerdicts(evaluations: seq<MinerEvaluation>, ctx: Context, revealed: Reveal,
      world: Grant -> GradeWorld)
    requires AllSound(revealed.grants, world)
  {
    forall e :: e in evaluations <==>
      (exists f :: f in revealed.failures && e == RejectedAtCommit(ctx, f))
      || (exists g :: g in revealed.grants && e == OwnVerdict(ctx, g, world))
  }

  /** A rejection at commit, or a grant's verdict under a world in which its grading ran. */
  ghost predicate OnRecord(e: MinerEvaluation, ctx: Context, revealed: Reveal, world: Grant -> GradeWorld) {
    || (exists f :: f in revealed.failures && e == RejectedAtCommit(ctx, f))
    || (exists g :: g in revealed.grants && world(g).evaluated.Ran? && e == OwnVerdict(ctx, g, world))
  }

  /** The groups are the grants, some way or other. */
  ghost predicate Partition(groups: seq<seq<Grant>>, grants: seq<Grant>) {
    && (forall k :: 0 <= k < |groups| ==> groups[k] != [])
    && |Flatten(groups)| == |grants|
    && forall g :: g in Flatten(groups) <==> g in grants
  }

  /** Everyone in a group meets the same. */
  ghost predicate Uniform(groups: seq<seq<Grant>>, world: Grant -> GradeWorld) {
    forall k, i :: 0 <= k < |groups| && 0 <= i < |groups[k]| ==> world(groups[k][i]) == world(groups[k][0])
  }

  function WorldsOf(groups: seq<seq<Grant>>, world: Grant -> GradeWorld): (r: seq<GradeWorld>)
    requires forall k :: 0 <= k < |groups| ==> groups[k] != []
    ensures |r| == |groups|
  {
    seq(|groups|, k requires 0 <= k < |groups| => world(groups[k][0]))
  }

  function PlanFor(ctx: Context, groups: seq<seq<Grant>>, world: Grant -> GradeWorld, slots: nat): Plan
    requires forall k :: 0 <= k < |groups| ==> groups[k] != []
  {
    Plan(ctx, groups, WorldsOf(groups, world), slots)
  }

  /** The tasks the code starts: each group's first grant leads it. */
  function LeadersPlan(ctx: Context, groups: seq<seq<Grant>>, grading: Reg -> GradeWorld, slots: nat): Plan
    requires forall k :: 0 <= k < |groups| ==> groups[k] != []
  {
    Plan(ctx, groups, seq(|groups|, k requires 0 <= k < |groups| => grading(groups[k][0].reg)), slots)
  }

  lemma DigestGroups(ctx: Context, grants: seq<Grant>, grading: Reg -> GradeWorld, slots: nat)
    ensures Partition(Groups(grants), grants) && Uniform(Groups(grants), Shared(grants, grading))
    ensures LeadersPlan(ctx, Groups(grants), grading, slots)
        == PlanFor(ctx, Groups(grants), Shared(grants, grading), slots)
  {
    var groups: seq<seq<Grant>> := Groups(grants);
    var world := Shared(grants, grading);
    GroupsPartition(grants);
    GroupsHaveLeaders(grants);
    hide Groups, Leader, Flatten;
    forall k | 0 <= k < |groups|
      ensures world(groups[k][0]) == grading(groups[k][0].reg)
      ensures forall i :: 0 <= i < |groups[k]| ==> world(groups[k][i]) == world(groups[k][0])
    {
      var first := groups[k][0];
      assert Leader(grants, first.artifact.sha256) == Some(first);
      forall i | 0 <= i < |groups[k]| ensures world(groups[k][i]) == grading(first.reg) {
        assert groups[k][i].artifact.sha256 == first.artifact.sha256;
        assert LeaderOf(grants, groups[k][i]) == first.reg;
      }
    }
    assert LeadersPlan(ctx, groups, grading, slots).worlds == WorldsOf(groups, world);
  }

  /** A sound world for every group is a sound world for every grant. */
  lemma GroupsAreSound(groups: seq<seq<Grant>>, grants: seq<Grant>, world: Grant -> GradeWorld)
    requires Partition(groups, grants) && Uniform(groups, world)
    ensures var worlds := WorldsOf(groups, world);
            (forall k :: 0 <= k < |worlds| ==> SoundGrading(worlds[k])) <==> AllSound(grants, world)
  {
    var worlds := WorldsOf(groups, world);
    FlattenMembers(groups);
    hide SoundGrading, Flatten;
    if forall k :: 0 <= k < |worlds| ==> SoundGrading(worlds[k]) {
      forall g | g in grants ensures SoundGrading(world(g)) {
        assert g in Flatten(groups);
        var k :| 0 <= k < |groups| && g in groups[k];
        var i :| 0 <= i < |groups[k]| && groups[k][i] == g;
        assert world(groups[k][i]) == world(groups[k][0]);
        assert SoundGrading(worlds[k]);
      }
    }
    if AllSound(grants, world) {
      forall k | 0 <= k < |worlds| ensures SoundGrading(worlds[k]) {
        assert groups[k][0] in groups[k];
        assert groups[k][0] in Flatten(groups);
      }
    }
  }

  /** The list holds, in order, the verdict of each grant of the group. */
  ghost predicate VerdictsOf(ctx: Context, group: seq<Grant>, list: seq<MinerEvaluation>, world: Grant -> GradeWorld) {
    && |list| == |group|
    && forall i :: 0 <= i < |group| ==> world(group[i]).evaluated.Ran? && list[i] == OwnVerdict(ctx, group[i], world)
  }

  lemma {:induction false} FlattenVerdicts(ctx: Context, groups: seq<seq<Grant>>, lists: seq<seq<MinerEvaluation>>,
      world: Grant -> GradeWorld)
    requires |lists| == |groups|
    requires forall k :: 0 <= k < |groups| ==> VerdictsOf(ctx, groups[k], lists[k], world)
    ensures VerdictsOf(ctx, Flatten(groups), Flatten(lists), world)
  {
    if groups != [] {
      var n := |groups| - 1;
      FlattenVerdicts(ctx, groups[..n], lists[..n], world);
      var a, b, c, d := Flatten(lists[..n]), lists[n], Flatten(groups[..n]), groups[n];
      assert Flatten(lists) == a + b && Flatten(groups) == c + d;
      assert VerdictsOf(ctx, d, b, world);
    }
  }

  lemma GradedLists(ctx: Context, groups: seq<seq<Grant>>, grants: seq<Grant>, world: Grant -> GradeWorld, slots: nat)
    requires Partition(groups, grants) && Uniform(groups, world) && AllSound(grants, world)
    ensures VerdictsOf(ctx, Flatten(groups), Flatten(ProducedBy(AllGraded(PlanFor(ctx, groups, world, slots)))), world)
  {
    var p := PlanFor(ctx, groups, world, slots);
    var lists := ProducedBy(AllGraded(p));
    GroupsAreSound(groups, grants, world);
    hide Flatten;
    forall k | 0 <= k < |groups| ensures VerdictsOf(ctx, groups[k], lists[k], world) {
      assert SoundGrading(p.worlds[k]);
      assert lists[k] == Verdicts(ctx, groups[k], p.worlds[k].evaluated.result, p.worlds[k].durationMs);
      forall i | 0 <= i < |groups[k]|
        ensures world(groups[k][i]).evaluated.Ran? && lists[k][i] == OwnVerdict(ctx, groups[k][i], world)
      {
        assert world(groups[k][i]) == world(groups[k][0]);
      }
    }
    FlattenVerdicts(ctx, groups, lists, world);
  }

  /** Rejections plus the graded groups cover the reveal exactly. */
  lemma GradedCoversReveal(ctx: Context, groups: seq<seq<Grant>>, revealed: Reveal, world: Grant -> GradeWorld,
      graded: seq<MinerEvaluation>)
    requires Partition(groups, revealed.grants) && VerdictsOf(ctx, Flatten(groups), graded, world)
    ensures var evaluations := Rejections(ctx, revealed.failures) + graded;
            && |evaluations| == |ResultRegs(revealed)|
            && ToSet(RegsOf(evaluations)) == ToSet(ResultRegs(revealed))
  {
    var rejected := Rejections(ctx, revealed.failures);
    var grants, flat := revealed.grants, Flatten(groups);
    assert ToSet(GrantRegs(flat)) == ToSet(GrantRegs(grants)) by {
      GrantRegsWithin(flat, grants);
      GrantRegsWithin(grants, flat);
    }
    assert RegsOf(graded) == GrantRegs(flat);
    var r := RegsOf(rejected);
    assert ResultRegs(revealed) == GrantRegs(grants) + r;
    hide Flatten, GrantRegs, Rejections, ResultRegs, VerdictsOf, Partition;
    RegsOfConcat(rejected, graded);
    hide RegsOf;
    ToSetConcat(r, RegsOf(graded));
    ToSetConcat(GrantRegs(grants), r);
  }

  lemma VerdictMembers(ctx: Context, group: seq<Grant>, list: seq<MinerEvaluation>, world: Grant -> GradeWorld,
      e: MinerEvaluation)
    requires VerdictsOf(ctx, group, list, world)
    ensures e in list <==> exists g :: g in group && world(g).evaluated.Ran? && e == OwnVerdict(ctx, g, world)
  {
    if e in list {
      var i :| 0 <= i < |list| && list[i] == e;
      assert group[i] in group;
    }
    if g :| g in group && world(g).evaluated.Ran? && e == OwnVerdict(ctx, g, world) {
      var i :| 0 <= i < |group| && group[i] == g;
      assert list[i] == e;
    }
  }

  /** However the grants were grouped, every miner gets its own submission's verdict, with its own
      latency and trajectory. */
  lemma VerdictsAreRecorded(ctx: Context, groups: seq<seq<Grant>>, revealed: Reveal, world: Grant -> GradeWorld,
      graded: seq<MinerEvaluation>)
    requires AllSound(revealed.grants, world)
    requires Partition(groups, revealed.grants) && VerdictsOf(ctx, Flatten(groups), graded, world)
    ensures RecordsVerdicts(Rejections(ctx, revealed.failures) + graded, ctx, revealed, world)
  {
    var rejected := Rejections(ctx, revealed.failures);
    forall e ensures e in graded <==> exists g :: g in revealed.grants && e == OwnVerdict(ctx, g, world) {
      VerdictMembers(ctx, Flatten(groups), graded, world, e);
      hide VerdictsOf, OwnVerdict;
    }
    hide VerdictsOf, Partition, OwnVerdict;
    forall e ensures e in rejected <==> exists f :: f in revealed.failures && e == RejectedAtCommit(ctx, f) {
      if e in rejected {
        var i :| 0 <= i < |rejected| && rejected[i] == e;
        assert revealed.failures[i] in revealed.failures;
      }
      if f :| f in revealed.failures && e == RejectedAtCommit(ctx, f) {
        var i :| 0 <= i < |revealed.failures| && revealed.failures[i] == f;
        assert rejected[i] == e;
      }
    }
  }

  /** Whatever ran is on record, even when the round is abandoned. */
  lemma ProducedIsOnRecord(ctx: Context, revealed: Reveal, grading: Reg -> GradeWorld, slots: nat,
      outcomes: seq<TaskOutcome>, e: MinerEvaluation)
    requires var p := LeadersPlan(ctx, Groups(revealed.grants), grading, slots);
             && |outcomes| == |p.groups|
             && forall i :: 0 <= i < |outcomes| ==>
                  outcomes[i].NotStarted? || outcomes[i] == GradeOnce(ctx, p.groups[i], p.worlds[i])
    requires e in Rejections(ctx, revealed.failures) + Flatten(ProducedBy(outcomes))
    ensures OnRecord(e, ctx, revealed, Shared(revealed.grants, grading))
  {
    var rejected, lists := Rejections(ctx, revealed.failures), ProducedBy(outcomes);
    if e in rejected {
      var i :| 0 <= i < |rejected| && rejected[i] == e;
      assert revealed.failures[i] in revealed.failures;
    } else {
      FlattenMembers(lists);
      hide Groups, Shared, LeadersPlan, Flatten, GradeOnce;
      var k :| 0 <= k < |lists| && e in lists[k];
      assert outcomes[k] != NotStarted;
      LeaderProduced(ctx, revealed, grading, slots, k, e);
    }
  }

  lemma LeaderProduced(ctx: Context, revealed: Reveal, grading: Reg -> GradeWorld, slots: nat, k: nat,
      e: MinerEvaluation)
    requires var p := LeadersPlan(ctx, Groups(revealed.grants), grading, slots);
             k < |p.groups| && e in Produced(GradeOnce(ctx, p.groups[k], p.worlds[k]))
    ensures OnRecord(e, ctx, revealed, Shared(revealed.grants, grading))
  {
    var groups, world := Groups(revealed.grants), Shared(revealed.grants, grading);
    DigestGroups(ctx, revealed.grants, grading, slots);
    FlattenMembers(groups);
    hide Groups, Shared, Flatten;
    var w := world(groups[k][0]);
    var list := Verdicts(ctx, groups[k], w.evaluated.result, w.durationMs);
    var i :| 0 <= i < |list| && list[i] == e;
    assert groups[k][i] in groups[k] && groups[k][i] in Flatten(groups);
    assert world(groups[k][i]) == world(groups[k][0]);
  }

  /** A fault that leaves the round comes from the grading some grant leads. */
  lemma RaisedByALeader(ctx: Context, grants: seq<Grant>, grading: Reg -> GradeWorld, slots: nat, k: nat)
    requires var p := LeadersPlan(ctx, Groups(grants), grading, slots);
             k < |p.groups| && GradeOnce(ctx, p.groups[k], p.worlds[k]) == Raised(false)
    ensures exists g :: g in grants && grading(g.reg).evaluated == EvaluationRaised(false)
  {
    var groups := Groups(grants);
    DigestGroups(ctx, grants, grading, slots);
    FlattenMembers(groups);
    hide Groups, Flatten;
    assert groups[k][0] in groups[k] && groups[k][0] in Flatten(groups);
  }

  /** The tasks the code starts, all sound or not. */
  lemma LeadersAreSound(ctx: Context, grants: seq<Grant>, grading: Reg -> GradeWorld, slots: nat)
    ensures var p := LeadersPlan(ctx, Groups(grants), grading, slots);
            (forall k :: 0 <= k < |p.worlds| ==> SoundGrading(p.worlds[k])) <==>
                AllSound(grants, Shared(grants, grading))
  {
    DigestGroups(ctx, grants, grading, slots);
    hide Groups, Shared, SoundGrading, Partition, Uniform, LeadersPlan;
    GroupsAreSound(Groups(grants), grants, Shared(grants, grading));
  }

  /** What the tasks the code starts return when all are sound, with the rejections. */
  lemma LeadersGradeAll(ctx: Context, revealed: Reveal, grading: Reg -> GradeWorld, slots: nat)
    requires AllSound(revealed.grants, Shared(revealed.grants, grading))
    ensures var p := LeadersPlan(ctx, Groups(revealed.grants), grading, slots);
            var evaluations := Rejections(ctx, revealed.failures) + Flatten(ProducedBy(AllGraded(p)));
            && |evaluations| == |ResultRegs(revealed)|
            && ToSet(RegsOf(evaluations)) == ToSet(ResultRegs(revealed))
            && RecordsVerdicts(evaluations, ctx, revealed, Shared(revealed.grants, grading))
  {
    var groups, world := Groups(revealed.grants), Shared(revealed.grants, grading);
    DigestGroups(ctx, revealed.grants, grading, slots);
    hide Groups, Shared, SoundGrading, Partition, Uniform, LeadersPlan, VerdictsOf, AllSound, RecordsVerdicts;
    GradedLists(ctx, groups, revealed.grants, world, slots);
    var graded := Flatten(ProducedBy(AllGraded(PlanFor(ctx, groups, world, slots))));
    hide ProducedBy, Rejections, PlanFor;
    GradedCoversReveal(ctx, groups, revealed, world, graded);
    VerdictsAreRecorded(ctx, groups, revealed, world, graded);
  }

  /** From the checked grants to the result. */
  method GradeReveal(ctx: Context, revealed: Reveal, grading: Reg -> GradeWorld, concurrency: nat)
      returns (r: RoundResult)
    requires concurrency >= 1 && Distinct(ResultRegs(revealed))
    ensures r.Completed? <==> AllSound(revealed.grants, Shared(revealed.grants, grading))
    ensures r.Completed? ==> OnePerSlot(r.evaluations, ToSet(ResultRegs(revealed)))
    ensures r.Completed? ==> RecordsVerdicts(r.evaluations, ctx, revealed, Shared(revealed.grants, grading))
    ensures !r.Completed? ==> r.Propagated? || (r.RoundAbandoned? && r.code == GradingFault)
    ensures r.Propagated? ==> exists g :: g in revealed.grants && grading(g.reg).evaluated == EvaluationRaised(false)
    ensures r.RoundAbandoned? ==>
        && (forall e :: e in Rejections(ctx, revealed.failures) ==> e in r.diagnostics)
        && forall e :: e in r.diagnostics ==> OnRecord(e, ctx, revealed, Shared(revealed.grants, grading))
  {
    var rejected := Rejections(ctx, revealed.failures);
    var groups := GroupGrants(revealed.grants);
    var p := LeadersPlan(ctx, groups, grading, concurrency);
    assert ValidPlan(p);
    LeadersAreSound(ctx, revealed.grants, grading, concurrency);
    hide Groups, SoundGrading, AllGraded, LeadersPlan, Shared, AllSound, ProducedBy, Rejections;
    var outcomes := RunGrading(p);
    var evaluations, fault := Collect(rejected, outcomes);
    forall e | e in evaluations ensures OnRecord(e, ctx, revealed, Shared(revealed.grants, grading)) {
      ProducedIsOnRecord(ctx, revealed, grading, concurrency, outcomes, e);
    }
    hide OnRecord, GradeOnce, Flatten, Sort, ByUid, ToSet, ResultRegs, RecordsVerdicts, OnePerSlot;
    SortMembers(evaluations, UidLeq);
    if fault.Some? {
      match fault.value {
        case Abandon(_) => return RoundAbandoned(GradingFault, Sort(evaluations, UidLeq));
        case Raised(isException) =>
          if isException {
            return RoundAbandoned(GradingFault, Sort(evaluations, UidLeq));
          }
          ghost var k :| 0 <= k < |outcomes| && outcomes[k] == fault.value;
          RaisedByALeader(ctx, revealed.grants, grading, concurrency, k);
          return Propagated;
      }
    }
    LeadersGradeAll(ctx, revealed, grading, concurrency);
    CoveringIsExact(evaluations, ResultRegs(revealed));
    return Completed(Sort(evaluations, UidLeq));
  }

  // ---- The whole round ------------------------------------------------------------------------

  const CANDIDATE_LIMIT: nat := 256

  /** The miners this round must be about: the first N offered. */
  function Front(offered: seq<Reg>, policy: Policy): seq<Reg> {
    offered[..Min(policy.minersPerTask, |offered|)]
  }

  function Answered(regs: set<Reg>, reply: Reg -> Reply): set<Reg> {
    set reg | reg in regs && Signed(reply(reg)).Some?
  }

  /** The request's own constructor takes it. */
  ghost predicate Sendable(offered: seq<Reg>, policy: Policy) {
    |offered| <= CANDIDATE_LIMIT && policy.minersPerTask <= CANDIDATE_LIMIT && NoDup(SlotUids(offered))
  }

  ghost predicate WellFormedLease(lease: Lease) {
    lease.slots != [] && 0 < lease.quorum <= |lease.slots| && Distinct(lease.slots)
  }

  /** The round reaches dispatch: the lease is for exactly the front of the offer, under the
      released terms, and the workspace is ready in time. */
  ghost predicate Dispatched(offered: seq<Reg>, policy: Policy, w: World) {
    && offered != [] && Sendable(offered, policy)
    && w.lease.Some? && WellFormedLease(w.lease.value)
    && ToSet(w.lease.value.slots) == ToSet(Front(offered, policy))
    && w.lease.value.quorum == policy.commitQuorum
    && w.lease.value.expiresAt as real - w.clockAtLease >= policy.minLeaseS as real
    && w.lease.value.profile == policy.profile
    && w.lease.value.verifierPolicy == policy.verifierPolicy
    && w.workspaceReady
    && w.lease.value.expiresAt as real - w.clockAtDispatch >= policy.minLeaseS as real
  }

  /** What really happened when a round is abandoned under a code. */
  ghost predicate Happened(code: Code, offered: seq<Reg>, policy: Policy, w: World)
    requires w.lease.Some?
  {
    var lease := w.lease.value;
    match code
    case SlotPoolMismatch => exists reg :: (reg in lease.slots) != (reg in Front(offered, policy))
    case LeaseQuorumMismatch => lease.quorum != policy.commitQuorum
    case LeaseTooShort =>
      || lease.expiresAt as real < w.clockAtLease + policy.minLeaseS as real
      || lease.expiresAt as real < w.clockAtDispatch + policy.minLeaseS as real
    case UnsupportedProfile => lease.profile != policy.profile
    case UnsupportedVerifierPolicy => lease.verifierPolicy != policy.verifierPolicy
    case WorkspaceFault => !w.workspaceReady
    case QuorumNotMet => |Answered(ToSet(Front(offered, policy)), w.reply)| < policy.commitQuorum
    case CommitFailed => w.commit.NoReply? || (w.commit.Revealed? && !Distinct(ResultRegs(w.commit.revealed)))
    case ValidatorError => w.commit.CommitRaised?
    case RevealMismatch =>
      && w.commit.Revealed?
      && var revealed := w.commit.revealed;
      && (|| revealed.challengeId != lease.challengeId || revealed.taskId != lease.taskId
          || revealed.verifierSha != lease.verifierSha || revealed.verifierPolicy != lease.verifierPolicy
          || exists reg :: (reg in ResultRegs(revealed)) != (reg in lease.slots))
    case GradingExpired => w.commit.Revealed? && w.commit.revealed.gradingExpiresAt <= w.clockAtReveal
    case VerifierFault => !w.verifierReady
    case SubmissionFormatMismatch =>
      w.commit.Revealed? && exists g :: g in w.commit.revealed.grants && g.artifact.format != lease.format
    case SubmissionGrantMismatch =>
      && w.commit.Revealed?
      && exists g :: g in w.commit.revealed.grants && !SignedFor(g, w.reply(g.reg))
    case GradingFault =>
      && w.commit.Revealed?
      && exists i: nat :: IsFirst(w.commit.revealed.grants, i)
                          && !SoundGrading(w.grading(w.commit.revealed.grants[i].reg))
  }

  /** The miner answered, in time, with a signed response for exactly this artifact. */
  predicate SignedFor(g: Grant, reply: Reply) {
    reply.Replied? && reply.response.Some? && reply.response.value.submission == g.artifact
  }

  method AcceptLease(offered: seq<Reg>, policy: Policy, w: World) returns (refusal: Option<RoundResult>)
    requires ValidPolicy(policy)
    ensures refusal.None? <==> Dispatched(offered, policy, w)
    ensures refusal.Some? && refusal.value.Unavailable? && offered != [] ==> refusal.value.retryAfter == w.retryAfter
    ensures refusal.Some? && refusal.value.Unavailable? <==>
              offered == [] || (Sendable(offered, policy) && (w.lease.None? || !WellFormedLease(w.lease.value)))
    ensures refusal.Some? && refusal.value.Propagated? <==> offered != [] && !Sendable(offered, policy)
    ensures refusal.Some? ==> !refusal.value.Completed?
    ensures refusal.Some? && refusal.value.RoundAbandoned? ==>
              && refusal.value.code != QuorumNotMet && refusal.value.diagnostics == []
              && w.lease.Some? && Happened(refusal.value.code, offered, policy, w)
  {
    if offered == [] {
      return Some(Unavailable(None));
    }
    CardIffNoDup(SlotUids(offered));
    if |offered| > CANDIDATE_LIMIT || policy.minersPerTask > CANDIDATE_LIMIT
        || |ToSet(SlotUids(offered))| != |offered| {
      return Some(Propagated);
    }
    if w.lease.None? {
      return Some(Unavailable(w.retryAfter));
    }
    var lease := w.lease.value;
    var unique := UniqueSlots(lease.slots);
    if lease.slots == [] || lease.quorum == 0 || lease.quorum > |lease.slots| || !unique {
      return Some(Unavailable(w.retryAfter));
    }
    var pool := ToSet(lease.slots);
    var expected := Min(policy.minersPerTask, |offered|);
    FrontIsDistinct(offered, policy);
    if |pool| != expected || pool != ToSet(offered[..expected]) {
      PoolsDiffer(lease.slots, Front(offered, policy));
      return Some(RoundAbandoned(SlotPoolMismatch, []));
    }
    if lease.quorum != policy.commitQuorum {
      return Some(RoundAbandoned(LeaseQuorumMismatch, []));
    }
    if lease.expiresAt as real - w.clockAtLease < policy.minLeaseS as real {
      return Some(RoundAbandoned(LeaseTooShort, []));
    }
    if lease.profile != policy.profile {
      return Some(RoundAbandoned(UnsupportedProfile, []));
    }
    if lease.verifierPolicy != policy.verifierPolicy {
      return Some(RoundAbandoned(UnsupportedVerifierPolicy, []));
    }
    if !w.workspaceReady {
      return Some(RoundAbandoned(WorkspaceFault, []));
    }
    if lease.expiresAt as real - w.clockAtDispatch < policy.minLeaseS as real {
      return Some(RoundAbandoned(LeaseTooShort, []));
    }
    return None;
  }

  lemma PoolsDiffer(a: seq<Reg>, b: seq<Reg>)
    ensures ToSet(a) != ToSet(b) ==> exists reg :: (reg in a) != (reg in b)
  {
    if forall reg :: (reg in a) == (reg in b) {
      assert ToSet(a) == ToSet(b);
    }
  }

  lemma FrontIsDistinct(offered: seq<Reg>, policy: Policy)
    requires NoDup(SlotUids(offered))
    ensures |ToSet(Front(offered, policy))| == Min(policy.minersPerTask, |offered|)
  {
    var front := Front(offered, policy);
    forall i, j | 0 <= i < j < |front| ensures front[i] != front[j] {
      assert SlotUids(offered)[i] != SlotUids(offered)[j];
    }
    CardNoDup(front);
  }

  /** Each grant is for the task's format and matches what that miner signed. */
  predicate GrantOk(grant: Grant, format: string, signed: map<Reg, Response>) {
    grant.artifact.format == format
        && GrantMatches(grant, if grant.reg in signed then Some(signed[grant.reg]) else None)
  }

  method CheckGrants(grants: seq<Grant>, format: string, signed: map<Reg, Response>) returns (refusal: Option<Code>)
    ensures refusal.None? <==> forall g :: g in grants ==> GrantOk(g, format, signed)
    ensures refusal.Some? ==> refusal.value in {SubmissionFormatMismatch, SubmissionGrantMismatch}
    ensures refusal == Some(SubmissionFormatMismatch) ==> exists g :: g in grants && g.artifact.format != format
    ensures refusal == Some(SubmissionGrantMismatch) ==>
              exists g :: g in grants && (g.reg in signed ==> signed[g.reg].submission != g.artifact)
  {
    for i := 0 to |grants|
      invariant forall k :: 0 <= k < i ==> GrantOk(grants[k], format, signed)
    {
      assert grants[i] in grants;
      if grants[i].artifact.format != format {
        return Some(SubmissionFormatMismatch);
      }
      if !GrantMatches(grants[i], if grants[i].reg in signed then Some(signed[grants[i].reg]) else None) {
        return Some(SubmissionGrantMismatch);
      }
    }
    return None;
  }

  function Trajectories(signed: map<Reg, Response>): map<Reg, string> {
    map reg | reg in signed :: signed[reg].trajectory
  }

  /** What the validator knows about each miner when it grades. */
  function ContextOf(slots: seq<Reg>, reply: Reg -> Reply): Context {
    Context(LatencyBy(slots, Map(slots, reply)), Trajectories(SignedBy(slots, Map(slots, reply))))
  }

  /** The reveal binds to the lease, is in time, and every grant is what its miner signed. */
  ghost predicate RevealAccepted(w: World) {
    && w.lease.Some? && w.commit.Revealed?
    && var lease, revealed, replies := w.lease.value, w.commit.revealed, Map(w.lease.value.slots, w.reply);
    && Distinct(ResultRegs(revealed))
    && ValidateCommitReveal(lease, Submissions(lease.slots, replies), revealed)
    && revealed.gradingExpiresAt > w.clockAtReveal
    && w.verifierReady
    && forall g :: g in revealed.grants ==> GrantOk(g, lease.format, SignedBy(lease.slots, replies))
  }

  lemma AnsweredAreSigned(slots: seq<Reg>, reply: Reg -> Reply)
    requires NoDup(slots)
    ensures SignedBy(slots, Map(slots, reply)).Keys == Answered(ToSet(slots), reply)
  {
    var replies := Map(slots, reply);
    QuorumCountsAnswers(slots, replies);
    forall reg | reg in ToSet(slots)
      ensures reg in SignedBy(slots, replies) <==> Signed(reply(reg)).Some?
    {
      var i :| 0 <= i < |slots| && slots[i] == reg;
      assert replies[i] == reply(reg);
    }
  }

  lemma {:induction false} LatencyIsOwn(slots: seq<Reg>, replies: seq<Reply>)
    requires |replies| == |slots| && NoDup(slots)
    ensures forall i :: 0 <= i < |slots| ==>
              slots[i] in LatencyBy(slots, replies) && LatencyBy(slots, replies)[slots[i]] == Latency(replies[i])
  {
    if slots != [] {
      var n := |slots| - 1;
      LatencyIsOwn(slots[..n], replies[..n]);
      assert forall i :: 0 <= i < n ==> slots[..n][i] == slots[i] && replies[..n][i] == replies[i];
    }
  }

  /** What is known about a miner is what that miner answered. */
  lemma ContextIsOwn(slots: seq<Reg>, reply: Reg -> Reply, reg: Reg)
    requires NoDup(slots) && reg in slots
    ensures var ctx := ContextOf(slots, reply);
            && reg in ctx.latency && ctx.latency[reg] == Latency(reply(reg))
            && (reg in ctx.trajectory <==> Signed(reply(reg)).Some?)
            && (reg in ctx.trajectory ==> ctx.trajectory[reg] == Signed(reply(reg)).value.trajectory)
  {
    var replies := Map(slots, reply);
    QuorumCountsAnswers(slots, replies);
    LatencyIsOwn(slots, replies);
    var i :| 0 <= i < |slots| && slots[i] == reg;
    assert replies[i] == reply(reg);
  }

  /** A miner whose commit or artifact was refused is told why, and nothing of it was graded. */
  predicate ToldWhy(e: MinerEvaluation, f: Failure) {
    && RegOf(e) == f.reg && e.trajectory.None?
    && e.result == EvaluationResult(Rejected, Miner(f.reason), [], None)
  }

  /** A granted miner is told how the bytes it submitted were graded: by the grading that the
      first grant with its digest leads. Its trajectory is the one it signed. */
  ghost predicate ToldHow(e: MinerEvaluation, g: Grant, grants: seq<Grant>, w: World) {
    && RegOf(e) == g.reg
    && w.reply(g.reg).Replied? && w.reply(g.reg).response.Some?
    && e.trajectory == Some(w.reply(g.reg).response.value.trajectory)
    && exists i: nat :: IsFirst(grants, i) && grants[i].artifact.sha256 == g.artifact.sha256
                        && w.grading(grants[i].reg).evaluated == Ran(e.result)
                        && w.grading(grants[i].reg).durationMs == e.gradingDurationMs
  }

  /** A refused miner is told it was refused and why, a granted one how its own bytes were
      graded, each with its own latency; only a granted miner can have passed. */
  ghost predicate ToldOwn(e: MinerEvaluation, w: World)
    requires w.commit.Revealed?
  {
    var revealed := w.commit.revealed;
    && e.latencyMs == (if w.reply(RegOf(e)).Replied? then w.reply(RegOf(e)).latencyMs else 0)
    && (forall f :: f in revealed.failures && f.reg == RegOf(e) ==> ToldWhy(e, f))
    && (forall g :: g in revealed.grants && g.reg == RegOf(e) ==> ToldHow(e, g, revealed.grants, w))
    && (e.result.status.Passed? ==> exists g :: g in revealed.grants && g.reg == RegOf(e))
  }

  lemma LeaderIsThere(grants: seq<Grant>, g: Grant) returns (i: nat)
    requires g in grants
    ensures IsFirst(grants, i) && grants[i].artifact.sha256 == g.artifact.sha256 && LeaderOf(grants, g) == grants[i].reg
  {
    LeaderIsFound(grants, g.artifact.sha256);
    i := LeaderIsFirst(grants, g.artifact.sha256);
  }

  lemma RejectionIsOwn(f: Failure, slots: seq<Reg>, w: World)
    requires w.commit.Revealed? && NoDup(slots) && f in w.commit.revealed.failures
    requires Distinct(ResultRegs(w.commit.revealed))
    requires ToSet(ResultRegs(w.commit.revealed)) == ToSet(slots)
    ensures var e := RejectedAtCommit(ContextOf(slots, w.reply), f); ToldWhy(e, f) && ToldOwn(e, w)
  {
    FailureIsSlot(w.commit.revealed, slots, f);
    ContextIsOwn(slots, w.reply, f.reg);
    ListedOnce(w.commit.revealed);
    hide Distinct, ResultRegs, ContextOf;
  }

  /** What is on record is what each miner is told of its own submission. */
  lemma RecordIsOwn(e: MinerEvaluation, slots: seq<Reg>, w: World)
    requires w.commit.Revealed? && NoDup(slots) && Distinct(ResultRegs(w.commit.revealed))
    requires ToSet(ResultRegs(w.commit.revealed)) == ToSet(slots)
    requires forall g :: g in w.commit.revealed.grants ==> SignedFor(g, w.reply(g.reg))
    requires OnRecord(e, ContextOf(slots, w.reply), w.commit.revealed, Shared(w.commit.revealed.grants, w.grading))
    ensures ToldOwn(e, w)
  {
    var revealed, ctx := w.commit.revealed, ContextOf(slots, w.reply);
    if f :| f in revealed.failures && e == RejectedAtCommit(ctx, f) {
      RejectionIsOwn(f, slots, w);
    } else {
      var world := Shared(revealed.grants, w.grading);
      var g :| g in revealed.grants && world(g).evaluated.Ran? && e == OwnVerdict(ctx, g, world);
      GrantIsSlot(revealed, slots, g);
      ContextIsOwn(slots, w.reply, g.reg);
      var i := LeaderIsThere(revealed.grants, g);
      ListedOnce(revealed);
      hide ContextOf, IsFirst, Leader, Distinct, ResultRegs;
      assert ToldHow(e, g, revealed.grants, w);
    }
  }

  lemma GrantIsSlot(revealed: Reveal, slots: seq<Reg>, g: Grant)
    requires ToSet(ResultRegs(revealed)) == ToSet(slots) && g in revealed.grants
    ensures g.reg in slots
  {
    var i :| 0 <= i < |revealed.grants| && revealed.grants[i] == g;
    assert ResultRegs(revealed)[i] == g.reg;
    assert g.reg in ToSet(slots);
  }

  lemma FailureIsSlot(revealed: Reveal, slots: seq<Reg>, f: Failure)
    requires ToSet(ResultRegs(revealed)) == ToSet(slots) && f in revealed.failures
    ensures f.reg in slots
  {
    var i :| 0 <= i < |revealed.failures| && revealed.failures[i] == f;
    assert ResultRegs(revealed)[|revealed.grants| + i] == f.reg;
    assert f.reg in ToSet(slots);
  }

  lemma ListedOnce(revealed: Reveal)
    requires Distinct(ResultRegs(revealed))
    ensures forall f, g :: f in revealed.failures && g in revealed.failures && f.reg == g.reg ==> f == g
    ensures forall f, g :: f in revealed.grants && g in revealed.grants && f.reg == g.reg ==> f == g
    ensures forall f, g :: f in revealed.failures && g in revealed.grants ==> f.reg != g.reg
  {
    var regs, n := ResultRegs(revealed), |revealed.grants|;
    DistinctSlots(regs);
    assert forall i :: 0 <= i < n ==> regs[i] == revealed.grants[i].reg;
    assert forall i :: 0 <= i < |revealed.failures| ==> regs[n + i] == revealed.failures[i].reg;
  }

  lemma DistinctSlots(slots: seq<Reg>)
    requires Distinct(slots)
    ensures NoDup(slots)
  {
    forall i, j | 0 <= i < j < |slots| ensures slots[i] != slots[j] {
      assert SlotUids(slots)[i] != SlotUids(slots)[j];
    }
  }

  lemma SubmissionsAreSlots(slots: seq<Reg>, replies: seq<Reply>)
    requires |replies| == |slots|
    ensures (set s | s in Submissions(slots, replies) :: s.reg) == ToSet(slots)
  {
    var submissions := Submissions(slots, replies);
    forall reg | reg in ToSet(slots) ensures reg in (set s | s in submissions :: s.reg) {
      var i :| 0 <= i < |slots| && slots[i] == reg;
      assert submissions[i] in submissions;
    }
  }

  lemma ExactlyThese(evaluations: seq<MinerEvaluation>, pool: set<Reg>)
    requires OnePerSlot(evaluations, pool)
    ensures ToSet(RegsOf(evaluations)) == pool
  {
  }

  /** The reveal is for the leased task, and every grant is for what its miner signed. */
  ghost predicate Binds(w: World) {
    && w.lease.Some? && w.commit.Revealed?
    && var lease, revealed := w.lease.value, w.commit.revealed;
    && revealed.challengeId == lease.challengeId && revealed.taskId == lease.taskId
    && revealed.verifierSha == lease.verifierSha && revealed.verifierPolicy == lease.verifierPolicy
    && (forall reg :: reg in ResultRegs(revealed) <==> reg in lease.slots)
    && forall g :: g in revealed.grants ==> SignedFor(g, w.reply(g.reg)) && g.artifact.format == lease.format
  }

  /** Nothing on the validator's side went wrong while the submissions were graded: each digest's
      upload was there, in time and stored, its scratch space was cleaned, and the evaluation came to
      a verdict. */
  ghost predicate GradedCleanly(w: World) {
    && w.commit.Revealed?
    && forall i: nat :: IsFirst(w.commit.revealed.grants, i) ==>
         var g := w.grading(w.commit.revealed.grants[i].reg);
         && g.downloaded && !g.expired && g.storage && g.materialized && g.cleaned
         && g.evaluated.Ran? && g.evaluated.result.status in {Passed, Failed, Rejected}
  }

  lemma SoundIsClean(w: World)
    requires w.commit.Revealed?
    ensures var grants := w.commit.revealed.grants; AllSound(grants, Shared(grants, w.grading)) <==> GradedCleanly(w)
  {
    var grants := w.commit.revealed.grants;
    if GradedCleanly(w) {
      forall g | g in grants ensures SoundGrading(Shared(grants, w.grading)(g)) {
        var i := LeaderIsThere(grants, g);
      }
    }
    if AllSound(grants, Shared(grants, w.grading)) {
      forall i: nat | IsFirst(grants, i) ensures SoundGrading(w.grading(grants[i].reg)) {
        FirstLeads(grants, i);
        assert grants[i] in grants;
      }
    }
  }

  lemma FirstLeads(grants: seq<Grant>, i: nat)
    requires IsFirst(grants, i)
    ensures LeaderOf(grants, grants[i]) == grants[i].reg
  {
    var sha256 := grants[i].artifact.sha256;
    assert grants[i] in grants;
    LeaderIsFound(grants, sha256);
    var k := LeaderIsFirst(grants, sha256);
    assert k == i;
  }

  lemma AcceptedBinds(w: World)
    requires RevealAccepted(w) && NoDup(w.lease.value.slots)
    ensures Binds(w) && ToSet(ResultRegs(w.commit.revealed)) == ToSet(w.lease.value.slots)
  {
    var slots := w.lease.value.slots;
    SubmissionsAreSlots(slots, Map(slots, w.reply));
    GrantsAreSigned(w);
    forall reg ensures reg in ResultRegs(w.commit.revealed) <==> reg in slots {
      assert reg in ToSet(ResultRegs(w.commit.revealed)) <==> reg in ToSet(slots);
    }
  }

  lemma GrantsAreSigned(w: World)
    requires RevealAccepted(w) && NoDup(w.lease.value.slots)
    requires ToSet(ResultRegs(w.commit.revealed)) == ToSet(w.lease.value.slots)
    ensures forall g :: g in w.commit.revealed.grants ==>
              SignedFor(g, w.reply(g.reg)) && g.artifact.format == w.lease.value.format
  {
    var slots, revealed := w.lease.value.slots, w.commit.revealed;
    forall g | g in revealed.grants ensures SignedFor(g, w.reply(g.reg)) && g.artifact.format == w.lease.value.format {
      GrantIsSlot(revealed, slots, g);
      SignatureIsOwn(slots, w.reply, g.reg);
      assert GrantOk(g, w.lease.value.format, SignedBy(slots, Map(slots, w.reply)));
    }
  }

  lemma SignatureIsOwn(slots: seq<Reg>, reply: Reg -> Reply, reg: Reg)
    requires NoDup(slots) && reg in slots
    ensures var signed := SignedBy(slots, Map(slots, reply));
            && (reg in signed <==> Signed(reply(reg)).Some?)
            && (reg in signed ==> signed[reg] == Signed(reply(reg)).value)
  {
    QuorumCountsAnswers(slots, Map(slots, reply));
    var i :| 0 <= i < |slots| && slots[i] == reg;
    assert Map(slots, reply)[i] == reply(reg);
  }

  /** An abandoned round names something that happened, and what it reports so far is each miner's
      own, every refused miner included. */
  ghost predicate AbandonedForCause(r: RoundResult, offered: seq<Reg>, policy: Policy, w: World)
    requires r.RoundAbandoned?
  {
    && w.lease.Some? && Happened(r.code, offered, policy, w)
    && (r.diagnostics != [] ==>
          && w.commit.Revealed?
          && (forall e :: e in r.diagnostics ==> ToldOwn(e, w))
          && forall f :: f in w.commit.revealed.failures ==> exists e :: e in r.diagnostics && ToldWhy(e, f))
  }

  lemma RejectionsForCause(slots: seq<Reg>, w: World, evaluations: seq<MinerEvaluation>)
    requires w.commit.Revealed? && NoDup(slots) && Distinct(ResultRegs(w.commit.revealed))
    requires ToSet(ResultRegs(w.commit.revealed)) == ToSet(slots)
    requires forall e :: e in Rejections(ContextOf(slots, w.reply), w.commit.revealed.failures) ==> e in evaluations
    ensures forall f :: f in w.commit.revealed.failures ==> exists e :: e in evaluations && ToldWhy(e, f)
  {
    var ctx, failures := ContextOf(slots, w.reply), w.commit.revealed.failures;
    forall f | f in failures ensures exists e :: e in evaluations && ToldWhy(e, f) {
      var i :| 0 <= i < |failures| && failures[i] == f;
      assert Rejections(ctx, failures)[i] in Rejections(ctx, failures);
      RejectionIsOwn(f, slots, w);
    }
  }

  lemma RejectionsAreOwn(slots: seq<Reg>, w: World)
    requires w.commit.Revealed? && NoDup(slots) && Distinct(ResultRegs(w.commit.revealed))
    requires ToSet(ResultRegs(w.commit.revealed)) == ToSet(slots)
    ensures forall e :: e in Rejections(ContextOf(slots, w.reply), w.commit.revealed.failures) ==> ToldOwn(e, w)
  {
    var ctx, failures := ContextOf(slots, w.reply), w.commit.revealed.failures;
    forall e | e in Rejections(ctx, failures) ensures ToldOwn(e, w) {
      var i :| 0 <= i < |failures| && Rejections(ctx, failures)[i] == e;
      assert failures[i] in failures;
      RejectionIsOwn(failures[i], slots, w);
    }
  }

  /** The grant check failed for a reason. */
  lemma GrantFault(code: Code, offered: seq<Reg>, policy: Policy, w: World)
    requires w.lease.Some? && w.commit.Revealed? && NoDup(w.lease.value.slots)
    requires ToSet(ResultRegs(w.commit.revealed)) == ToSet(w.lease.value.slots)
    requires code in {SubmissionFormatMismatch, SubmissionGrantMismatch}
    requires var signed := SignedBy(w.lease.value.slots, Map(w.lease.value.slots, w.reply));
             exists g :: g in w.commit.revealed.grants
                         && if code.SubmissionFormatMismatch? then g.artifact.format != w.lease.value.format
                            else g.reg in signed ==> signed[g.reg].submission != g.artifact
    ensures Happened(code, offered, policy, w)
  {
    var slots, revealed := w.lease.value.slots, w.commit.revealed;
    var signed := SignedBy(slots, Map(slots, w.reply));
    if code.SubmissionGrantMismatch? {
      var g :| g in revealed.grants && (g.reg in signed ==> signed[g.reg].submission != g.artifact);
      GrantIsSlot(revealed, slots, g);
      SignatureIsOwn(slots, w.reply, g.reg);
    }
  }

  /** Some leading grading was not sound. */
  lemma GradingFaultHappened(offered: seq<Reg>, policy: Policy, w: World)
    requires w.lease.Some? && w.commit.Revealed?
    requires !AllSound(w.commit.revealed.grants, Shared(w.commit.revealed.grants, w.grading))
    ensures Happened(GradingFault, offered, policy, w)
  {
    var grants := w.commit.revealed.grants;
    var g :| g in grants && !SoundGrading(Shared(grants, w.grading)(g));
    var i := LeaderIsThere(grants, g);
  }

  /** From the reveal to the result. */
  method JudgeReveal(w: World, submissions: seq<Submission>, signed: map<Reg, Response>, latency: map<Reg, nat>,
                     concurrency: nat, ghost offered: seq<Reg>, ghost policy: Policy)
    returns (r: RoundResult)
    requires w.lease.Some? && w.commit.Revealed? && NoDup(w.lease.value.slots) && concurrency >= 1
    requires var slots := w.lease.value.slots;
             && submissions == Submissions(slots, Map(slots, w.reply))
             && signed == SignedBy(slots, Map(slots, w.reply)) && latency == LatencyBy(slots, Map(slots, w.reply))
    ensures var grants, slots := w.commit.revealed.grants, w.lease.value.slots;
            && (r.Completed? <==> RevealAccepted(w) && AllSound(grants, Shared(grants, w.grading)))
            && (r.Completed? ==>
                  && OnePerSlot(r.evaluations, ToSet(slots))
                  && RecordsVerdicts(r.evaluations, ContextOf(slots, w.reply), w.commit.revealed,
                                     Shared(grants, w.grading))
                  && (forall e :: e in r.evaluations ==> ToldOwn(e, w))
                  && Binds(w))
            && (r.Propagated? ==> exists g :: g in grants && w.grading(g.reg).evaluated == EvaluationRaised(false))
    ensures !r.Unavailable?
    ensures r.RoundAbandoned? ==> r.code != QuorumNotMet && AbandonedForCause(r, offered, policy, w)
  {
    var lease, revealed, replies := w.lease.value, w.commit.revealed, Map(w.lease.value.slots, w.reply);
    UniqueResultsIsDistinct(ResultRegs(revealed));
    if !UniqueResults(ResultRegs(revealed)) {
      return RoundAbandoned(CommitFailed, []);
    }
    SubmissionsAreSlots(lease.slots, replies);
    if !ValidateCommitReveal(lease, submissions, revealed) {
      PoolsDiffer(ResultRegs(revealed), lease.slots);
      return RoundAbandoned(RevealMismatch, []);
    }
    if revealed.gradingExpiresAt <= w.clockAtReveal {
      return RoundAbandoned(GradingExpired, []);
    }
    if !w.verifierReady {
      return RoundAbandoned(VerifierFault, []);
    }
    assert ToSet(ResultRegs(revealed)) == ToSet(lease.slots);
    var ctx := Context(latency, Trajectories(signed));
    assert ctx == ContextOf(lease.slots, w.reply);
    RejectionsAreOwn(lease.slots, w);
    var code := CheckGrants(revealed.grants, lease.format, signed);
    if code.Some? {
      SortMembers(Rejections(ctx, revealed.failures), UidLeq);
      r := RoundAbandoned(code.value, Sort(Rejections(ctx, revealed.failures), UidLeq));
      GrantFault(code.value, offered, policy, w);
      RejectionsForCause(lease.slots, w, r.diagnostics);
      return;
    }
    assert RevealAccepted(w);
    AcceptedBinds(w);
    hide RevealAccepted, ContextOf, GrantOk, ValidateCommitReveal, Happened, ToldOwn, ToldWhy, RecordsVerdicts,
      OnRecord, AllSound, Shared, Rejections, OnePerSlot;
    r := GradeReveal(ctx, revealed, w.grading, concurrency);
    JudgedIsOwn(r, lease.slots, w, offered, policy);
    if r.Completed? {
      ExactlyThese(r.evaluations, ToSet(lease.slots));
    }
  }

  lemma JudgedIsOwn(r: RoundResult, slots: seq<Reg>, w: World, offered: seq<Reg>, policy: Policy)
    requires w.lease.Some? && w.commit.Revealed? && NoDup(slots) && Binds(w) && Distinct(ResultRegs(w.commit.revealed))
    requires ToSet(ResultRegs(w.commit.revealed)) == ToSet(slots)
    requires var ctx, world := ContextOf(slots, w.reply), Shared(w.commit.revealed.grants, w.grading);
             && (r.Completed? <==> AllSound(w.commit.revealed.grants, world))
             && (r.Completed? ==> RecordsVerdicts(r.evaluations, ctx, w.commit.revealed, world))
             && (r.RoundAbandoned? ==>
                   && r.code == GradingFault
                   && (forall e :: e in Rejections(ctx, w.commit.revealed.failures) ==> e in r.diagnostics)
                   && forall e :: e in r.diagnostics ==> OnRecord(e, ctx, w.commit.revealed, world))
    ensures r.Completed? ==> forall e :: e in r.evaluations ==> ToldOwn(e, w)
    ensures r.RoundAbandoned? ==> AbandonedForCause(r, offered, policy, w)
  {
    hide ContextOf, Shared, ToldOwn, ToldWhy, Rejections, OwnVerdict, RejectedAtCommit, Happened;
    var ctx, world := ContextOf(slots, w.reply), Shared(w.commit.revealed.grants, w.grading);
    if r.Completed? {
      forall e | e in r.evaluations ensures ToldOwn(e, w) {
        assert OnRecord(e, ctx, w.commit.revealed, world);
        RecordIsOwn(e, slots, w);
      }
    }
    if r.RoundAbandoned? {
      hide OnRecord, AllSound;
      forall e | e in r.diagnostics ensures ToldOwn(e, w) {
        RecordIsOwn(e, slots, w);
      }
      RejectionsForCause(slots, w, r.diagnostics);
      GradingFaultHappened(offered, policy, w);
    }
  }

  lemma HappenedPlainly(offered: seq<Reg>, policy: Policy, w: World)
    requires w.lease.Some?
    ensures |Answered(ToSet(Front(offered, policy)), w.reply)| < policy.commitQuorum ==>
              AbandonedForCause(RoundAbandoned(QuorumNotMet, []), offered, policy, w)
    ensures w.commit.CommitRaised? ==> AbandonedForCause(RoundAbandoned(ValidatorError, []), offered, policy, w)
    ensures w.commit.NoReply? ==> AbandonedForCause(RoundAbandoned(CommitFailed, []), offered, policy, w)
  {
  }

  /** `evaluate_round`. A missed quorum is a fact about the miners in front of the offer: once
      the round was dispatched no lease, reveal, clock or disk can turn it on or off. */
  method EvaluateRound(offered: seq<Reg>, policy: Policy, w: World) returns (r: RoundResult)
    requires ValidPolicy(policy)
    ensures r.Completed? <==>
              && Dispatched(offered, policy, w)
              && |Answered(ToSet(Front(offered, policy)), w.reply)| >= policy.commitQuorum
              && RevealAccepted(w) && GradedCleanly(w)
    ensures (r.RoundAbandoned? && r.code == QuorumNotMet) <==>
              && Dispatched(offered, policy, w)
              && |Answered(ToSet(Front(offered, policy)), w.reply)| < policy.commitQuorum
    ensures r.Completed? ==> OnePerSlot(r.evaluations, ToSet(Front(offered, policy)))
    ensures r.Completed? ==>
              && AllSound(w.commit.revealed.grants, Shared(w.commit.revealed.grants, w.grading))
              && RecordsVerdicts(r.evaluations, ContextOf(w.lease.value.slots, w.reply), w.commit.revealed,
                                 Shared(w.commit.revealed.grants, w.grading))
    ensures r.Completed? ==> Binds(w) && forall e :: e in r.evaluations ==> ToldOwn(e, w)
    ensures r.Unavailable? <==>
              offered == [] || (Sendable(offered, policy) && (w.lease.None? || !WellFormedLease(w.lease.value)))
    ensures r.Unavailable? && offered != [] ==> r.retryAfter == w.retryAfter
    ensures r.RoundAbandoned? ==> AbandonedForCause(r, offered, policy, w)
    ensures r.Propagated? ==>
              || (offered != [] && !Sendable(offered, policy))
              || (w.commit.Revealed? && exists g :: g in w.commit.revealed.grants
                                                    && w.grading(g.reg).evaluated == EvaluationRaised(false))
  {
    var refusal := AcceptLease(offered, policy, w);
    if refusal.Some? {
      return refusal.value;
    }
    var lease := w.lease.value;
    var front := ToSet(Front(offered, policy));
    assert ToSet(lease.slots) == front && lease.quorum == policy.commitQuorum && Distinct(lease.slots);
    assert Sendable(offered, policy) && offered != [] && WellFormedLease(lease);
    hide Dispatched, Front, WellFormedLease, Sendable, AllSound, RecordsVerdicts, OnePerSlot, Shared, RevealAccepted,
      Binds, ToldOwn, GradedCleanly;
    var replies := Map(lease.slots, w.reply);
    var submissions, signed, latency := Dispatch(lease.slots, replies);
    DistinctSlots(lease.slots);
    AnsweredAreSigned(lease.slots, w.reply);
    assert |signed| == |signed.Keys|;
    hide SignedBy, LatencyBy, Submissions, Map, ContextOf, SoundGrading, NoDup, ToSet, Distinct;
    HappenedPlainly(offered, policy, w);
    hide Answered, Happened, AbandonedForCause;
    if |signed| < lease.quorum {
      return RoundAbandoned(QuorumNotMet, []);
    }
    match w.commit {
      case CommitRaised => return RoundAbandoned(ValidatorError, []);
      case NoReply => return RoundAbandoned(CommitFailed, []);
      case Revealed(revealed) =>
        SoundIsClean(w);
        r := JudgeReveal(w, submissions, signed, latency, policy.gradingConcurrency, offered, policy);
    }
  }
}
