/**
 Grading byte-identical submissions once (rlvr/v3/round.py, the digest groups of
 evaluate_round) against grading every submission by itself.

 Submissions are bytes. The digest and what an evaluation says of the bytes are unknown
 functions; each task has its own downloads, clocks, storage, clean-up and duration.
 */
module SharedGrading {
  import opened Seqs
  import opened Grading
  import opened Evaluations
  import opened Rounds
  import opened RoundProtocol

  /** The uploads behind the grants, and what is unknown about them. */
  datatype Uploads = Uploads(bytes: Reg -> Bytes, digest: Bytes -> string, verdict: Bytes -> EvaluationResult)

  /** A task that could download its submission checked the digest, and an evaluation that ran
      to its end depends on nothing but the bytes. */
  ghost predicate Honest(grants: seq<Grant>, grading: Reg -> GradeWorld, u: Uploads) {
    forall g :: g in grants && grading(g.reg).downloaded ==>
      && u.digest(u.bytes(g.reg)) == g.artifact.sha256
      && (grading(g.reg).evaluated.Ran? && !grading(g.reg).evaluated.result.status.Abandoned? ==>
            grading(g.reg).evaluated.result == u.verdict(u.bytes(g.reg)))
  }

  /** No two of the submitted byte strings collide. */
  ghost predicate NoCollision(grants: seq<Grant>, u: Uploads) {
    forall g, h :: g in grants && h in grants && u.digest(u.bytes(g.reg)) == u.digest(u.bytes(h.reg)) ==>
      u.bytes(g.reg) == u.bytes(h.reg)
  }

  /** Every grant leads its own task. */
  function Alone(grading: Reg -> GradeWorld): Grant -> GradeWorld {
    (grant: Grant) => grading(grant.reg)
  }

  function Singles(grants: seq<Grant>): (r: seq<seq<Grant>>)
    ensures |r| == |grants|
    ensures forall k :: 0 <= k < |r| ==> r[k] == [grants[k]]
  {
    seq(|grants|, k requires 0 <= k < |grants| => [grants[k]])
  }

  lemma {:induction false} SinglesFlatten(grants: seq<Grant>)
    ensures Flatten(Singles(grants)) == grants
  {
    if grants != [] {
      var n := |grants| - 1;
      SinglesFlatten(grants[..n]);
      assert Singles(grants)[..n] == Singles(grants[..n]);
    }
  }

  /** Grading by itself is the same machinery over groups of one. */
  lemma SinglesAreGroups(grants: seq<Grant>, world: Grant -> GradeWorld)
    ensures Partition(Singles(grants), grants) && Uniform(Singles(grants), world)
  {
    SinglesFlatten(grants);
  }

  /** The verdict of the shared task is the verdict of the miner's own bytes. */
  lemma SharedVerdictIsOwn(grants: seq<Grant>, grading: Reg -> GradeWorld, u: Uploads, g: Grant)
    requires Honest(grants, grading, u) && NoCollision(grants, u) && g in grants
    requires SoundGrading(Shared(grants, grading)(g))
    requires u.digest(u.bytes(g.reg)) == g.artifact.sha256
    ensures Shared(grants, grading)(g).evaluated.result == u.verdict(u.bytes(g.reg))
  {
    LeaderIsFound(grants, g.artifact.sha256);
    var leader := Leader(grants, g.artifact.sha256).value;
    assert LeaderOf(grants, g) == leader.reg;
    assert Shared(grants, grading)(g) == grading(leader.reg);
    hide Leader, Shared, LeaderOf;
    assert u.digest(u.bytes(leader.reg)) == u.digest(u.bytes(g.reg));
  }

  /** Everything about an evaluation but how long the grading took. */
  predicate SameVerdict(a: MinerEvaluation, b: MinerEvaluation) {
    && a.uid == b.uid && a.hotkey == b.hotkey
    && a.result == b.result && a.latencyMs == b.latencyMs && a.trajectory == b.trajectory
  }

  /** What the tasks of a sound plan record. */
  function Records(p: Plan): seq<MinerEvaluation>
    requires |p.worlds| == |p.groups|
  {
    Flatten(ProducedBy(AllGraded(p)))
  }

  /** Each evaluation is about one grant, and each grant has its evaluation. */
  lemma RecordsAreVerdicts(ctx: Context, groups: seq<seq<Grant>>, grants: seq<Grant>, world: Grant -> GradeWorld,
      slots: nat)
    requires Partition(groups, grants) && Uniform(groups, world) && AllSound(grants, world)
    ensures var records := Records(PlanFor(ctx, groups, world, slots));
            && |records| == |grants|
            && ToSet(RegsOf(records)) == ToSet(GrantRegs(grants))
            && forall e :: e in records ==>
                exists g :: g in grants && world(g).evaluated.Ran? && e == OwnVerdict(ctx, g, world)
  {
    GradedLists(ctx, groups, grants, world, slots);
    var records, flat := Records(PlanFor(ctx, groups, world, slots)), Flatten(groups);
    hide Flatten, AllGraded, ProducedBy, Uniform, AllSound;
    GrantRegsWithin(flat, grants);
    GrantRegsWithin(grants, flat);
    assert RegsOf(records) == GrantRegs(flat);
    forall e | e in records ensures
        exists g :: g in grants && world(g).evaluated.Ran? && e == OwnVerdict(ctx, g, world)
    {
      VerdictMembers(ctx, flat, records, world, e);
    }
  }

  lemma RegDecides(grants: seq<Grant>, g: Grant, h: Grant)
    requires Distinct(GrantRegs(grants)) && g in grants && h in grants && g.reg == h.reg
    ensures g == h
  {
    var i :| 0 <= i < |grants| && grants[i] == g;
    var j :| 0 <= j < |grants| && grants[j] == h;
    assert SlotUids(GrantRegs(grants))[i] == SlotUids(GrantRegs(grants))[j];
  }

  /** Grading once per digest and grading every submission by itself, each with its own
      downloads, clocks, faults and durations: whenever both are sound, every miner gets the
      same result, latency and trajectory. */
  lemma GroupingChangesNoVerdict(ctx: Context, grants: seq<Grant>, together: Reg -> GradeWorld,
      apart: Reg -> GradeWorld,
                                 u: Uploads, slots: nat, slots': nat)
    requires Distinct(GrantRegs(grants)) && NoCollision(grants, u)
    requires Honest(grants, together, u) && Honest(grants, apart, u)
    requires AllSound(grants, Shared(grants, together)) && AllSound(grants, Alone(apart))
    ensures var once, each := Records(LeadersPlan(ctx, Groups(grants), together, slots)),
        Records(LeadersPlan(ctx, Singles(grants), apart, slots'));
            && |once| == |each| == |grants|
            && ToSet(RegsOf(once)) == ToSet(RegsOf(each)) == ToSet(GrantRegs(grants))
            && forall e, e' :: e in once && e' in each && RegOf(e) == RegOf(e') ==> SameVerdict(e, e')
  {
    var shared, alone := Shared(grants, together), Alone(apart);
    DigestGroups(ctx, grants, together, slots);
    SinglesAreGroups(grants, alone);
    assert LeadersPlan(ctx, Singles(grants), apart, slots') == PlanFor(ctx, Singles(grants), alone, slots');
    var once, each := Records(PlanFor(ctx, Groups(grants), shared, slots)),
        Records(PlanFor(ctx, Singles(grants), alone, slots'));
    hide Groups, Records, LeadersPlan, PlanFor, Partition, Uniform;
    RecordsAreVerdicts(ctx, Groups(grants), grants, shared, slots);
    RecordsAreVerdicts(ctx, Singles(grants), grants, alone, slots');
    forall e, e' | e in once && e' in each && RegOf(e) == RegOf(e') ensures SameVerdict(e, e') {
      var g :| g in grants && shared(g).evaluated.Ran? && e == OwnVerdict(ctx, g, shared);
      var h :| h in grants && alone(h).evaluated.Ran? && e' == OwnVerdict(ctx, h, alone);
      RegDecides(grants, g, h);
      SameResult(grants, together, apart, u, g);
    }
  }

  lemma SameResult(grants: seq<Grant>, together: Reg -> GradeWorld, apart: Reg -> GradeWorld, u: Uploads, g: Grant)
    requires NoCollision(grants, u) && Honest(grants, together, u) && Honest(grants, apart, u) && g in grants
    requires SoundGrading(Shared(grants, together)(g)) && SoundGrading(Alone(apart)(g))
    ensures Shared(grants, together)(g).evaluated.result == Alone(apart)(g).evaluated.result
        == u.verdict(u.bytes(g.reg))
  {
    SharedVerdictIsOwn(grants, together, u, g);
  }

  /** A completed round tells every graded miner what its own bytes deserve, provided each
      upload is what its miner signed. */
  lemma RoundGradesOwnBytes(ctx: Context, revealed: Reveal, grading: Reg -> GradeWorld, u: Uploads,
      evaluations: seq<MinerEvaluation>, g: Grant)
    requires NoCollision(revealed.grants, u) && Honest(revealed.grants, grading, u) && g in revealed.grants
    requires u.digest(u.bytes(g.reg)) == g.artifact.sha256
    requires AllSound(revealed.grants, Shared(revealed.grants, grading))
    requires RecordsVerdicts(evaluations, ctx, revealed, Shared(revealed.grants, grading))
    ensures exists e :: e in evaluations && RegOf(e) == g.reg && e.result == u.verdict(u.bytes(g.reg))
  {
    var world := Shared(revealed.grants, grading);
    SharedVerdictIsOwn(revealed.grants, grading, u, g);
    hide Shared;
    var e := OwnVerdict(ctx, g, world);
    assert e in evaluations;
  }
}
