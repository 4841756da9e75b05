/**
 Payments for one round and their entry into the engine (rlvr/v3/round.py,
 compute_round_payments and apply_round_scores), and what that means over whole runs.
 */
module Scoring {
  import opened Seqs
  import opened Ledger
  import opened Evaluations

  /** `curve(d)` is `2 ** (-d / half_life)`; None when the half life is not usable. */
  datatype SpeedPolicy = SpeedPolicy(floor: real, curve: Option<nat -> real>)

  /** The floor, moved into [0, 1] if it lies outside. */
  function Floor(p: SpeedPolicy): (r: real)
    ensures 0.0 <= r <= 1.0
    ensures 0.0 <= p.floor <= 1.0 ==> r == p.floor
  {
    if p.floor < 0.0 then 0.0 else if p.floor > 1.0 then 1.0 else p.floor
  }

  /** The smallest positive latency among the passes, if any. */
  function Fastest(items: seq<MinerEvaluation>): (r: Option<nat>)
    ensures r.None? ==> forall i :: 0 <= i < |items| && PassedIt(items[i]) ==> items[i].latencyMs == 0
    ensures r.Some? ==> r.value > 0
    ensures r.Some? ==> forall i :: 0 <= i < |items| && PassedIt(items[i]) && items[i].latencyMs > 0 ==>
        r.value <= items[i].latencyMs
    ensures r.Some? ==> exists i :: 0 <= i < |items| && PassedIt(items[i]) && items[i].latencyMs == r.value
  {
    if items == [] then None
    else
      var last, before := items[|items| - 1], Fastest(items[..|items| - 1]);
      if PassedIt(last) && last.latencyMs > 0 && (before.None? || last.latencyMs < before.value)
      then Some(last.latencyMs) else before
  }

  function Payment(items: seq<MinerEvaluation>, p: SpeedPolicy, item: MinerEvaluation): real {
    if !PassedIt(item) then 0.0
    else if Fastest(items).None? || p.curve.None? then 1.0
    else
      Blended(Floor(p), p.curve.value(Delay(item.latencyMs, Fastest(items).value)))
  }

  function Delay(latencyMs: nat, fastest: nat): nat {
    if latencyMs <= fastest then 0 else latencyMs - fastest
  }

  function Blended(floor: real, speed: real): real {
    floor + (1.0 - floor) * speed
  }

  /** The payments dictionary after the first n evaluations: later entries overwrite. */
  function PaymentsUpTo(items: seq<MinerEvaluation>, p: SpeedPolicy, n: nat): (m: map<nat, real>)
    requires n <= |items|
  {
    if n == 0 then map[]
    else PaymentsUpTo(items, p, n - 1)[items[n - 1].uid := Payment(items, p, items[n - 1])]
  }

  function PaymentMap(items: seq<MinerEvaluation>, p: SpeedPolicy): map<nat, real> {
    PaymentsUpTo(items, p, |items|)
  }

  method ComputeRoundPayments(completed: bool, items: seq<MinerEvaluation>, p: SpeedPolicy)
      returns (payments: map<nat, real>)
    ensures payments == if completed then PaymentMap(items, p) else map[]
    ensures completed && OnePerUid(items) ==> PaysFairly(items, p, payments)
  {
    payments := map[];
    if !completed {
      return;
    }
    hide OnePerUid, PaysFairly;
    var fastest := Fastest(items);
    var floor := Floor(p);
    for i := 0 to |items|
      invariant payments == PaymentsUpTo(items, p, i)
    {
      var item := items[i];
      if !item.result.status.Passed? {
        payments := payments[item.uid := 0.0];
        continue;
      }
      if fastest.None? || p.curve.None? {
        payments := payments[item.uid := 1.0];
        continue;
      }
      var delay := Delay(item.latencyMs, fastest.value);
      payments := payments[item.uid := Blended(floor, p.curve.value(delay))];
    }
    hide PaymentMap, Floor, Blended, Payment;
    if OnePerUid(items) {
      PaymentsPayFairly(items, p);
    }
  }

  ghost predicate Decaying(curve: nat -> real) {
    && curve(0) == 1.0
    && (forall d :: 0.0 < curve(d) <= 1.0)
    && forall a: nat, b: nat :: a <= b ==> curve(b) <= curve(a)
  }

  /** Payments lie in [0, 1], a failure earns nothing, a pass earns at least the floor, the
      fastest timed pass earns 1, and a faster pass never earns less than a slower one. */
  lemma PaymentsAreFair(items: seq<MinerEvaluation>, p: SpeedPolicy, a: MinerEvaluation, b: MinerEvaluation)
    requires a in items && b in items
    requires p.curve.Some? ==> Decaying(p.curve.value)
    ensures 0.0 <= Payment(items, p, a) <= 1.0
    ensures !PassedIt(a) ==> Payment(items, p, a) == 0.0
    ensures PassedIt(a) ==> Payment(items, p, a) >= Floor(p)
    ensures PassedIt(a) && Fastest(items) == Some(a.latencyMs) ==> Payment(items, p, a) == 1.0
    ensures PassedIt(a) && PassedIt(b) && a.latencyMs <= b.latencyMs ==> Payment(items, p, b) <= Payment(items, p, a)
    ensures PassedIt(a) && p.floor >= 1.0 ==> Payment(items, p, a) == 1.0
  {
    if Fastest(items).Some? && p.curve.Some? {
      var curve, f := p.curve.value, Fastest(items).value;
      var da, db := Delay(a.latencyMs, f), Delay(b.latencyMs, f);
      BlendedInRange(Floor(p), curve(da), 1.0);
      if a.latencyMs <= b.latencyMs {
        assert da <= db;
        BlendedInRange(Floor(p), curve(db), curve(da));
      }
    }
  }

  /** Nobody is evaluated twice. */
  ghost predicate OnePerUid(items: seq<MinerEvaluation>) {
    forall i, j :: 0 <= i < j < |items| ==> items[i].uid != items[j].uid
  }

  /** A pass whose time was taken, none faster. */
  ghost predicate IsFastest(items: seq<MinerEvaluation>, item: MinerEvaluation) {
    && item in items && PassedIt(item) && item.latencyMs > 0
    && forall other :: other in items && PassedIt(other) && other.latencyMs > 0 ==> item.latencyMs <= other.latencyMs
  }

  /** An entry for each miner evaluated and for nobody else. */
  ghost predicate PaysEveryone(items: seq<MinerEvaluation>, payments: map<nat, real>) {
    && (forall u :: u in payments ==> exists item :: item in items && item.uid == u)
    && (forall item :: item in items ==> item.uid in payments)
  }

  /** Nothing for a failure, everything for a pass if nobody's time counts, and otherwise the floor
      and the share of the rest that the curve leaves at the delay behind the fastest. */
  ghost predicate EarnsByTime(items: seq<MinerEvaluation>, p: SpeedPolicy, item: MinerEvaluation, payment: real) {
    if !PassedIt(item) then payment == 0.0
    else if p.curve.None? || Untimed(items) then payment == 1.0
    else forall first :: IsFastest(items, first) ==>
      payment == Floor(p) + (1.0 - Floor(p)) * p.curve.value(Behind(item, first))
  }

  ghost predicate PaysByTime(items: seq<MinerEvaluation>, p: SpeedPolicy, payments: map<nat, real>)
    requires PaysEveryone(items, payments)
  {
    forall item :: item in items ==> EarnsByTime(items, p, item, payments[item.uid])
  }

  ghost predicate Untimed(items: seq<MinerEvaluation>) {
    forall item :: item in items && PassedIt(item) ==> item.latencyMs == 0
  }

  /** The delay of one evaluation behind another: none if its time was not taken. */
  function Behind(item: MinerEvaluation, first: MinerEvaluation): nat {
    if item.latencyMs < first.latencyMs then 0 else item.latencyMs - first.latencyMs
  }

  /** A pass earns between the floor and 1, the fastest earns 1, and a faster pass never earns less
      than a slower one. */
  ghost predicate PaysInOrder(items: seq<MinerEvaluation>, p: SpeedPolicy, payments: map<nat, real>)
    requires PaysEveryone(items, payments)
  {
    && (forall item :: item in items && PassedIt(item) ==> Floor(p) <= payments[item.uid] <= 1.0)
    && (forall item :: IsFastest(items, item) ==> payments[item.uid] == 1.0)
    && (forall a, b :: a in items && b in items && PassedIt(a) && PassedIt(b) && a.latencyMs <= b.latencyMs ==>
          payments[b.uid] <= payments[a.uid])
  }

  /** What a payments dictionary owes to the miners evaluated. */
  ghost predicate PaysFairly(items: seq<MinerEvaluation>, p: SpeedPolicy, payments: map<nat, real>) {
    && PaysEveryone(items, payments)
    && PaysByTime(items, p, payments)
    && (p.curve.None? || Decaying(p.curve.value) ==> PaysInOrder(items, p, payments))
  }

  lemma FastestIsFastest(items: seq<MinerEvaluation>, item: MinerEvaluation)
    requires IsFastest(items, item)
    ensures Fastest(items) == Some(item.latencyMs)
  {
    var k :| 0 <= k < |items| && items[k] == item;
    var i :| 0 <= i < |items| && PassedIt(items[i]) && Some(items[i].latencyMs) == Fastest(items);
    assert items[i] in items;
  }

  /** Unless no pass was timed, somebody is the fastest. */
  lemma SomebodyIsFastest(items: seq<MinerEvaluation>)
    requires !Untimed(items)
    ensures exists first :: IsFastest(items, first)
  {
    var other :| other in items && PassedIt(other) && other.latencyMs > 0;
    assert Fastest(items).Some?;
    var i :| 0 <= i < |items| && PassedIt(items[i]) && items[i].latencyMs == Fastest(items).value;
    assert IsFastest(items, items[i]);
  }

  /** With nobody twice, the dictionary holds each evaluation's own payment. */
  lemma {:induction false} PaidOwn(items: seq<MinerEvaluation>, p: SpeedPolicy, n: nat)
    requires n <= |items| && OnePerUid(items)
    ensures forall i :: 0 <= i < n ==>
              && items[i].uid in PaymentsUpTo(items, p, n)
              && PaymentsUpTo(items, p, n)[items[i].uid] == Payment(items, p, items[i])
  {
    hide Payment;
    if n != 0 {
      PaidOwn(items, p, n - 1);
    }
  }

  lemma OwnPayments(items: seq<MinerEvaluation>, p: SpeedPolicy)
    requires OnePerUid(items)
    ensures PaysEveryone(items, PaymentMap(items, p))
    ensures forall item :: item in items ==> PaymentMap(items, p)[item.uid] == Payment(items, p, item)
  {
    PaidOwn(items, p, |items|);
    PaidUids(items, p, |items|);
    hide PaymentsUpTo, OnePerUid, Payment;
    forall u | u in PaymentMap(items, p) ensures exists item :: item in items && item.uid == u {
      var i :| 0 <= i < |items| && items[i].uid == u;
      assert items[i] in items;
    }
  }

  lemma PaymentBehind(items: seq<MinerEvaluation>, p: SpeedPolicy, item: MinerEvaluation, first: MinerEvaluation)
    requires PassedIt(item) && p.curve.Some? && IsFastest(items, first)
    ensures Payment(items, p, item) == Floor(p) + (1.0 - Floor(p)) * p.curve.value(Behind(item, first))
  {
    FastestIsFastest(items, first);
    assert Behind(item, first) == Delay(item.latencyMs, first.latencyMs);
    hide IsFastest, Fastest, Floor;
  }

  lemma PaymentByTime(items: seq<MinerEvaluation>, p: SpeedPolicy, item: MinerEvaluation)
    requires item in items
    ensures EarnsByTime(items, p, item, Payment(items, p, item))
  {
    if PassedIt(item) && p.curve.Some? {
      if Untimed(items) {
        assert Fastest(items).None?;
      } else {
        var other :| other in items && PassedIt(other) && other.latencyMs > 0;
        assert Fastest(items).Some?;
      }
      hide Fastest, Floor, Behind, IsFastest;
      forall first | IsFastest(items, first)
        ensures Payment(items, p, item) == Floor(p) + (1.0 - Floor(p)) * p.curve.value(Behind(item, first))
      {
        PaymentBehind(items, p, item, first);
      }
    }
  }

  lemma PaymentsByTime(items: seq<MinerEvaluation>, p: SpeedPolicy)
    requires OnePerUid(items) && PaysEveryone(items, PaymentMap(items, p))
    ensures PaysByTime(items, p, PaymentMap(items, p))
  {
    OwnPayments(items, p);
    hide PaymentMap, PaysEveryone, OnePerUid, Payment, EarnsByTime;
    forall item | item in items ensures EarnsByTime(items, p, item, Payment(items, p, item)) {
      PaymentByTime(items, p, item);
    }
  }

  lemma PaymentsInOrder(items: seq<MinerEvaluation>, p: SpeedPolicy)
    requires OnePerUid(items) && PaysEveryone(items, PaymentMap(items, p))
    requires p.curve.Some? ==> Decaying(p.curve.value)
    ensures PaysInOrder(items, p, PaymentMap(items, p))
  {
    OwnPayments(items, p);
    hide PaymentMap, PaysEveryone, OnePerUid, Fastest, Floor, Payment, Decaying;
    forall a, b | a in items && b in items
      ensures PassedIt(a) ==> Floor(p) <= Payment(items, p, a) <= 1.0
      ensures IsFastest(items, a) ==> Payment(items, p, a) == 1.0
      ensures PassedIt(a) && PassedIt(b) && a.latencyMs <= b.latencyMs ==> Payment(items, p, b) <= Payment(items, p, a)
    {
      PaymentsAreFair(items, p, a, b);
      if IsFastest(items, a) {
        FastestIsFastest(items, a);
      }
      hide IsFastest;
    }
  }

  lemma PaymentsPayFairly(items: seq<MinerEvaluation>, p: SpeedPolicy)
    requires OnePerUid(items)
    ensures PaysFairly(items, p, PaymentMap(items, p))
  {
    hide PaymentMap, PaysEveryone, PaysByTime, PaysInOrder, OnePerUid, Decaying;
    OwnPayments(items, p);
    PaymentsByTime(items, p);
    if p.curve.None? || Decaying(p.curve.value) {
      PaymentsInOrder(items, p);
    }
  }

  lemma BlendedInRange(floor: real, x: real, y: real)
    requires 0.0 <= floor <= 1.0 && 0.0 < x <= y <= 1.0
    ensures floor <= Blended(floor, x) <= Blended(floor, y) <= 1.0
    ensures Blended(floor, 1.0) == 1.0 && Blended(1.0, x) == 1.0
  {
    assert (1.0 - floor) * x >= 0.0;
    assert (1.0 - floor) * (y - x) >= 0.0;
    assert (1.0 - floor) * (1.0 - y) >= 0.0;
  }

  lemma {:induction false} PaidUids(items: seq<MinerEvaluation>, p: SpeedPolicy, n: nat)
    requires n <= |items|
    ensures forall u :: u in PaymentsUpTo(items, p, n) ==> exists i :: 0 <= i < n && items[i].uid == u
    ensures forall i :: 0 <= i < n ==> items[i].uid in PaymentsUpTo(items, p, n)
  {
    if n != 0 { PaidUids(items, p, n - 1); }
  }

  // ---- apply_round_scores -----------------------------------------------------------------

  /** Evaluations whose hotkey still holds the uid. */
  function Eligible(items: seq<MinerEvaluation>, active: map<nat, string>): (r: seq<MinerEvaluation>)
    ensures forall i :: 0 <= i < |r| ==> r[i] in items && r[i].uid in active && active[r[i].uid] == r[i].hotkey
    ensures forall x :: x in items && x.uid in active && active[x.uid] == x.hotkey ==> x in r
  {
    if items == [] then []
    else
      var last, before := items[|items| - 1], Eligible(items[..|items| - 1], active);
      if last.uid in active && active[last.uid] == last.hotkey then before + [last] else before
  }

  function Graded(items: seq<MinerEvaluation>, active: map<nat, string>, p: SpeedPolicy): map<nat, real> {
    PaymentMap(Eligible(items, active), p)
  }

  lemma GradedAreActive(items: seq<MinerEvaluation>, active: map<nat, string>, p: SpeedPolicy)
    ensures Graded(items, active, p).Keys <= active.Keys
  {
    var eligible := Eligible(items, active);
    PaidUids(eligible, p, |eligible|);
    forall u | u in Graded(items, active, p) ensures u in active {
      var i :| 0 <= i < |eligible| && eligible[i].uid == u;
    }
  }

  /** The engine's two calls in `apply_round_scores`. */
  ghost predicate Applies(c: Config, e: Engine, items: seq<MinerEvaluation>, active: map<nat, string>, p: SpeedPolicy,
      at: real, e': Engine)
    requires ValidConfig(c)
  {
    var graded := Graded(items, active, p);
    var known := map u | u in graded && u in active :: active[u];
    exists mid :: Updates(c, e, graded, known, Some(graded.Keys), at, mid)
                  && Records(c, mid, Absent(c, mid, active.Keys), at, e')
  }

  /** What a completed round leaves in the ledger: every miner evaluated under a hotkey that is
      still active gains its fair payment, every other miner observed before gains a zero if it no
      longer serves, and nobody else gains or loses anything. */
  ghost predicate RoundIsRecorded(c: Config, e: Engine, items: seq<MinerEvaluation>, active: map<nat, string>,
      p: SpeedPolicy, at: real, e': Engine)
  {
    exists payments ::
      PaysFairly(Eligible(items, active), p, payments) && PaymentsEnter(c, e, payments, active.Keys, at, e')
  }

  ghost predicate PaymentsEnter(c: Config, e: Engine, payments: map<nat, real>, active: set<nat>, at: real,
      e': Engine)
  {
    forall u: nat ::
      if u in payments then Gains(HistoryOf(e, u), HistoryOf(e', u), Observation(at, payments[u]), c.maxSamples)
      else if c.decay && u in e.histories && u !in active then
        Gains(HistoryOf(e, u), HistoryOf(e', u), Observation(at, 0.0), c.maxSamples)
      else At(e', u) == At(e, u)
  }

  /** The curve, if there is one, is a share of the bonus that does not grow with the delay. */
  ghost predicate Sensible(p: SpeedPolicy) {
    p.curve.None? || Decaying(p.curve.value)
  }

  method ApplyRoundScores(completed: bool, items: seq<MinerEvaluation>, engine: EvalEngine, active: map<nat, string>,
                          p: SpeedPolicy, at: real) returns (applied: bool)
    requires ValidConfig(engine.config)
    modifies engine
    ensures applied == completed
    ensures !completed ==> engine.State() == old(engine.State())
    ensures completed ==> Applies(engine.config, old(engine.State()), items, active, p, at, engine.State())
    ensures completed && Sensible(p) && OnePerUid(items) && InRange(old(engine.State())) ==>
              RoundIsRecorded(engine.config, old(engine.State()), items, active, p, at, engine.State())
  {
    hide Updates, Records, Absent, RoundIsRecorded, Sensible, OnePerUid, InRange;
    if !completed {
      return false;
    }
    var eligible := Eligible(items, active);
    var payments := ComputeRoundPayments(true, eligible, p);
    GradedAreActive(items, active, p);
    var known := map u | u in payments && u in active :: active[u];
    engine.Update(payments, known, Some(payments.Keys), at);
    engine.RecordNonserving(active.Keys, at);
    if Sensible(p) && OnePerUid(items) && InRange(old(engine.State())) {
      AppliedIsRecorded(engine.config, old(engine.State()), items, active, p, at, engine.State());
    }
    return true;
  }

  /** What one completed round appends: the payments of the graded uids, and one zero for
      each uid observed before that is not serving. */
  function OneRound(c: Config, e: Engine, items: seq<MinerEvaluation>, active: map<nat, string>,
      p: SpeedPolicy): map<nat, real> {
    Graded(items, active, p) + if c.decay then Zeros(e.histories.Keys - active.Keys) else map[]
  }

  /** Histories exist only for uids the score vector indexes. */
  ghost predicate InRange(e: Engine) {
    forall u :: u in e.histories ==> u < |e.scores|
  }

  lemma AbsentUids(c: Config, e: Engine, known: map<nat, string>, mid: Engine, graded: map<nat, real>, at: real,
      updated: Engine, active: set<nat>)
    requires ValidConfig(c) && InRange(e)
    requires Notes(e, known, mid) && Records(c, mid, graded, at, updated)
    ensures Absent(c, updated, active) == if c.decay then Zeros(updated.histories.Keys - active) else map[]
  {
    NotesKeepHistories(e, known, mid);
    ObservedAfter(c, mid, graded, at, updated);
    forall u | u in updated.histories ensures u < |updated.scores| {
      assert u in graded || u in e.histories;
    }
    assert updated.histories.Keys - active == set u | u in updated.histories && !(u in active && u < |updated.scores|);
  }

  /** The two calls touch disjoint uids, so a completed round moves each history by at
      most one observation, and exactly the ones `OneRound` names. */
  lemma RoundMovesOneSlot(c: Config, e: Engine, items: seq<MinerEvaluation>, active: map<nat, string>, p: SpeedPolicy,
      at: real, e': Engine)
    returns (known: map<nat, string>, mid: Engine)
    requires ValidConfig(c)
    requires InRange(e)
    requires Applies(c, e, items, active, p, at, e')
    ensures known.Keys == Graded(items, active, p).Keys
    ensures forall u :: u in known ==> u in active && known[u] == active[u]
    ensures Notes(e, known, mid)
    ensures Records(c, mid, OneRound(c, e, items, active, p), at, e')
  {
    hide Notes, Records, Score, Appended, Graded;
    var graded := Graded(items, active, p);
    GradedAreActive(items, active, p);
    known := map u | u in graded && u in active :: active[u];
    var updated :| Updates(c, e, graded, known, Some(graded.Keys), at, updated)
                   && Records(c, updated, Absent(c, updated, active.Keys), at, e');
    var recorded := Recorded(c, e, graded, Some(graded.Keys));
    assert recorded == graded;
    mid :| Notes(e, known, mid) && Records(c, mid, recorded, at, updated);
    NotesKeepHistories(e, known, mid);
    ObservedAfter(c, mid, graded, at, updated);
    AbsentUids(c, e, known, mid, graded, at, updated, active.Keys);
    RecordsCompose(c, mid, graded, updated, Absent(c, updated, active.Keys), at, e');
    assert updated.histories.Keys - active.Keys == e.histories.Keys - active.Keys;
  }

  lemma {:induction false} EligibleOncePerUid(items: seq<MinerEvaluation>, active: map<nat, string>)
    requires OnePerUid(items)
    ensures OnePerUid(Eligible(items, active))
  {
    if items != [] {
      var n := |items| - 1;
      var before := Eligible(items[..n], active);
      EligibleOncePerUid(items[..n], active);
      forall i | 0 <= i < |before| ensures before[i].uid != items[n].uid {
        assert before[i] in items[..n];
      }
    }
  }

  lemma AppliedIsRecorded(c: Config, e: Engine, items: seq<MinerEvaluation>, active: map<nat, string>, p: SpeedPolicy,
      at: real, e': Engine)
    requires ValidConfig(c) && InRange(e) && Sensible(p) && OnePerUid(items)
    requires Applies(c, e, items, active, p, at, e')
    ensures RoundIsRecorded(c, e, items, active, p, at, e')
  {
    hide Applies, PaysFairly, Eligible, Bump, Sensible, OnePerUid, Gains, InRange, PaymentMap, Records, Notes, At,
      HistoryOf;
    var round, payments := OneRound(c, e, items, active, p), Graded(items, active, p);
    var known, mid := RoundMovesOneSlot(c, e, items, active, p, at, e');
    EligibleOncePerUid(items, active);
    PaymentsPayFairly(Eligible(items, active), p);
    GradedAreActive(items, active, p);
    FairIsNotNegative(Eligible(items, active), p, payments);
    forall u: nat
      ensures if u in round then Gains(HistoryOf(e, u), HistoryOf(e', u), Observation(at, round[u]), c.maxSamples)
              else At(e', u) == At(e, u)
    {
      CellAfter(c, e, known, mid, round, at, e', u);
      if u in round {
        CellGains(c, e, round[u], at, e', u);
      }
    }
    assert PaymentsEnter(c, e, payments, active.Keys, at, e');
  }

  lemma FairIsNotNegative(items: seq<MinerEvaluation>, p: SpeedPolicy, payments: map<nat, real>)
    requires Sensible(p) && PaysFairly(items, p, payments)
    ensures forall u :: u in payments ==> payments[u] >= 0.0
  {
    hide IsFastest, Floor, Decaying, Untimed;
    forall u | u in payments ensures payments[u] >= 0.0 {
      var item :| item in items && item.uid == u;
      assert !PassedIt(item) ==> EarnsByTime(items, p, item, payments[u]);
    }
  }

  /** Every miner evaluated under a hotkey that is still active has its payment on record. */
  ghost predicate AllPaid(e: Engine, items: seq<MinerEvaluation>, active: map<nat, string>, p: SpeedPolicy, at: real) {
    forall item :: item in items && item.uid in active && active[item.uid] == item.hotkey ==> Paid(e, item, p, at)
  }

  /** The newest observation of this miner is what this evaluation earned. */
  ghost predicate Paid(e: Engine, item: MinerEvaluation, p: SpeedPolicy, at: real) {
    var history := HistoryOf(e, item.uid);
    && history != [] && history[|history| - 1].at == at
    && if PassedIt(item) then Floor(p) <= history[|history| - 1].payment <= 1.0
       else history[|history| - 1].payment == 0.0
  }

  lemma RecordedIsPaid(c: Config, e: Engine, items: seq<MinerEvaluation>, active: map<nat, string>, p: SpeedPolicy,
      at: real, e': Engine, item: MinerEvaluation)
    requires RoundIsRecorded(c, e, items, active, p, at, e') && Sensible(p)
    requires item in items && item.uid in active && active[item.uid] == item.hotkey
    ensures Paid(e', item, p, at)
  {
    var payments :| PaysFairly(Eligible(items, active), p, payments)
                    && PaymentsEnter(c, e, payments, active.Keys, at, e');
    hide IsFastest, Floor, Decaying, Untimed, HistoryOf, At;
    assert item in Eligible(items, active);
    assert EarnsByTime(Eligible(items, active), p, item, payments[item.uid]);
    hide Eligible, EarnsByTime;
  }

  lemma RecordedArePaid(c: Config, e: Engine, items: seq<MinerEvaluation>, active: map<nat, string>, p: SpeedPolicy,
      at: real, e': Engine)
    requires RoundIsRecorded(c, e, items, active, p, at, e') && Sensible(p)
    ensures AllPaid(e', items, active, p, at)
  {
    hide RoundIsRecorded, Paid, Sensible;
    forall item | item in items && item.uid in active && active[item.uid] == item.hotkey ensures Paid(e', item, p, at) {
      RecordedIsPaid(c, e, items, active, p, at, e', item);
    }
  }
}
