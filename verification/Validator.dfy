/**
 The round callback end to end (rlvr/neurons/decentralized.py, round_callback): refresh the
 ledger to the chain, offer, evaluate, and score only what completed.
 */
module Validator {
  import opened Seqs
  import opened Ledger
  import opened Evaluations
  import opened Scoring
  import opened ScoreLog
  import opened Rounds
  import opened RoundProtocol
  import opened Offers
  import opened ScoreState
  import Cadence

  /** `_solver_clients`: the miners serving an axon, in uid order. */
  method SolverClients(meta: seq<string>, serves: nat -> bool) returns (clients: seq<Reg>)
    ensures clients == Serving(meta, serves)
    ensures forall reg :: reg in clients <==> reg.0 < |meta| && serves(reg.0) && reg.1 == meta[reg.0]
    ensures Rising(clients)
  {
    clients := [];
    for uid := 0 to |meta|
      invariant clients == Serving(meta[..uid], serves)
    {
      assert meta[..uid + 1][..uid] == meta[..uid];
      if !serves(uid) {
        continue;
      }
      clients := clients + [(uid, meta[uid])];
    }
    assert meta[..|meta|] == meta;
    ServingIsListed(meta, serves);
  }

  function Serving(meta: seq<string>, serves: nat -> bool): seq<Reg> {
    if meta == [] then []
    else
      var n := |meta| - 1;
      Serving(meta[..n], serves) + if serves(n) then [(n, meta[n])] else []
  }

  ghost predicate Rising(clients: seq<Reg>) {
    forall i, j :: 0 <= i < j < |clients| ==> clients[i].0 < clients[j].0
  }

  lemma {:induction false} ServingIsListed(meta: seq<string>, serves: nat -> bool)
    ensures forall reg :: reg in Serving(meta, serves) <==> reg.0 < |meta| && serves(reg.0) && reg.1 == meta[reg.0]
    ensures Rising(Serving(meta, serves))
  {
    if meta != [] {
      var n := |meta| - 1;
      var before, clients := Serving(meta[..n], serves), Serving(meta, serves);
      ServingIsListed(meta[..n], serves);
      assert clients == before || clients == before + [(n, meta[n])];
      forall i | 0 <= i < |before| ensures before[i].0 < n {
        assert before[i] in before;
      }
    }
  }

  /** `{solver.uid: solver.hotkey for solver in live_solvers}`. */
  function ActiveOf(clients: seq<Reg>): map<nat, string> {
    if clients == [] then map[]
    else
      var n := |clients| - 1;
      ActiveOf(clients[..n])[clients[n].0 := clients[n].1]
  }

  /** The miners a round is scored for are exactly those serving, under the hotkeys on the chain. */
  lemma ActiveAreServing(meta: seq<string>, serves: nat -> bool)
    ensures ActiveOf(Serving(meta, serves)) == map u: nat | u < |meta| && serves(u) :: meta[u]
  {
    ServingIsListed(meta, serves);
    ActiveIsListed(Serving(meta, serves), meta);
    forall u: nat | u < |meta| && serves(u) ensures u in ActiveOf(Serving(meta, serves)) {
      assert (u, meta[u]) in Serving(meta, serves);
    }
    ActiveAreClients(Serving(meta, serves));
  }

  lemma {:induction false} ActiveAreClients(clients: seq<Reg>)
    ensures forall u :: u in ActiveOf(clients) ==> exists reg :: reg in clients && reg.0 == u
  {
    if clients != [] {
      var n := |clients| - 1;
      ActiveAreClients(clients[..n]);
      assert clients[n] in clients && forall reg :: reg in clients[..n] ==> reg in clients;
    }
  }

  lemma {:induction false} ActiveIsListed(clients: seq<Reg>, meta: seq<string>)
    requires forall reg :: reg in clients ==> reg.0 < |meta| && reg.1 == meta[reg.0]
    ensures forall u :: u in ActiveOf(clients) ==> u < |meta| && ActiveOf(clients)[u] == meta[u]
    ensures forall reg :: reg in clients ==> reg.0 in ActiveOf(clients)
  {
    if clients != [] {
      var n := |clients| - 1;
      assert clients[n] in clients;
      ActiveIsListed(clients[..n], meta);
    }
  }

  /** The record after one callback: always refreshed, and a round is added only if it
      completed. */
  function RecordAfter(log: Log, decay: bool, meta: seq<string>, serves: nat -> bool, speed: SpeedPolicy, at: real,
      r: RoundResult): Log {
    var refreshed := LogRefresh(log, meta);
    if r.Completed? then LogRound(refreshed, decay, r.evaluations, ActiveOf(Serving(meta, serves)), speed, at)
        else refreshed
  }

  class ValidatorState {
    const engine: EvalEngine
    const offers: OfferState
    ghost var log: Log

    /** The ledger is the tail of the record of everything observed; no offer repeats anyone. */
    ghost predicate Valid()
      reads this, engine, offers
    {
      && ValidConfig(engine.config)
      && Refines(engine.config, engine.State(), log)
      && NoDup(offers.Order())
    }

    constructor (numUids: nat, config: Config)
      requires ValidConfig(config)
      ensures Valid() && fresh(engine) && fresh(offers)
      ensures log == Log([], map[])
    {
      engine := new EvalEngine(numUids, config);
      offers := new OfferState();
      log := Log([], map[]);
    }

    /** A new process: an empty engine that loads the state file, and no offer yet. If the file
        was saved when the engine was `e` with record `before`, that record goes on. */
    constructor Restart(numUids: nat, config: Config, f: File, now: real, ghost e: Engine, ghost before: Log)
      requires ValidConfig(config)
      requires Accepted(config, f, now).Some? ==> Refines(config, e, before) && Written(config, e, f)
      ensures Valid() && fresh(engine) && fresh(offers) && engine.config == config
      ensures engine.State() == Loaded(config, f, now, numUids)
      ensures log == if Accepted(config, f, now).Some? then before else NOTHING
    {
      engine := new EvalEngine(numUids, config);
      offers := new OfferState();
      log := if Accepted(config, f, now).Some? then before else NOTHING;
      new;
      hide Refines, Accepted, Restored, Written;
      RestartRefines(config, e, before, f, now, numUids);
      var restored := LoadScores(engine, f, now);
    }

    method RefreshLedger(meta: seq<string>)
      requires Valid()
      modifies this`log, engine
      ensures Valid() && log == LogRefresh(old(log), meta)
    {
      hide Syncs, Resized, Refines, LogRefresh;
      ghost var before := engine.State();
      engine.Resize(|meta|);
      var reset := engine.Sync(AsMap(meta), None);
      RefinesRefresh(engine.config, before, log, meta, engine.State());
      log := LogRefresh(log, meta);
    }

    method ScoreCompleted(r: RoundResult, clients: seq<Reg>, speed: SpeedPolicy, at: real)
      requires Valid() && at >= 0.0
      requires forall u :: u in ActiveOf(clients) ==> u < |log.meta| && ActiveOf(clients)[u] == log.meta[u]
      modifies this`log, engine
      ensures Valid()
      ensures log == if r.Completed?
          then LogRound(old(log), engine.config.decay, r.evaluations, ActiveOf(clients), speed, at) else old(log)
      ensures r.Completed? && Sensible(speed) && OnePerUid(r.evaluations) ==>
                AllPaid(engine.State(), r.evaluations, ActiveOf(clients), speed, at)
    {
      if r.Completed? {
        assert InRange(engine.State());
        hide Refines, LogRound, Applies, ActiveOf, RoundIsRecorded, Sensible, OnePerUid, InRange, AllPaid;
        ghost var before := engine.State();
        var active := ActiveOf(clients);
        var applied := ApplyRoundScores(true, r.evaluations, engine, active, speed, at);
        RefinesRound(engine.config, before, log, r.evaluations, active, speed, at, engine.State());
        log := LogRound(log, engine.config.decay, r.evaluations, active, speed, at);
        if Sensible(speed) && OnePerUid(r.evaluations) {
          RecordedArePaid(engine.config, before, r.evaluations, active, speed, at, engine.State());
        }
      }
    }

    /** The callback. `at` is the clock of observations, `now` the monotonic clock when it
        defers, `disk` whether the state file can be written. */
    method RoundCallback(meta: seq<string>, serves: nat -> bool, permits: Option<seq<bool>>, trust: Option<seq<real>>,
        owner: Option<string>,
                         policy: Policy, w: World, speed: SpeedPolicy, at: real, now: real, windowSeconds: real,
                             disk: bool)
      returns (r: RoundResult, turn: Turn, deferrals: seq<real>, saved: Option<File>)
      requires Valid() && ValidPolicy(policy) && at >= 0.0 && windowSeconds > 0.0
      modifies this`log, engine, offers
      ensures Valid()
      ensures log == RecordAfter(old(log), engine.config.decay, meta, serves, speed, at, r)
      ensures NextOffer(old(offers.Order()), turn.eligible, CANDIDATE_LIMIT, turn.offered)
          && offers.Order() == OrderAfter(turn)
      ensures forall reg :: reg in turn.eligible <==>
                reg.0 < |meta| && serves(reg.0) && reg.1 == meta[reg.0] && !Excluded(reg, permits, trust, owner)
      ensures r.Completed? ==> turn.redraw && OnePerSlot(r.evaluations, ToSet(Front(turn.offered, policy)))
      ensures r.Completed? && Sensible(speed) ==>
                AllPaid(engine.State(), r.evaluations, map u: nat | u < |meta| && serves(u) :: meta[u], speed, at)
      ensures deferrals == DeferralsOf(r, now)
      ensures r.Unavailable? ==> r.retryAfter == if turn.offered == [] then None else w.retryAfter
      ensures saved.Some? <==> disk && turn.offered != [] && !r.Propagated?
      ensures saved.Some? ==> Written(engine.config, engine.State(), saved.value)
    {
      RefreshLedger(meta);
      var clients := SolverClients(meta, serves);
      ServingIsListed(meta, serves);
      ActiveIsListed(clients, meta);
      ActiveAreServing(meta, serves);
      var eligible := EligibleMiners(clients, permits, trust, owner);
      assert UidsApart(ToSet(clients));
      hide Refines, NextOffer, OnePerSlot, LogRefresh, LogRound, Applies, Excluded, Answered, Sendable, Serving,
          ActiveOf, Written, AllPaid, Sensible, OnePerUid;
      assert log.meta == meta by { RefreshedMeta(old(log), meta); }
      turn, r := offers.RoundCallback(eligible, policy, w);
      if r.Completed? {
        SlotsAreOnePerUid(r.evaluations, ToSet(Front(turn.offered, policy)));
      }
      deferrals, saved := DeferralsOf(r, now), None;
      if turn.offered != [] && !r.Propagated? {
        ScoreCompleted(r, clients, speed, at);
        if disk {
          var f := SaveScores(engine, windowSeconds);
          saved := Some(f);
        }
      }
    }
  }

  /** The deadlines a callback sets: only a lease the server would not give defers anything. */
  function DeferralsOf(r: RoundResult, now: real): seq<real> {
    if r.Unavailable? then Cadence.PacedBy(r.retryAfter, now) else []
  }

  /** The callback and the run loop together: after a callback the next round starts once a full
      interval of blocks lies behind this one, unless the server asked for a pause, and then the
      pause alone decides. */
  lemma CallbackPacesTheLoop(t: Cadence.Terms, log: seq<Cadence.Event>, i: nat, r: RoundResult, now: real)
    requires Cadence.Lawful(t, log) && i < |log|
    requires var m := Cadence.LastRound(log, i); m >= 0 && log[m].deferrals == DeferralsOf(r, now)
    ensures if r.Unavailable? && r.retryAfter.Some? then
              var s := r.retryAfter.value;
              log[i].round <==> log[i].now >= now + 1.0 + if s < 0 then 0.0 else if s < 900 then s as real else 900.0
            else
              log[i].round <==> t.roundInterval <= 0
                                || log[i].block - log[Cadence.LastRound(log, i)].block >= t.roundInterval
  {
    Cadence.RoundsExactly(t, log, i);
    if r.Unavailable? && r.retryAfter.Some? {
      Cadence.PauseIsExact(t, log, i, r.retryAfter, now);
    }
  }

  lemma SlotsAreOnePerUid(evaluations: seq<MinerEvaluation>, pool: set<Reg>)
    requires OnePerSlot(evaluations, pool)
    ensures OnePerUid(evaluations)
  {
  }

  lemma RefreshedMeta(log: Log, meta: seq<string>)
    ensures LogRefresh(log, meta).meta == meta
  {
  }
}
