/**
 The score engine (rlvr/scoring/eval_engine.py, EvalEngine).

 `EvalEngine` is the class with its mutable fields. Each method is proved to make one step
 of a relation over engine values, and the relations are shown to compose.
 */
module Ledger {
  import opened Seqs
  import opened Ranking

  datatype Observation = Observation(at: real, payment: real)

  datatype Config = Config(maxSamples: nat, minSamples: nat, decay: bool, rankDecay: Option<real>)

  /** The constructor's checks. */
  predicate ValidConfig(c: Config) {
    && 1 <= c.minSamples <= c.maxSamples
    && (c.rankDecay.Some? ==> 0.0 < c.rankDecay.value <= 1.0)
  }

  datatype Engine = Engine(scores: seq<real>, histories: map<nat, seq<Observation>>, hotkeys: map<nat, string>)

  // ---- Values -----------------------------------------------------------------------

  function Payments(history: seq<Observation>): (r: seq<real>)
    ensures |r| == |history|
  {
    seq(|history|, i requires 0 <= i < |history| => history[i].payment)
  }

  /** Sum over max(len, min_samples); zero when nothing was observed. */
  function Score(c: Config, history: seq<Observation>): real
    requires ValidConfig(c)
  {
    if history == [] then 0.0 else Sum(Payments(history)) / Max(|history|, c.minSamples) as real
  }

  function LastN<T>(s: seq<T>, n: nat): (r: seq<T>)
    ensures |r| == Min(|s|, n)
  {
    if |s| <= n then s else s[|s| - n..]
  }

  function Clamp(reward: real): real {
    if reward < 0.0 then 0.0 else reward
  }

  function Appended(c: Config, history: seq<Observation>, reward: real, at: real): seq<Observation> {
    LastN(history + [Observation(at, Clamp(reward))], c.maxSamples)
  }

  /** Everything the engine holds for one uid. Slots beyond the score vector read as zero,
      which is what growing the vector fills in. */
  datatype Cell = Cell(history: Option<seq<Observation>>, score: real)

  function At(e: Engine, u: nat): Cell {
    Cell(if u in e.histories then Some(e.histories[u]) else None,
         if u < |e.scores| then e.scores[u] else 0.0)
  }

  function Seen(cell: Cell): seq<Observation> {
    if cell.history.Some? then cell.history.value else []
  }

  function Bump(c: Config, cell: Cell, reward: real, at: real): Cell
    requires ValidConfig(c)
  {
    var history := Appended(c, Seen(cell), reward, at);
    Cell(Some(history), Score(c, history))
  }

  /** A vector of length m holds the old n slots and indexes every uid. */
  ghost predicate Reaches(m: nat, n: nat, uids: set<nat>) {
    n <= m && forall u :: u in uids ==> u < m
  }

  /** The vector grew from n to n' slots, no further than the uids made it. */
  ghost predicate Covers(n: nat, uids: set<nat>, n': nat) {
    Reaches(n', n, uids) && forall m: nat :: Reaches(m, n, uids) ==> n' <= m
  }

  lemma CoversCompose(n: nat, a: set<nat>, n': nat, b: set<nat>, n'': nat)
    requires Covers(n, a, n') && Covers(n', b, n'')
    ensures Covers(n, a + b, n'')
  {
    forall m: nat | Reaches(m, n, a + b) ensures n'' <= m {
      assert Reaches(m, n, a);
      assert Reaches(m, n', b);
    }
  }

  // ---- Steps --------------------------------------------------------------------------

  /** One observation for every uid in `rewards`; every other uid is left alone. */
  ghost predicate Records(c: Config, e: Engine, rewards: map<nat, real>, at: real, e': Engine)
    requires ValidConfig(c)
  {
    && e'.hotkeys == e.hotkeys
    && Covers(|e.scores|, rewards.Keys, |e'.scores|)
    && forall u :: At(e', u) == if u in rewards then Bump(c, At(e, u), rewards[u], at) else At(e, u)
  }

  /** A window of at most `cap` observations takes in one more at its end. */
  ghost predicate Gains(before: seq<Observation>, after: seq<Observation>, o: Observation, cap: nat) {
    && |after| == Min(|before| + 1, cap) && after != [] && after[|after| - 1] == o
    && after[..|after| - 1] == before[|before| + 1 - |after|..]
  }

  function HistoryOf(e: Engine, u: nat): seq<Observation> {
    if u in e.histories then e.histories[u] else []
  }

  /** Hotkeys noted for some uids, with no effect on any history or score. */
  ghost predicate Notes(e: Engine, known: map<nat, string>, e': Engine) {
    && e'.hotkeys == e.hotkeys + known
    && Covers(|e.scores|, known.Keys, |e'.scores|)
    && forall u :: At(e', u) == At(e, u)
  }

  /** Uids whose tracked hotkey is contradicted: the slot belongs to a new miner. */
  function Reused(e: Engine, current: map<nat, string>): set<nat> {
    set u | u in current && u in e.hotkeys && e.hotkeys[u] != current[u]
  }

  ghost predicate Syncs(e: Engine, current: map<nat, string>, e': Engine) {
    && e'.hotkeys == e.hotkeys + current
    && Covers(|e.scores|, current.Keys, |e'.scores|)
    && forall u :: At(e', u) == if u in Reused(e, current) then Cell(None, 0.0) else At(e, u)
  }

  function Resized(e: Engine, n: nat): Engine {
    if n >= |e.scores| then e.(scores := ZeroPad(e.scores, n))
    else Engine(e.scores[..n],
                map u | u in e.histories && u < n :: e.histories[u],
                map u | u in e.hotkeys && u < n :: e.hotkeys[u])
  }

  function Zeros(uids: set<nat>): map<nat, real> {
    map u | u in uids :: 0.0
  }

  /** What `update` records: the rewards, then a zero for every silent uid. */
  function Recorded(c: Config, e: Engine, rewards: map<nat, real>, dispatched: Option<set<nat>>): map<nat, real> {
    var silent := if dispatched.Some? then dispatched.value else e.histories.Keys;
    if rewards == map[] && dispatched.None? then map[]
    else if c.decay then rewards + Zeros(silent - rewards.Keys)
    else rewards
  }

  ghost predicate Updates(c: Config, e: Engine, rewards: map<nat, real>, known: map<nat, string>,
                          dispatched: Option<set<nat>>, at: real, e': Engine)
    requires ValidConfig(c)
  {
    exists mid :: Notes(e, known, mid) && Records(c, mid, Recorded(c, e, rewards, dispatched), at, e')
  }

  /** `record_nonserving`: zeros for the observed uids that are not active. */
  function Absent(c: Config, e: Engine, active: set<nat>): map<nat, real> {
    if c.decay then Zeros(set u | u in e.histories && !(u in active && u < |e.scores|)) else map[]
  }

  /** `_restore`: the newest `max_samples` of every history, and the scores they imply. */
  function Restored(c: Config, numUids: nat, saved: map<nat, seq<Observation>>, hotkeys: map<nat, string>): Engine
    requires ValidConfig(c)
  {
    var kept := map u | u in saved && saved[u] != [] :: LastN(saved[u], c.maxSamples);
    Engine(seq(numUids, u => Score(c, if u in kept then kept[u] else [])), kept, hotkeys)
  }

  // ---- The class ------------------------------------------------------------------------

  class EvalEngine {
    const config: Config
    var scores: seq<real>
    var histories: map<nat, seq<Observation>>
    var hotkeys: map<nat, string>

    ghost function State(): Engine
      reads this
    {
      Engine(scores, histories, hotkeys)
    }

    constructor (numUids: nat, config: Config)
      requires ValidConfig(config)
      ensures this.config == config
      ensures State() == Engine(seq(numUids, _ => 0.0), map[], map[])
    {
      this.config := config;
      scores := seq(numUids, _ => 0.0);
      histories, hotkeys := map[], map[];
    }

    method EnsureCapacity(uid: nat)
      modifies this`scores
      ensures scores == if uid < old(|scores|) then old(scores) else ZeroPad(old(scores), uid + 1)
    {
      if uid >= |scores| {
        scores := scores + seq(uid + 1 - |scores|, _ => 0.0);
      }
    }

    method RefreshScore(uid: nat)
      requires ValidConfig(config) && uid < |scores|
      modifies this`scores
      ensures scores == old(scores)[uid := Score(config, Seen(At(State(), uid)))]
    {
      var history := if uid in histories then histories[uid] else [];
      var denominator := Max(|history|, config.minSamples);
      scores := scores[uid := if history != [] then Sum(Payments(history)) / denominator as real else 0.0];
    }

    method Record(uid: nat, reward: real, at: real)
      requires ValidConfig(config)
      modifies this
      ensures Records(config, old(State()), map[uid := reward], at, State())
    {
      hide Records, Score;
      EnsureCapacity(uid);
      var value := if reward < 0.0 then 0.0 else reward;
      var history := (if uid in histories then histories[uid] else []) + [Observation(at, value)];
      if |history| > config.maxSamples {
        history := history[|history| - config.maxSamples..];
      }
      assert history == Appended(config, Seen(At(old(State()), uid)), reward, at);
      histories := histories[uid := history];
      RefreshScore(uid);
      RecordOne(config, old(State()), uid, reward, at, State());
    }

    /** The recording loops of `update` and `record_nonserving`, in whatever order the
        dictionary or set is iterated. */
    method RecordEach(rewards: map<nat, real>, at: real)
      requires ValidConfig(config)
      modifies this
      ensures Records(config, old(State()), rewards, at, State())
    {
      hide Records, Split;
      var left, done: map<nat, real> := rewards.Keys, map[];
      SplitStart(rewards);
      RecordsNone(config, State(), at);
      while left != {}
        invariant Split(left, done, rewards)
        invariant Records(config, old(State()), done, at, State())
        decreases |left|
      {
        var uid :| uid in left;
        SplitStep(left, done, rewards, uid);
        ghost var before := State();
        Record(uid, rewards[uid], at);
        RecordsCompose(config, old(State()), done, before, map[uid := rewards[uid]], at, State());
        left, done := left - {uid}, done + map[uid := rewards[uid]];
      }
      SplitEnd(left, done, rewards);
    }

    method SetHotkeys(known: map<nat, string>)
      modifies this
      ensures Notes(old(State()), known, State())
    {
      hide Notes, Split, ZeroPad, Covers, Reaches, At;
      var left, done: map<nat, string> := known.Keys, map[];
      SplitStart(known);
      NotesNone(State());
      while left != {}
        invariant Split(left, done, known)
        invariant Notes(old(State()), done, State())
        decreases |left|
      {
        var uid :| uid in left;
        SplitStep(left, done, known, uid);
        ghost var before := State();
        EnsureCapacity(uid);
        hotkeys := hotkeys[uid := known[uid]];
        NoteOne(before, uid, known[uid], State());
        NotesCompose(old(State()), done, before, map[uid := known[uid]], State());
        left, done := left - {uid}, done + map[uid := known[uid]];
      }
      SplitEnd(left, done, known);
    }

    /** The loop body of `sync`. */
    method SyncOne(uid: nat, hotkey: string) returns (reset: set<nat>)
      modifies this
      ensures Syncs(old(State()), map[uid := hotkey], State())
      ensures reset == Reused(old(State()), map[uid := hotkey])
    {
      EnsureCapacity(uid);
      ReusedOne(State(), uid, hotkey);
      reset := {};
      if uid in hotkeys && hotkeys[uid] != hotkey {
        reset := {uid};
        scores := scores[uid := 0.0];
        histories := histories - {uid};
      }
      hotkeys := hotkeys[uid := hotkey];
      SyncedOne(old(State()), uid, hotkey, State());
    }

    /** The loop of `sync`. */
    method SyncEach(current: map<nat, string>) returns (reset: set<nat>)
      modifies this
      ensures Syncs(old(State()), current, State())
      ensures reset == Reused(old(State()), current)
    {
      hide Syncs, Split, Reused;
      var left, done: map<nat, string> := current.Keys, map[];
      reset := {};
      SplitStart(current);
      SyncsNone(State());
      while left != {}
        invariant Split(left, done, current)
        invariant reset == Reused(old(State()), done)
        invariant Syncs(old(State()), done, State())
        decreases |left|
      {
        var uid :| uid in left;
        SplitStep(left, done, current, uid);
        ghost var before := State();
        var changed := SyncOne(uid, current[uid]);
        SyncsCompose(old(State()), done, before, map[uid := current[uid]], State());
        reset := reset + changed;
        left, done := left - {uid}, done + map[uid := current[uid]];
      }
      SplitEnd(left, done, current);
    }

    method Sync(current: map<nat, string>, n: Option<nat>) returns (reset: set<nat>)
      modifies this
      ensures reset == Reused(old(State()), current)
      ensures exists mid ::
          Syncs(old(State()), current, mid) && State() == if n.Some? then Resized(mid, n.value) else mid
    {
      hide Syncs, Reused, Resized;
      reset := SyncEach(current);
      ghost var mid := State();
      if n.Some? {
        Resize(n.value);
      }
    }

    method Resize(n: nat)
      modifies this
      ensures State() == Resized(old(State()), n)
    {
      if n == |scores| {
        assert ZeroPad(scores, n) == scores;
        return;
      }
      if n > |scores| {
        scores := scores + seq(n - |scores|, _ => 0.0);
      } else {
        scores := scores[..n];
        histories := map u | u in histories && u < n :: histories[u];
        hotkeys := map u | u in hotkeys && u < n :: hotkeys[u];
      }
    }

    method Update(rewards: map<nat, real>, known: map<nat, string>, dispatched: Option<set<nat>>, at: real)
      requires ValidConfig(config)
      modifies this
      ensures Updates(config, old(State()), rewards, known, dispatched, at, State())
    {
      hide Records, Notes;
      SetHotkeys(known);
      ghost var mid := State();
      assert histories.Keys == old(histories).Keys by { NotesKeepHistories(old(State()), known, mid); }
      if rewards == map[] && dispatched.None? {
        RecordsNone(config, mid, at);
        return;
      }
      RecordEach(rewards, at);
      if !config.decay {
        return;
      }
      ghost var answered := State();
      ObservedAfter(config, mid, rewards, at, answered);
      var silent := (if dispatched.Some? then dispatched.value else histories.Keys) - rewards.Keys;
      var zeros := Zeros(silent);
      RecordEach(zeros, at);
      RecordsCompose(config, mid, rewards, answered, zeros, at, State());
      assert rewards + zeros == Recorded(config, old(State()), rewards, dispatched);
    }

    method RecordNonserving(active: set<nat>, at: real)
      requires ValidConfig(config)
      modifies this
      ensures Records(config, old(State()), Absent(config, old(State()), active), at, State())
    {
      if !config.decay || histories == map[] {
        return;
      }
      var serving := set u | u in active && u < |scores|;
      var absent := histories.Keys - serving;
      assert absent == set u | u in histories && !(u in active && u < |scores|);
      RecordEach(Zeros(absent), at);
    }

    method Restore(numUids: nat, saved: map<nat, seq<Observation>>, owners: map<nat, string>)
      requires ValidConfig(config)
      requires forall u :: u in saved ==> u < numUids
      modifies this
      ensures State() == Restored(config, numUids, saved, owners)
    {
      hide Restored, Split, Score;
      scores := seq(numUids, _ => 0.0);
      histories := map[];
      var left, done: map<nat, seq<Observation>> := saved.Keys, map[];
      SplitStart(saved);
      RestoredNone(config, numUids, hotkeys);
      while left != {}
        invariant Split(left, done, saved)
        invariant State() == Restored(config, numUids, done, hotkeys)
        decreases |left|
      {
        var uid :| uid in left;
        SplitStep(left, done, saved, uid);
        RestoredStep(config, numUids, done, uid, saved[uid], hotkeys);
        left, done := left - {uid}, done + map[uid := saved[uid]];
        var kept := LastN(saved[uid], config.maxSamples);
        if kept == [] {
          continue;
        }
        histories := histories[uid := kept];
        RefreshScore(uid);
      }
      SplitEnd(left, done, saved);
      RestoredOwners(config, numUids, saved, hotkeys, owners);
      hotkeys := owners;
    }

    method GetWeights(n: Option<nat>) returns (weights: seq<real>)
      ensures weights == Weights(scores, n, config.rankDecay)
    {
      weights := Ranking.GetWeights(scores, n, config.rankDecay);
    }
  }

  // ---- How steps compose -----------------------------------------------------------------

  /** A loop over a dictionary: what is left, and the part already handled. */
  ghost predicate Split<V(!new)>(left: set<nat>, done: map<nat, V>, all: map<nat, V>) {
    && left !! done.Keys && left + done.Keys == all.Keys
    && forall u :: u in done ==> done[u] == all[u]
  }

  lemma SplitStart<V(!new)>(all: map<nat, V>)
    ensures Split(all.Keys, map[], all)
  {
  }

  lemma SplitStep<V(!new)>(left: set<nat>, done: map<nat, V>, all: map<nat, V>, uid: nat)
    requires Split(left, done, all) && uid in left
    ensures uid in all && done.Keys !! map[uid := all[uid]].Keys
    ensures Split(left - {uid}, done + map[uid := all[uid]], all)
  {
    var next := done + map[uid := all[uid]];
    assert next.Keys == done.Keys + {uid};
  }

  lemma SplitEnd<V(!new)>(left: set<nat>, done: map<nat, V>, all: map<nat, V>)
    requires Split(left, done, all) && left == {}
    ensures done == all
  {
  }

  lemma OneSlot(n: nat, uid: nat, n': nat)
    requires n' == if uid < n then n else uid + 1
    ensures Covers(n, map[uid := 0].Keys, n')
  {
    assert map[uid := 0].Keys == {uid};
    forall m: nat | Reaches(m, n, {uid}) ensures n' <= m {
      assert uid in {uid};
    }
  }

  lemma RecordsNone(c: Config, e: Engine, at: real)
    requires ValidConfig(c)
    ensures Records(c, e, map[], at, e)
  {
  }

  lemma NotesNone(e: Engine)
    ensures Notes(e, map[], e)
  {
    assert e.hotkeys + map[] == e.hotkeys;
  }

  lemma SyncsNone(e: Engine)
    ensures Syncs(e, map[], e) && Reused(e, map[]) == {}
  {
    assert e.hotkeys + map[] == e.hotkeys;
  }

  lemma RecordOne(c: Config, e: Engine, uid: nat, reward: real, at: real, e': Engine)
    requires ValidConfig(c)
    requires var history := Appended(c, Seen(At(e, uid)), reward, at);
             var padded := if uid < |e.scores| then e.scores else ZeroPad(e.scores, uid + 1);
             e' == Engine(padded[uid := Score(c, history)], e.histories[uid := history], e.hotkeys)
    ensures Records(c, e, map[uid := reward], at, e')
  {
    OneSlot(|e.scores|, uid, |e'.scores|);
    assert map[uid := reward].Keys == map[uid := 0].Keys;
  }

  lemma NoteOne(e: Engine, uid: nat, hotkey: string, e': Engine)
    requires e' == Engine(if uid < |e.scores| then e.scores else ZeroPad(e.scores, uid + 1), e.histories,
        e.hotkeys[uid := hotkey])
    ensures Notes(e, map[uid := hotkey], e')
  {
    OneSlot(|e.scores|, uid, |e'.scores|);
    assert map[uid := hotkey].Keys == map[uid := 0].Keys;
  }

  lemma SyncedOne(e: Engine, uid: nat, hotkey: string, e': Engine)
    requires var padded := if uid < |e.scores| then e.scores else ZeroPad(e.scores, uid + 1);
             var reset := uid in e.hotkeys && e.hotkeys[uid] != hotkey;
             e' == Engine(if reset then padded[uid := 0.0] else padded,
                          if reset then e.histories - {uid} else e.histories, e.hotkeys[uid := hotkey])
    ensures Syncs(e, map[uid := hotkey], e')
  {
    OneSlot(|e.scores|, uid, |e'.scores|);
    assert map[uid := hotkey].Keys == map[uid := 0].Keys;
    ReusedOne(e, uid, hotkey);
  }

  lemma ReusedOne(e: Engine, uid: nat, hotkey: string)
    ensures Reused(e, map[uid := hotkey]) == if uid in e.hotkeys && e.hotkeys[uid] != hotkey then {uid} else {}
  {
  }

  lemma RestoredNone(c: Config, numUids: nat, owners: map<nat, string>)
    requires ValidConfig(c)
    ensures Restored(c, numUids, map[], owners) == Engine(seq(numUids, _ => 0.0), map[], owners)
  {
    var e := Restored(c, numUids, map[], owners);
    assert e.histories == map[];
    assert e.scores == seq(numUids, _ => 0.0);
  }

  lemma RestoredOwners(c: Config, numUids: nat, saved: map<nat, seq<Observation>>, a: map<nat, string>,
      b: map<nat, string>)
    requires ValidConfig(c)
    ensures Restored(c, numUids, saved, b) == Restored(c, numUids, saved, a).(hotkeys := b)
  {
    assert Restored(c, numUids, saved, b).scores == Restored(c, numUids, saved, a).scores;
  }

  lemma RestoredAt(c: Config, numUids: nat, saved: map<nat, seq<Observation>>, owners: map<nat, string>, u: nat)
    requires ValidConfig(c)
    ensures var r := Restored(c, numUids, saved, owners);
            && |r.scores| == numUids && r.hotkeys == owners
            && (u in r.histories <==> u in saved && saved[u] != [])
            && (u in r.histories ==> r.histories[u] == LastN(saved[u], c.maxSamples))
            && (u < numUids ==> r.scores[u] == Score(c, if u in r.histories then r.histories[u] else []))
  {
  }

  lemma RestoredStep(c: Config, numUids: nat, done: map<nat, seq<Observation>>, uid: nat, values: seq<Observation>,
      owners: map<nat, string>)
    requires ValidConfig(c) && uid !in done && uid < numUids
    ensures var e, e', kept := Restored(c, numUids, done, owners),
        Restored(c, numUids, done + map[uid := values], owners), LastN(values, c.maxSamples);
            && |e.scores| == numUids
            && e' == if kept == [] then e
                     else e.(histories := e.histories[uid := kept], scores := e.scores[uid := Score(c, kept)])
  {
    hide Score, Restored;
    var e, e', kept := Restored(c, numUids, done, owners), Restored(c, numUids, done + map[uid := values], owners),
        LastN(values, c.maxSamples);
    RestoredAt(c, numUids, done, owners, uid);
    forall u: nat ensures u in e'.histories <==> (u == uid && kept != []) || u in e.histories
                  ensures u in e'.histories && (u == uid || u in e.histories) ==>
                      e'.histories[u] == if u == uid then kept else e.histories[u]
                  ensures u < |e'.scores| && u < |e.scores| && u != uid ==> e'.scores[u] == e.scores[u]
    {
      RestoredAt(c, numUids, done, owners, u);
      RestoredAt(c, numUids, done + map[uid := values], owners, u);
    }
    RestoredAt(c, numUids, done + map[uid := values], owners, uid);
    if kept == [] {
      assert e'.histories == e.histories && e'.scores == e.scores;
    } else {
      assert e'.histories == e.histories[uid := kept];
      assert e'.scores == e.scores[uid := Score(c, kept)];
    }
  }

  lemma RecordsCompose(c: Config, e: Engine, first: map<nat, real>, mid: Engine, second: map<nat, real>, at: real,
      e': Engine)
    requires ValidConfig(c) && first.Keys !! second.Keys
    requires Records(c, e, first, at, mid)
    requires Records(c, mid, second, at, e')
    ensures Records(c, e, first + second, at, e')
  {
    CoversCompose(|e.scores|, first.Keys, |mid.scores|, second.Keys, |e'.scores|);
    assert (first + second).Keys == first.Keys + second.Keys;
    var both := first + second;
    forall u: nat ensures At(e', u) == if u in both then Bump(c, At(e, u), both[u], at) else At(e, u) {
      assert At(mid, u) == if u in first then Bump(c, At(e, u), first[u], at) else At(e, u);
    }
  }

  lemma NotesCompose(e: Engine, first: map<nat, string>, mid: Engine, second: map<nat, string>, e': Engine)
    requires Notes(e, first, mid)
    requires Notes(mid, second, e')
    ensures Notes(e, first + second, e')
  {
    CoversCompose(|e.scores|, first.Keys, |mid.scores|, second.Keys, |e'.scores|);
    assert (first + second).Keys == first.Keys + second.Keys;
    assert e.hotkeys + (first + second) == e.hotkeys + first + second;
    forall u: nat ensures At(e', u) == At(e, u) {
      assert At(mid, u) == At(e, u);
    }
  }

  lemma SyncsCompose(e: Engine, first: map<nat, string>, mid: Engine, second: map<nat, string>, e': Engine)
    requires first.Keys !! second.Keys
    requires Syncs(e, first, mid)
    requires Syncs(mid, second, e')
    ensures Syncs(e, first + second, e')
    ensures Reused(e, first + second) == Reused(e, first) + Reused(mid, second)
  {
    CoversCompose(|e.scores|, first.Keys, |mid.scores|, second.Keys, |e'.scores|);
    var both := first + second;
    assert both.Keys == first.Keys + second.Keys;
    assert e.hotkeys + both == e.hotkeys + first + second;
    assert Reused(e, both) == Reused(e, first) + Reused(mid, second);
    forall u: nat ensures At(e', u) == if u in Reused(e, both) then Cell(None, 0.0) else At(e, u) {
      assert At(mid, u) == if u in Reused(e, first) then Cell(None, 0.0) else At(e, u);
    }
  }

  lemma NotesKeepHistories(e: Engine, known: map<nat, string>, e': Engine)
    requires Notes(e, known, e')
    ensures e'.histories.Keys == e.histories.Keys
  {
    forall u ensures u in e'.histories <==> u in e.histories {
      assert At(e', u) == At(e, u);
    }
  }

  lemma ObservedAfter(c: Config, e: Engine, rewards: map<nat, real>, at: real, e': Engine)
    requires ValidConfig(c)
    requires Records(c, e, rewards, at, e')
    ensures e'.histories.Keys == e.histories.Keys + rewards.Keys
  {
    forall u ensures u in e'.histories <==> u in e.histories || u in rewards {
      assert At(e', u) == if u in rewards then Bump(c, At(e, u), rewards[u], at) else At(e, u);
    }
  }

  // ---- What an update means for each history -----------------------------------------------

  /** A bump is one more observation at the end of the window. */
  lemma BumpGains(c: Config, cell: Cell, payment: real, at: real)
    requires ValidConfig(c)
    ensures var after := Bump(c, cell, payment, at).history;
            after.Some? && Gains(Seen(cell), after.value, Observation(at, if payment < 0.0 then 0.0 else payment),
                                 c.maxSamples)
  {
    hide Score;
  }

  lemma CellAfter(c: Config, e: Engine, known: map<nat, string>, mid: Engine, round: map<nat, real>, at: real,
      e': Engine, u: nat)
    requires ValidConfig(c) && Notes(e, known, mid) && Records(c, mid, round, at, e')
    ensures At(e', u) == if u in round then Bump(c, At(e, u), round[u], at) else At(e, u)
  {
    hide Covers, Bump;
    assert At(mid, u) == At(e, u);
  }

  lemma CellGains(c: Config, e: Engine, payment: real, at: real, e': Engine, u: nat)
    requires ValidConfig(c) && At(e', u) == Bump(c, At(e, u), payment, at)
    ensures Gains(HistoryOf(e, u), HistoryOf(e', u), Observation(at, if payment < 0.0 then 0.0 else payment),
                  c.maxSamples)
  {
    hide Bump, Gains;
    BumpGains(c, At(e, u), payment, at);
  }

  /** `update`, uid by uid: a rewarded uid gains its reward, cut off at zero; with decay, a uid that
      was dispatched and got none gains a zero, and without a list of the dispatched ones so does
      everyone observed before, if there are rewards at all; everyone else keeps history and score. */
  lemma UpdateExactly(c: Config, e: Engine, rewards: map<nat, real>, known: map<nat, string>,
                      dispatched: Option<set<nat>>, at: real, e': Engine, u: nat)
    requires ValidConfig(c) && Updates(c, e, rewards, known, dispatched, at, e')
    ensures var before, after := HistoryOf(e, u), HistoryOf(e', u);
            if u in rewards then
              Gains(before, after, Observation(at, if rewards[u] < 0.0 then 0.0 else rewards[u]), c.maxSamples)
            else if c.decay && (if dispatched.Some? then u in dispatched.value
                                else u in e.histories && rewards != map[]) then
              Gains(before, after, Observation(at, 0.0), c.maxSamples)
            else At(e', u) == At(e, u)
  {
    hide Notes, Records, Bump, Gains;
    var recorded := Recorded(c, e, rewards, dispatched);
    var mid :| Notes(e, known, mid) && Records(c, mid, recorded, at, e');
    CellAfter(c, e, known, mid, recorded, at, e', u);
    if u in recorded {
      CellGains(c, e, recorded[u], at, e', u);
    }
  }
}
