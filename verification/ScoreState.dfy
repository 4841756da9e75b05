/**
 The score file (rlvr/neurons/decentralized.py, _load_scores and _save_scores).

 JSON is taken as already decoded: `Unreadable` stands for every file whose shape or value
 types the loader's checks or conversions reject. Dictionaries arrive as their items, with
 keys already through `int(...)`, so one uid may occur twice under two spellings.
 */
module ScoreState {
  import opened Seqs
  import opened Ranking
  import opened Ledger

  datatype File =
    | Missing
    | Unreadable
    | V1(scores: seq<real>, owners: seq<(int, string)>)
    | V2(numUids: int, windowSeconds: real, maxSamples: int, minSamples: int,
         histories: seq<(int, seq<Observation>)>, owners: seq<(int, string)>)

  datatype Saved = Saved(numUids: nat, histories: map<nat, seq<Observation>>, owners: map<nat, string>)

  // ---- What the loader accepts -----------------------------------------------------------

  /** The finished dictionary is tested: an entry that a later spelling of the same uid
      replaced does not matter. */
  predicate OwnersValid(owners: map<int, string>, numUids: int) {
    forall u :: u in owners ==> 0 <= u < numUids && owners[u] != ""
  }

  /** A dictionary comprehension over the items: later items win. */
  function Dict<V>(items: seq<(int, V)>): (m: map<int, V>) {
    if items == [] then map[]
    else Dict(items[..|items| - 1])[items[|items| - 1].0 := items[|items| - 1].1]
  }

  function Naturals<V>(m: map<int, V>): map<nat, V> {
    map u: nat | u in m :: m[u]
  }

  predicate HistoryValid(history: seq<Observation>, storedMax: int) {
    && 0 < |history| <= storedMax
    && forall i :: 0 <= i < |history| ==> history[i].at >= 0.0 && history[i].payment >= 0.0
  }

  predicate HistoriesValid(items: seq<(int, seq<Observation>)>, numUids: int, storedMax: int) {
    && (forall i, j :: 0 <= i < j < |items| ==> items[i].0 != items[j].0)
    && (forall i :: 0 <= i < |items| ==> 0 <= items[i].0 < numUids && HistoryValid(items[i].1, storedMax))
  }

  /** Every positive history names its owner. */
  predicate PositiveOwned(histories: map<nat, seq<Observation>>, owners: map<nat, string>) {
    forall u :: u in histories && u !in owners ==> Sum(Payments(histories[u])) <= 0.0
  }

  function Trimmed(c: Config, histories: map<nat, seq<Observation>>): map<nat, seq<Observation>> {
    map u | u in histories :: LastN(histories[u], c.maxSamples)
  }

  /** A window filled with copies of each positive scalar score. */
  function Migrated(c: Config, scores: seq<real>, owned: map<nat, string>, now: real): map<nat, seq<Observation>> {
    map u: nat | u < |scores| && u in owned && scores[u] > 0.0 :: seq(c.minSamples, _ => Observation(now, scores[u]))
  }

  /** The state a file stands for, or None when the loader refuses it. */
  function Accepted(c: Config, f: File, now: real): Option<Saved> {
    match f
    case Missing => None
    case Unreadable => None
    case V1(scores, owners) =>
      if (exists i :: 0 <= i < |scores| && scores[i] < 0.0) || !OwnersValid(Dict(owners), |scores|) then None
      else
        var owned := Naturals(Dict(owners));
        if exists u: nat :: u < |scores| && scores[u] > 0.0 && u !in owned then None
        else Some(Saved(|scores|, Migrated(c, scores, owned, now), owned))
    case V2(numUids, windowSeconds, storedMax, storedMin, histories, owners) =>
      if numUids < 0 || !OwnersValid(Dict(owners), numUids) || windowSeconds <= 0.0 || storedMax < 1
          || !(1 <= storedMin <= storedMax)
         || !HistoriesValid(histories, numUids, storedMax) then None
      else
        var owned, kept := Naturals(Dict(owners)), Trimmed(c, Naturals(Dict(histories)));
        if PositiveOwned(kept, owned) then Some(Saved(numUids, kept, owned)) else None
  }

  /** No file with a history the engine could not have written is accepted: every uid has a slot and
      occurs once, no window is empty or longer than the file says, and nothing in it is negative; a
      version 1 file has no negative score and names the owner of every positive one. */
  lemma AcceptedIsSound(c: Config, f: File, now: real)
    requires Accepted(c, f, now).Some?
    ensures f.V2? ==>
              && f.windowSeconds > 0.0 && 1 <= f.minSamples <= f.maxSamples
              && (forall i, j :: 0 <= i < j < |f.histories| ==> f.histories[i].0 != f.histories[j].0)
              && forall i :: 0 <= i < |f.histories| ==>
                   && 0 <= f.histories[i].0 < f.numUids && 0 < |f.histories[i].1| <= f.maxSamples
                   && forall k :: 0 <= k < |f.histories[i].1| ==>
                        f.histories[i].1[k].at >= 0.0 && f.histories[i].1[k].payment >= 0.0
    ensures f.V1? ==> forall u: nat :: u < |f.scores| ==>
              f.scores[u] >= 0.0 && (f.scores[u] > 0.0 ==> u in Accepted(c, f, now).value.owners)
    ensures f.V1? || f.V2?
    ensures var s := Accepted(c, f, now).value; forall u :: u in s.owners ==> u < s.numUids && s.owners[u] != ""
  {
  }

  // ---- The loader ---------------------------------------------------------------------------

  lemma {:induction false} DictKeys<V>(items: seq<(int, V)>)
    ensures forall i :: 0 <= i < |items| ==> items[i].0 in Dict(items)
    ensures forall u :: u in Dict(items) ==> exists i :: 0 <= i < |items| && items[i] == (u, Dict(items)[u])
  {
    if items != [] {
      var n := |items| - 1;
      DictKeys(items[..n]);
      forall u | u in Dict(items) ensures exists i :: 0 <= i < |items| && items[i] == (u, Dict(items)[u]) {
        if u == items[n].0 {
          assert items[n] == (u, Dict(items)[u]);
        } else {
          var i :| 0 <= i < n && items[..n][i] == (u, Dict(items[..n])[u]);
          assert items[i] == (u, Dict(items)[u]);
        }
      }
    }
  }

  lemma NextItem(items: seq<(int, seq<Observation>)>, i: nat, numUids: int, storedMax: int)
    requires i < |items|
    ensures Dict(items[..i + 1]) == Dict(items[..i])[items[i].0 := items[i].1]
    ensures HistoriesValid(items[..i + 1], numUids, storedMax) <==>
            && HistoriesValid(items[..i], numUids, storedMax)
            && items[i].0 !in Dict(items[..i]) && 0 <= items[i].0 < numUids && HistoryValid(items[i].1, storedMax)
    ensures HistoriesValid(items, numUids, storedMax) ==> HistoriesValid(items[..i + 1], numUids, storedMax)
  {
    assert items[..i + 1][..i] == items[..i];
    assert Dict(items[..i + 1]) == Dict(items[..i])[items[i].0 := items[i].1];
    hide *;
    OneMoreValid(items, i, numUids, storedMax);
    KeyIsNew(items, i);
  }

  ghost predicate NewKey(items: seq<(int, seq<Observation>)>, i: nat)
    requires i < |items|
  {
    forall j :: 0 <= j < i ==> items[j].0 != items[i].0
  }

  lemma KeyIsNew(items: seq<(int, seq<Observation>)>, i: nat)
    requires i < |items|
    ensures NewKey(items, i) <==> items[i].0 !in Dict(items[..i])
  {
    var before, u := items[..i], items[i].0;
    DictKeys(before);
    hide Dict;
    if u in Dict(before) {
      var j :| 0 <= j < |before| && before[j] == (u, Dict(before)[u]);
      assert items[j].0 == u;
    } else {
      forall j | 0 <= j < i ensures items[j].0 != u {
        assert before[j].0 in Dict(before);
      }
    }
  }

  lemma OneMoreValid(items: seq<(int, seq<Observation>)>, i: nat, numUids: int, storedMax: int)
    requires i < |items|
    ensures HistoriesValid(items[..i + 1], numUids, storedMax) <==>
            && HistoriesValid(items[..i], numUids, storedMax)
            && NewKey(items, i) && 0 <= items[i].0 < numUids && HistoryValid(items[i].1, storedMax)
    ensures HistoriesValid(items, numUids, storedMax) ==> HistoriesValid(items[..i + 1], numUids, storedMax)
  {
    hide HistoryValid;
    assert items[..i + 1] == items[..i] + [items[i]];
  }

  /** The loop over `raw_histories`. */
  method ReadHistories(items: seq<(int, seq<Observation>)>, numUids: int, storedMax: int)
      returns (r: Option<map<int, seq<Observation>>>)
    ensures r == if HistoriesValid(items, numUids, storedMax) then Some(Dict(items)) else None
  {
    var histories: map<int, seq<Observation>> := map[];
    assert Dict(items[..0]) == map[];
    assert HistoriesValid(items[..0], numUids, storedMax);
    hide HistoriesValid, HistoryValid, Dict;
    for i := 0 to |items|
      invariant HistoriesValid(items[..i], numUids, storedMax)
      invariant histories == Dict(items[..i])
    {
      NextItem(items, i, numUids, storedMax);
      var (uid, values) := items[i];
      if uid in histories || uid < 0 || uid >= numUids {
        return None;
      }
      if !HistoryValid(values, storedMax) {
        return None;
      }
      histories := histories[uid := values];
    }
    assert items[..|items|] == items;
    return Some(histories);
  }

  method LoadV1(engine: EvalEngine, scores: seq<real>, owners: seq<(int, string)>, now: real) returns (restored: bool)
    requires ValidConfig(engine.config)
    modifies engine
    ensures Loads(engine.config, old(engine.State()), V1(scores, owners), now, restored, engine.State())
  {
    hide Restored, Dict, Naturals, OwnersValid;
    if (exists i :: 0 <= i < |scores| && scores[i] < 0.0) || !OwnersValid(Dict(owners), |scores|) {
      return false;
    }
    var owned := Naturals(Dict(owners));
    if exists u: nat :: u < |scores| && scores[u] > 0.0 && u !in owned {
      return false;
    }
    engine.Restore(|scores|, Migrated(engine.config, scores, owned, now), owned);
    return true;
  }

  method LoadV2(engine: EvalEngine, f: File, now: real) returns (restored: bool)
    requires ValidConfig(engine.config) && f.V2?
    modifies engine
    ensures Loads(engine.config, old(engine.State()), f, now, restored, engine.State())
  {
    hide Restored, Dict, Naturals, OwnersValid, HistoriesValid, Trimmed, PositiveOwned;
    if f.numUids < 0 || !OwnersValid(Dict(f.owners), f.numUids) {
      return false;
    }
    var owned := Naturals(Dict(f.owners));
    if f.windowSeconds <= 0.0 || f.maxSamples < 1 || !(1 <= f.minSamples <= f.maxSamples) {
      return false;
    }
    var read := ReadHistories(f.histories, f.numUids, f.maxSamples);
    if read.None? {
      return false;
    }
    var histories := Trimmed(engine.config, Naturals(read.value));
    if !PositiveOwned(histories, owned) {
      return false;
    }
    KeptInRange(engine.config, f);
    engine.Restore(f.numUids, histories, owned);
    return true;
  }

  lemma KeptInRange(c: Config, f: File)
    requires f.V2? && HistoriesValid(f.histories, f.numUids, f.maxSamples)
    ensures forall u :: u in Trimmed(c, Naturals(Dict(f.histories))) ==> u < f.numUids
  {
    DictKeys(f.histories);
  }

  /** What a load leaves behind: the accepted state, or the engine as it was. */
  ghost predicate Loads(c: Config, before: Engine, f: File, now: real, restored: bool, after: Engine)
    requires ValidConfig(c)
  {
    match Accepted(c, f, now)
    case None => !restored && after == before
    case Some(s) => restored && after == Restored(c, s.numUids, s.histories, s.owners)
  }

  method LoadScores(engine: EvalEngine, f: File, now: real) returns (restored: bool)
    requires ValidConfig(engine.config)
    modifies engine
    ensures Loads(engine.config, old(engine.State()), f, now, restored, engine.State())
  {
    match f
    case Missing => return false;
    case Unreadable => return false;
    case V1(scores, owners) => restored := LoadV1(engine, scores, owners, now);
    case V2(_, _, _, _, _, _) => restored := LoadV2(engine, f, now);
  }

  // ---- The writer ----------------------------------------------------------------------------

  /** The items of a dictionary, in some order. */
  ghost predicate ItemsOf<V(!new)>(items: seq<(int, V)>, m: map<nat, V>) {
    && (forall i, j :: 0 <= i < j < |items| ==> items[i].0 != items[j].0)
    && (forall i :: 0 <= i < |items| ==> items[i].0 >= 0 && items[i].0 in m && m[items[i].0] == items[i].1)
    && (forall u :: u in m ==> exists i :: 0 <= i < |items| && items[i].0 == u)
  }

  method Items<V(!new)>(m: map<nat, V>) returns (items: seq<(int, V)>)
    ensures ItemsOf(items, m)
  {
    items := [];
    var left := m.Keys;
    while left != {}
      invariant left <= m.Keys
      invariant forall i :: 0 <= i < |items| ==>
          items[i].0 >= 0 && items[i].0 in m && items[i].0 !in left && m[items[i].0] == items[i].1
      invariant forall u :: u in m && u !in left ==> exists i :: 0 <= i < |items| && items[i].0 == u
      invariant forall i, j :: 0 <= i < j < |items| ==> items[i].0 != items[j].0
      decreases |left|
    {
      var uid :| uid in left;
      ghost var before := items;
      items := items + [(uid, m[uid])];
      left := left - {uid};
      assert items[|before|].0 == uid;
      assert forall i :: 0 <= i < |before| ==> items[i] == before[i];
    }
  }

  ghost predicate Written(c: Config, e: Engine, f: File) {
    && f.V2?
    && f.numUids == |e.scores| && f.windowSeconds > 0.0
    && f.maxSamples == c.maxSamples && f.minSamples == c.minSamples
    && ItemsOf(f.histories, e.histories)
    && ItemsOf(f.owners, e.hotkeys)
  }

  method SaveScores(engine: EvalEngine, windowSeconds: real) returns (f: File)
    requires windowSeconds > 0.0
    ensures Written(engine.config, engine.State(), f)
  {
    var histories := Items(engine.histories);
    var owners := Items(engine.hotkeys);
    f := V2(|engine.scores|, windowSeconds, engine.config.maxSamples, engine.config.minSamples, histories, owners);
  }

  // ---- Restarts ----------------------------------------------------------------------------

  lemma {:induction false} DictOfItems<V(!new)>(items: seq<(int, V)>, m: map<nat, V>)
    requires ItemsOf(items, m)
    ensures Naturals(Dict(items)) == m
  {
    DictKeys(items);
    var d := Naturals(Dict(items));
    forall u: nat ensures u in d <==> u in m {
      if u in m {
        var i :| 0 <= i < |items| && items[i].0 == u;
        assert items[i].0 in Dict(items);
      }
    }
    forall u | u in m ensures d[u] == m[u] {
      var i :| 0 <= i < |items| && items[i] == (u as int, Dict(items)[u]);
    }
  }

  /** What the engine's own methods guarantee of its state. */
  ghost predicate Sound(c: Config, e: Engine)
    requires ValidConfig(c)
  {
    && (forall u :: u in e.histories ==> u < |e.scores| && HistoryValid(e.histories[u], c.maxSamples))
    && (forall u: nat :: u < |e.scores| ==> e.scores[u] == Score(c, if u in e.histories then e.histories[u] else []))
  }

  /** Which states survive a restart: exactly those where every tracked hotkey is a
      non-empty name of an existing slot and every history that is still positive after
      trimming has one. */
  predicate Restorable(c: Config, e: Engine) {
    && (forall u :: u in e.hotkeys ==> u < |e.scores| && e.hotkeys[u] != "")
    && PositiveOwned(Trimmed(c, e.histories), e.hotkeys)
  }

  lemma SavedThenLoaded(c: Config, c': Config, e: Engine, f: File, now: real)
    requires ValidConfig(c) && ValidConfig(c') && Sound(c, e)
    requires Written(c, e, f)
    ensures Accepted(c', f, now).Some? <==> Restorable(c', e)
    ensures Accepted(c', f, now).Some? ==>
        Accepted(c', f, now).value == Saved(|e.scores|, Trimmed(c', e.histories), e.hotkeys)
  {
    DictOfItems(f.histories, e.histories);
    DictOfItems(f.owners, e.hotkeys);
    assert HistoriesValid(f.histories, f.numUids, f.maxSamples);
    OwnersOfItems(f.owners, e.hotkeys, f.numUids);
  }

  lemma OwnersOfItems(items: seq<(int, string)>, m: map<nat, string>, n: int)
    requires ItemsOf(items, m)
    ensures OwnersValid(Dict(items), n) <==> forall u :: u in m ==> u < n && m[u] != ""
  {
    var d := Dict(items);
    DictKeys(items);
    DictOfItems(items, m);
    forall u | u in d ensures u >= 0 && u in Naturals(d) && Naturals(d)[u] == d[u] {
      var i :| 0 <= i < |items| && items[i] == (u, d[u]);
    }
    hide Dict;
    forall u | u in m ensures u as int in d && d[u as int] == m[u] {
      assert u in Naturals(d);
    }
  }

  /** Restarting with the same sample bounds restores a restorable state exactly. */
  lemma RestartIsExact(c: Config, e: Engine, f: File, now: real)
    requires ValidConfig(c) && Sound(c, e) && Restorable(c, e)
    requires Written(c, e, f)
    ensures Accepted(c, f, now).Some?
    ensures var s := Accepted(c, f, now).value;
            Restored(c, s.numUids, s.histories, s.owners) == e
  {
    SavedThenLoaded(c, c, e, f, now);
    RestoringChangesNothing(c, e);
  }

  lemma NothingToTrim(c: Config, e: Engine)
    requires ValidConfig(c) && Sound(c, e)
    ensures Trimmed(c, e.histories) == e.histories
    ensures forall u :: u in e.histories ==>
        e.histories[u] != [] && LastN(e.histories[u], c.maxSamples) == e.histories[u]
  {
    hide Score;
    forall u | u in e.histories
      ensures e.histories[u] != [] && LastN(e.histories[u], c.maxSamples) == e.histories[u]
    {
      assert HistoryValid(e.histories[u], c.maxSamples);
    }
  }

  lemma RestoringChangesNothing(c: Config, e: Engine)
    requires ValidConfig(c) && Sound(c, e)
    ensures Restored(c, |e.scores|, Trimmed(c, e.histories), e.hotkeys) == e
  {
    NothingToTrim(c, e);
    var r := Restored(c, |e.scores|, e.histories, e.hotkeys);
    hide Restored, Score, Trimmed, LastN, HistoryValid;
    forall u: nat ensures u in r.histories <==> u in e.histories
                  ensures u in e.histories && u in r.histories ==> r.histories[u] == e.histories[u]
                  ensures u < |e.scores| && u < |r.scores| ==> r.scores[u] == e.scores[u]
    {
      RestoredAt(c, |e.scores|, e.histories, e.hotkeys, u);
    }
    RestoredAt(c, |e.scores|, e.histories, e.hotkeys, 0);
    hide Sound;
    assert r.histories == e.histories;
    assert r.scores == e.scores;
  }

  /** A different cap keeps the newest observations of every history, with matching scores. */
  lemma RestartUnderAnotherCap(c: Config, c': Config, e: Engine, f: File, now: real, u: nat)
    requires ValidConfig(c) && ValidConfig(c') && Sound(c, e) && Restorable(c', e)
    requires Written(c, e, f)
    ensures Accepted(c', f, now).Some?
    ensures var s := Accepted(c', f, now).value;
            var r := Restored(c', s.numUids, s.histories, s.owners);
            && r.hotkeys == e.hotkeys && |r.scores| == |e.scores|
            && (u in r.histories <==> u in e.histories)
            && (u in e.histories ==> r.histories[u] == LastN(e.histories[u], c'.maxSamples))
            && (u < |r.scores| ==> r.scores[u] == Score(c', if u in r.histories then r.histories[u] else []))
  {
    SavedThenLoaded(c, c', e, f, now);
    var s := Accepted(c', f, now).value;
    if u in e.histories {
      assert s.histories[u] == LastN(e.histories[u], c'.maxSamples);
      assert s.histories[u] != [];
    }
  }

  lemma {:induction false} SumOfCopies(x: real, n: nat, s: seq<real>)
    requires |s| == n && forall i :: 0 <= i < n ==> s[i] == x
    ensures Sum(s) == n as real * x
  {
    if n != 0 {
      SumOfCopies(x, n - 1, s[..n - 1]);
    }
  }

  /** A version 1 file keeps every score: a window filled with copies of the old scalar. */
  lemma MigrationKeepsScores(c: Config, f: File, now: real)
    requires ValidConfig(c)
    requires f.V1? && Accepted(c, f, now).Some?
    ensures var s := Accepted(c, f, now).value;
            Restored(c, s.numUids, s.histories, s.owners).scores == f.scores
  {
    var s := Accepted(c, f, now).value;
    var r := Restored(c, s.numUids, s.histories, s.owners);
    forall u: nat | u < |f.scores| ensures r.scores[u] == f.scores[u] {
      RestoredAt(c, s.numUids, s.histories, s.owners, u);
      if f.scores[u] > 0.0 {
        FullWindow(c, f.scores[u], now, s.histories[u]);
      } else {
        assert u !in r.histories && f.scores[u] == 0.0;
      }
    }
  }

  lemma FullWindow(c: Config, x: real, now: real, copies: seq<Observation>)
    requires ValidConfig(c)
    requires |copies| == c.minSamples && forall i :: 0 <= i < |copies| ==> copies[i] == Observation(now, x)
    ensures copies != [] && LastN(copies, c.maxSamples) == copies && Score(c, copies) == x
  {
    SumOfCopies(x, c.minSamples, Payments(copies));
    Average(c.minSamples as real, x);
  }

  lemma Average(n: real, x: real)
    requires n > 0.0
    ensures n * x / n == x
  {
  }

  /** After a restart the first refresh of the metagraph resets a restored history exactly
      when the file named an owner and the chain names another. A
      history the file left without an owner is therefore handed to whoever holds the slot;
      the loader lets that happen only for histories that sum to zero. */
  lemma WhatARestartHandsOver(c: Config, f: File, now: real, meta: map<nat, string>, e': Engine, u: nat)
    requires ValidConfig(c) && Accepted(c, f, now).Some?
    requires var s := Accepted(c, f, now).value; Syncs(Restored(c, s.numUids, s.histories, s.owners), meta, e')
    ensures var s := Accepted(c, f, now).value;
            && (u in e'.histories <==>
                  u in s.histories && s.histories[u] != [] && !(u in s.owners && u in meta && s.owners[u] != meta[u]))
            && (u in e'.histories && u !in s.owners ==> Sum(Payments(s.histories[u])) <= 0.0)
  {
    var s := Accepted(c, f, now).value;
    var r := Restored(c, s.numUids, s.histories, s.owners);
    assert At(e', u) == if u in Reused(r, meta) then Cell(None, 0.0) else At(r, u);
    assert u in r.histories <==> u in s.histories && s.histories[u] != [];
  }

  /** Such a file: one slot with one observation of 0 and no owner. It is accepted, and
      whatever hotkey the chain then names for the slot keeps the observation. */
  lemma AnUnownedHistoryIsHandedOver(c: Config, now: real, newcomer: string, e': Engine)
    requires ValidConfig(c)
    requires Syncs(Restored(c, 1, map[0 := [Observation(0.0, 0.0)]], map[]), map[0 := newcomer], e')
    ensures Accepted(c, V2(1, 1.0, 1, 1, [(0, [Observation(0.0, 0.0)])], []), now)
            == Some(Saved(1, map[0 := [Observation(0.0, 0.0)]], map[]))
    ensures e'.hotkeys[0] == newcomer && 0 in e'.histories && e'.histories[0] == [Observation(0.0, 0.0)]
  {
    var history := [Observation(0.0, 0.0)];
    var items: seq<(int, seq<Observation>)> := [(0, history)];
    assert items[..0] == [] && Dict(items) == map[0 := history];
    assert HistoriesValid(items, 1, 1);
    assert LastN(history, c.maxSamples) == history;
    assert Trimmed(c, Naturals(Dict(items))) == map[0 := history];
    assert Payments(history) == [0.0] && Sum([0.0]) == 0.0;
    var owners: seq<(int, string)> := [];
    assert Naturals(Dict(owners)) == map[];
    var r := Restored(c, 1, map[0 := history], map[]);
    assert At(e', 0) == At(r, 0);
    RestoredAt(c, 1, map[0 := history], map[], 0);
  }
}
