/**
 The engine against a simple unbounded record.

 `Log` keeps, for every uid, each observation ever made since the slot last changed hands,
 together with the hotkey the metagraph listed when it was made. The engine keeps only
 bounded histories, cached scores and the hotkeys it happened to see; over every run of
 metagraph refreshes, completed rounds (rlvr/neurons/decentralized.py, round_callback) and
 restarts (_save_scores, _load_scores) it is shown to hold exactly the tail of that record.
 */
module ScoreLog {
  import opened Seqs
  import opened Ledger
  import opened Evaluations
  import opened Scoring
  import opened Ranking
  import opened ScoreState

  datatype Entry = Entry(at: real, payment: real, holder: string)

  /** `meta[u]` is the hotkey the chain lists for uid u. */
  datatype Log = Log(meta: seq<string>, entries: map<nat, seq<Entry>>)

  function EntriesOf(log: Log, u: nat): seq<Entry> {
    if u in log.entries then log.entries[u] else []
  }

  /** A refreshed metagraph: a slot keeps its record only if the same hotkey still has it. */
  function LogRefresh(log: Log, meta: seq<string>): Log {
    Log(meta, map u | u in log.entries && u < |meta| && u < |log.meta| && meta[u] == log.meta[u] :: log.entries[u])
  }

  /** A completed round: graded uids gain their payment, uids observed before that are not
      serving gain a zero, everyone else gains nothing. */
  function LogRound(log: Log, decay: bool, items: seq<MinerEvaluation>, active: map<nat, string>, p: SpeedPolicy,
      at: real): Log {
    var graded := Graded(items, active, p);
    Log(log.meta,
        map u | u in log.entries.Keys + graded.Keys && u < |log.meta| ::
          EntriesOf(log, u) +
          if u in graded then [Entry(at, Clamp(graded[u]), log.meta[u])]
          else if decay && u !in active then [Entry(at, 0.0, log.meta[u])]
          else [])
  }

  function Observations(entries: seq<Entry>): (r: seq<Observation>)
    ensures |r| == |entries|
  {
    seq(|entries|, i requires 0 <= i < |entries| => Observation(entries[i].at, entries[i].payment))
  }

  predicate OwnEntry(entry: Entry, holder: string) {
    entry.holder == holder && entry.payment >= 0.0 && entry.at >= 0.0
  }

  /** Every entry was made while its uid was listed under the hotkey listed now. */
  ghost predicate OwnEntries(log: Log) {
    forall u :: u in log.entries ==>
      && u < |log.meta| && log.entries[u] != []
      && forall i :: 0 <= i < |log.entries[u]| ==> OwnEntry(log.entries[u][i], log.meta[u])
  }

  /** What the engine must hold for one uid. */
  function Tail(c: Config, log: Log, u: nat): Cell
    requires ValidConfig(c)
  {
    var kept := LastN(Observations(EntriesOf(log, u)), c.maxSamples);
    Cell(if u in log.entries then Some(kept) else None, Score(c, kept))
  }

  ghost predicate Refines(c: Config, e: Engine, log: Log)
    requires ValidConfig(c)
  {
    && OwnEntries(log)
    && InRange(e)
    && (forall u :: At(e, u) == Tail(c, log, u))
    && Registered(e, log)
  }

  // ---- Runs ---------------------------------------------------------------------------

  /** `Restart` is a new process with an empty engine of `numUids` slots that loads `file`: the
      file saved after event `saved`, or any file the loader refuses. */
  datatype Event =
    | Refresh(meta: seq<string>)
    | Round(items: seq<MinerEvaluation>, active: map<nat, string>, speed: SpeedPolicy, at: real)
    | Restart(saved: nat, file: File, now: real, numUids: nat)

  function AsMap(meta: seq<string>): map<nat, string> {
    map u: nat | u < |meta| :: meta[u]
  }

  /** The callback resizes and syncs to the current metagraph, then scores a round with the
      hotkeys of miners listed there. */
  ghost predicate EngineStep(c: Config, e: Engine, meta: seq<string>, ev: Event, e': Engine)
    requires ValidConfig(c)
  {
    match ev
    case Refresh(meta') => Syncs(Resized(e, |meta'|), AsMap(meta'), e')
    case Round(items, active, p, at) =>
      && at >= 0.0
      && (forall u :: u in active ==> u < |meta| && active[u] == meta[u])
      && Applies(c, e, items, active, p, at, e')
    case Restart(_, _, _, _) => false
  }

  function LogStep(log: Log, decay: bool, ev: Event): Log {
    match ev
    case Refresh(meta) => LogRefresh(log, meta)
    case Round(items, active, p, at) => LogRound(log, decay, items, active, p, at)
    case Restart(_, _, _, _) => log
  }

  function EmptyEngine(numUids: nat): Engine {
    Engine(seq(numUids, _ => 0.0), map[], map[])
  }

  const NOTHING: Log := Log([], map[])

  /** What loading leaves in an empty engine. */
  function Loaded(c: Config, f: File, now: real, numUids: nat): Engine
    requires ValidConfig(c)
  {
    var state := Accepted(c, f, now);
    if state.None? then EmptyEngine(numUids)
        else Restored(c, state.value.numUids, state.value.histories, state.value.owners)
  }

  lemma RefinesRefresh(c: Config, e: Engine, log: Log, meta: seq<string>, e': Engine)
    requires ValidConfig(c) && Refines(c, e, log)
    requires Syncs(Resized(e, |meta|), AsMap(meta), e')
    ensures Refines(c, e', LogRefresh(log, meta))
  {
    var n, r, log' := |meta|, Resized(e, |meta|), LogRefresh(log, meta);
    var current := AsMap(meta);
    assert |r.scores| == n;
    assert Reaches(n, n, current.Keys);
    forall u: nat ensures At(e', u) == Tail(c, log', u) {
      assert At(e, u) == Tail(c, log, u);
      if u < n {
        assert At(r, u) == At(e, u);
        assert u in Reused(r, current) <==> u in e.hotkeys && e.hotkeys[u] != meta[u];
      } else {
        assert u in e.histories ==> u < |e.scores|;
        assert At(r, u) == Cell(None, 0.0);
      }
    }
    forall u | u in e'.histories ensures u < |e'.scores| {
      assert At(e', u) == if u in Reused(r, current) then Cell(None, 0.0) else At(r, u);
    }
    forall u | u in e'.hotkeys ensures u < |e'.scores| && u < n && e'.hotkeys[u] == meta[u] {
      assert u in current || u in r.hotkeys;
    }
  }

  lemma RefinesRound(c: Config, e: Engine, log: Log, items: seq<MinerEvaluation>, active: map<nat, string>,
                     p: SpeedPolicy, at: real, e': Engine)
    requires ValidConfig(c) && Refines(c, e, log) && at >= 0.0
    requires forall u :: u in active ==> u < |log.meta| && active[u] == log.meta[u]
    requires Applies(c, e, items, active, p, at, e')
    ensures Refines(c, e', LogRound(log, c.decay, items, active, p, at))
  {
    hide Records, Notes, Applies, Graded, Score, Appended;
    var log' := LogRound(log, c.decay, items, active, p, at);
    var round := OneRound(c, e, items, active, p);
    var known, mid := RoundMovesOneSlot(c, e, items, active, p, at, e');
    NotesKeepHistories(e, known, mid);
    ObservedAfter(c, mid, round, at, e');
    SameObserved(c, e, log);
    LogRoundOwns(c, e, log, items, active, p, at);
    NotesThenRecords(c, e, known, mid, round, at, e');
    RegistryHolds(e, log, known, round, e', log');
    forall u: nat ensures At(e', u) == Tail(c, log', u) {
      assert At(e, u) == Tail(c, log, u);
      RoundCell(c, e, log, items, active, p, at, u);
    }
    hide At, Tail, LogRound, OneRound;
  }

  /** The part of `Refines` that is about tracked hotkeys and vector bounds. */
  ghost predicate Registered(e: Engine, log: Log) {
    && (forall u :: u in log.entries ==> u in e.hotkeys)
    && (forall u :: u in e.hotkeys ==> u < |e.scores| && u < |log.meta| && e.hotkeys[u] == log.meta[u])
  }

  lemma RegistryHolds(e: Engine, log: Log, known: map<nat, string>, round: map<nat, real>, e': Engine, log': Log)
    requires InRange(e) && Registered(e, log)
    requires e'.hotkeys == e.hotkeys + known && |e.scores| <= |e'.scores|
    requires e'.histories.Keys == e.histories.Keys + round.Keys
    requires forall u :: u in known || u in round ==> u < |e'.scores|
    requires forall u :: u in known ==> u < |log.meta| && known[u] == log.meta[u]
    requires log'.meta == log.meta && log'.entries.Keys == log.entries.Keys + known.Keys
    ensures InRange(e') && Registered(e', log')
  {
    forall u | u in e'.histories ensures u < |e'.scores| {
      assert u in round.Keys || u in e.histories.Keys;
    }
    forall u | u in log'.entries ensures u in e'.hotkeys {
      assert u in log.entries.Keys || u in known.Keys;
    }
  }

  /** Noting hotkeys first changes nothing about what is recorded. */
  lemma NotesThenRecords(c: Config, e: Engine, known: map<nat, string>, mid: Engine, round: map<nat, real>, at: real,
      e': Engine)
    requires ValidConfig(c)
    requires Notes(e, known, mid) && Records(c, mid, round, at, e')
    ensures forall u :: At(e', u) == if u in round then Bump(c, At(e, u), round[u], at) else At(e, u)
    ensures e'.hotkeys == e.hotkeys + known
    ensures forall u :: u in known || u in round ==> u < |e'.scores|
    ensures |e.scores| <= |e'.scores|
  {
    forall u: nat ensures At(e', u) == if u in round then Bump(c, At(e, u), round[u], at) else At(e, u) {
      assert At(mid, u) == At(e, u);
    }
    assert forall u :: u in known ==> u in known.Keys;
    assert forall u :: u in round ==> u in round.Keys;
  }

  lemma LogRoundOwns(c: Config, e: Engine, log: Log, items: seq<MinerEvaluation>, active: map<nat, string>,
      p: SpeedPolicy, at: real)
    requires ValidConfig(c) && Refines(c, e, log) && at >= 0.0
    requires forall u :: u in active ==> u < |log.meta|
    ensures OwnEntries(LogRound(log, c.decay, items, active, p, at))
    ensures LogRound(log, c.decay, items, active, p, at).entries.Keys == log.entries.Keys
        + Graded(items, active, p).Keys
    ensures Graded(items, active, p).Keys <= active.Keys
  {
    hide Graded;
    GradedAreActive(items, active, p);
  }

  /** A round on the record and a round on the engine's cell for u are the same append. */
  lemma RoundCell(c: Config, e: Engine, log: Log, items: seq<MinerEvaluation>, active: map<nat, string>,
      p: SpeedPolicy, at: real, u: nat)
    requires ValidConfig(c)
    requires e.histories.Keys == log.entries.Keys
    requires forall v :: v in log.entries || v in active ==> v < |log.meta|
    ensures var round := OneRound(c, e, items, active, p);
            Tail(c, LogRound(log, c.decay, items, active, p, at), u)
            == if u in round then Bump(c, Tail(c, log, u), round[u], at) else Tail(c, log, u)
  {
    hide Graded, Score, Appended;
    GradedAreActive(items, active, p);
    var log', round := LogRound(log, c.decay, items, active, p, at), OneRound(c, e, items, active, p);
    if u in round {
      var entry := Entry(at, Clamp(round[u]), log.meta[u]);
      assert EntriesOf(log', u) == EntriesOf(log, u) + [entry];
      TailGrows(c, EntriesOf(log, u), entry);
      ClampTwice(c, LastN(Observations(EntriesOf(log, u)), c.maxSamples), round[u], at);
      assert u !in log.entries ==> EntriesOf(log, u) == [];
    } else {
      assert EntriesOf(log', u) == EntriesOf(log, u);
    }
  }

  lemma ClampTwice(c: Config, history: seq<Observation>, reward: real, at: real)
    ensures Appended(c, history, Clamp(reward), at) == Appended(c, history, reward, at)
  {
  }

  lemma SameObserved(c: Config, e: Engine, log: Log)
    requires ValidConfig(c) && Refines(c, e, log)
    ensures e.histories.Keys == log.entries.Keys
  {
    forall u ensures u in e.histories <==> u in log.entries {
      assert At(e, u) == Tail(c, log, u);
    }
  }

  /** Trimming after every append is the same as trimming once at the end. */
  lemma TailGrows(c: Config, entries: seq<Entry>, entry: Entry)
    requires ValidConfig(c) && entry.payment >= 0.0
    ensures LastN(Observations(entries + [entry]), c.maxSamples)
            == Appended(c, LastN(Observations(entries), c.maxSamples), entry.payment, entry.at)
  {
    assert Observations(entries + [entry]) == Observations(entries) + [Observation(entry.at, entry.payment)];
  }

  /** One event of a run. A restart goes back to the record of the file it loads. */
  ghost predicate Steps(c: Config, events: seq<Event>, engines: seq<Engine>, logs: seq<Log>, i: nat)
    requires ValidConfig(c) && |engines| == |events| + 1 && |logs| == |events| + 1 && i < |events|
  {
    match events[i]
    case Restart(saved, f, now, numUids) =>
      && engines[i + 1] == Loaded(c, f, now, numUids)
      && if Accepted(c, f, now).None? then logs[i + 1] == NOTHING
         else saved <= i && Written(c, engines[saved], f) && logs[i + 1] == logs[saved]
    case _ =>
      && EngineStep(c, engines[i], logs[i].meta, events[i], engines[i + 1])
      && logs[i + 1] == LogStep(logs[i], c.decay, events[i])
  }

  /** A run from an engine that has observed nothing. */
  ghost predicate Run(c: Config, events: seq<Event>, engines: seq<Engine>, logs: seq<Log>)
    requires ValidConfig(c)
  {
    && |engines| == |events| + 1 && |logs| == |events| + 1
    && engines[0] == EmptyEngine(|engines[0].scores|)
    && logs[0] == NOTHING
    && forall i :: 0 <= i < |events| ==> Steps(c, events, engines, logs, i)
  }

  lemma RunPrefix(c: Config, events: seq<Event>, engines: seq<Engine>, logs: seq<Log>, n: nat)
    requires ValidConfig(c) && Run(c, events, engines, logs) && n <= |events|
    ensures Run(c, events[..n], engines[..n + 1], logs[..n + 1])
  {
    hide EngineStep, LogStep, Loaded, Written;
    var events', engines', logs' := events[..n], engines[..n + 1], logs[..n + 1];
    forall i | 0 <= i < n ensures Steps(c, events', engines', logs', i) {
      assert Steps(c, events, engines, logs, i);
    }
  }

  lemma NothingRefines(c: Config, numUids: nat)
    requires ValidConfig(c)
    ensures Refines(c, EmptyEngine(numUids), NOTHING)
  {
  }

  /** Loading a saved state brings back the record it was saved with; loading a refused file
      starts a new one. */
  lemma RestartRefines(c: Config, e: Engine, log: Log, f: File, now: real, numUids: nat)
    requires ValidConfig(c)
    requires Accepted(c, f, now).Some? ==> Refines(c, e, log) && Written(c, e, f)
    ensures Refines(c, Loaded(c, f, now, numUids), if Accepted(c, f, now).Some? then log else NOTHING)
  {
    if Accepted(c, f, now).Some? {
      ReachedIsSound(c, e, log);
      hide Refines, Sound, Written, Restored, Accepted;
      SavedThenLoaded(c, c, e, f, now);
      RestoringChangesNothing(c, e);
    } else {
      NothingRefines(c, numUids);
    }
  }

  lemma {:induction false} RunRefines(c: Config, events: seq<Event>, engines: seq<Engine>, logs: seq<Log>)
    requires ValidConfig(c) && Run(c, events, engines, logs)
    ensures Refines(c, engines[|events|], logs[|events|])
    decreases |events|
  {
    if events == [] {
      NothingRefines(c, |engines[0].scores|);
    } else {
      var n := |events| - 1;
      RunPrefix(c, events, engines, logs, n);
      RunRefines(c, events[..n], engines[..n + 1], logs[..n + 1]);
      assert Steps(c, events, engines, logs, n);
      hide Refines, LogRefresh, LogRound, Applies;
      match events[n]
      case Refresh(meta) => RefinesRefresh(c, engines[n], logs[n], meta, engines[n + 1]);
      case Round(items, active, p, at) => RefinesRound(c, engines[n], logs[n], items, active, p, at, engines[n + 1]);
      case Restart(saved, f, now, numUids) =>
        var k := if saved <= n then saved else 0;
        RunPrefix(c, events, engines, logs, k);
        RunRefines(c, events[..k], engines[..k + 1], logs[..k + 1]);
        RestartRefines(c, engines[k], logs[k], f, now, numUids);
    }
  }

  /** Whatever the run, the engine's state is a function of the record: histories are its
      last `max_samples` observations, scores are their sum over max(len, min_samples). */
  lemma EngineIsTheTail(c: Config, events: seq<Event>, engines: seq<Engine>, logs: seq<Log>, u: nat)
    requires ValidConfig(c) && Run(c, events, engines, logs)
    ensures var e, entries := engines[|events|], EntriesOf(logs[|events|], u);
            && (u in e.histories <==> entries != [])
            && (u in e.histories ==> e.histories[u] == LastN(Observations(entries), c.maxSamples))
            && (u < |e.scores| ==>
                  e.scores[u] == if entries == [] then 0.0
                                 else Sum(Payments(LastN(Observations(entries), c.maxSamples)))
                                      / Max(Min(|entries|, c.maxSamples), c.minSamples) as real)
  {
    RunRefines(c, events, engines, logs);
    assert At(engines[|events|], u) == Tail(c, logs[|events|], u);
  }

  /** A reused slot inherits nothing: every observation behind a history was made while the
      uid was held by the hotkey the engine tracks now, which is the one on the chain. */
  lemma NothingIsInherited(c: Config, events: seq<Event>, engines: seq<Engine>, logs: seq<Log>, u: nat)
    requires ValidConfig(c) && Run(c, events, engines, logs)
    requires u in engines[|events|].histories
    ensures var e, log := engines[|events|], logs[|events|];
            && u in e.hotkeys && u < |log.meta| && e.hotkeys[u] == log.meta[u]
            && u in log.entries
            && forall i :: 0 <= i < |log.entries[u]| ==> log.entries[u][i].holder == e.hotkeys[u]
  {
    RunRefines(c, events, engines, logs);
    SameObserved(c, engines[|events|], logs[|events|]);
  }

  /** One event leaves the record of an unchanged slot alone, or adds to it. */
  lemma StepKeeps(log: Log, decay: bool, ev: Event, u: nat)
    requires !ev.Restart? && u < |log.meta| && u < |LogStep(log, decay, ev).meta|
    requires LogStep(log, decay, ev).meta[u] == log.meta[u]
    ensures Starts(EntriesOf(log, u), EntriesOf(LogStep(log, decay, ev), u))
  {
  }

  lemma LoggedStep(c: Config, events: seq<Event>, engines: seq<Engine>, logs: seq<Log>, k: nat)
    requires ValidConfig(c) && Run(c, events, engines, logs) && k < |events| && !events[k].Restart?
    ensures logs[k + 1] == LogStep(logs[k], c.decay, events[k])
  {
    hide EngineStep, LogStep, Loaded;
    assert Steps(c, events, engines, logs, k);
  }

  lemma StartsItself(a: seq<Entry>)
    ensures Starts(a, a)
  {
  }

  /** Nothing is forgotten while a slot stays in the same hands: between restarts its record only
      grows. */
  lemma {:induction false} NothingIsForgotten(c: Config, events: seq<Event>, engines: seq<Engine>, logs: seq<Log>,
      i: nat, j: nat, u: nat)
    requires ValidConfig(c) && Run(c, events, engines, logs) && i <= j <= |events|
    requires |logs| == |events| + 1
    requires forall k :: i <= k < j ==> !events[k].Restart?
    requires u < |logs[i].meta|
    requires forall k :: i <= k <= j ==> u < |logs[k].meta| && logs[k].meta[u] == logs[i].meta[u]
    ensures Starts(EntriesOf(logs[i], u), EntriesOf(logs[j], u))
    decreases j
  {
    if i < j {
      hide *;
      NothingIsForgotten(c, events, engines, logs, i, j - 1, u);
      LoggedStep(c, events, engines, logs, j - 1);
      StepKeeps(logs[j - 1], c.decay, events[j - 1], u);
      StartsTwice(EntriesOf(logs[i], u), EntriesOf(logs[j - 1], u), EntriesOf(logs[j], u));
    } else {
      StartsItself(EntriesOf(logs[i], u));
    }
  }

  /** Any state a run can reach survives a save and a restart unchanged. */
  lemma RunsSurviveRestarts(c: Config, events: seq<Event>, engines: seq<Engine>, logs: seq<Log>, f: File, now: real)
    requires ValidConfig(c) && Run(c, events, engines, logs)
    requires forall u :: 0 <= u < |logs[|events|].meta| ==> logs[|events|].meta[u] != ""
    requires Written(c, engines[|events|], f)
    ensures Accepted(c, f, now).Some?
    ensures var s := Accepted(c, f, now).value;
            Restored(c, s.numUids, s.histories, s.owners) == engines[|events|]
  {
    var e, log := engines[|events|], logs[|events|];
    RunRefines(c, events, engines, logs);
    hide Run, Refines, Sound, Restorable, Restored, Accepted, Written;
    ReachedIsSound(c, e, log);
    ReachedIsRestorable(c, e, log);
    RestartIsExact(c, e, f, now);
  }

  lemma ReachedIsRestorable(c: Config, e: Engine, log: Log)
    requires ValidConfig(c) && Refines(c, e, log)
    requires forall u :: 0 <= u < |log.meta| ==> log.meta[u] != ""
    ensures Restorable(c, e)
  {
    SameObserved(c, e, log);
    hide Score, Tail;
    assert forall u :: u in Trimmed(c, e.histories) ==> u in e.hotkeys;
  }

  lemma ReachedIsSound(c: Config, e: Engine, log: Log)
    requires ValidConfig(c) && Refines(c, e, log)
    ensures Sound(c, e)
  {
    hide Score;
    forall u: nat ensures At(e, u) == Tail(c, log, u)
                  ensures u in e.histories ==> u < |e.scores| && HistoryValid(e.histories[u], c.maxSamples)
    {
      assert At(e, u) == Tail(c, log, u);
    }
    forall u: nat | u < |e.scores| ensures e.scores[u] == Score(c, if u in e.histories then e.histories[u] else []) {
      assert At(e, u) == Tail(c, log, u);
    }
  }
}
