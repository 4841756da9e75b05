/**
 When rounds start and weights go out (rlvr/neurons/validator.py, run and
 defer_rounds_until; rlvr/neurons/base.py, should_run).

 Clock, block numbers and everything the round callback does are inputs. The mutable
 deadline and anchors of the loop are shown to be functions of the history of polls.
 */
module Cadence {
  import opened Seqs

  // ---- The block gate -----------------------------------------------------------------------

  predicate GateOpen(last: Option<int>, block: int, interval: int) {
    interval <= 0 || last.None? || block - last.value >= interval
  }

  class BaseNeuron {
    var lastRunBlock: Option<int>

    constructor ()
      ensures lastRunBlock == None
    {
      lastRunBlock := None;
    }

    method ShouldRun(block: int, interval: int) returns (fire: bool)
      modifies this
      ensures fire == GateOpen(old(lastRunBlock), block, interval)
      ensures lastRunBlock == if fire && interval > 0 then Some(block) else old(lastRunBlock)
    {
      if interval <= 0 {
        return true;
      }
      if lastRunBlock.None? || block - lastRunBlock.value >= interval {
        lastRunBlock := Some(block);
        return true;
      }
      return false;
    }
  }

  // ---- History ------------------------------------------------------------------------------

  /** One poll: whether the loop was told to stop before it, the block (None when the chain
      stayed unreachable), the clock, the deadlines the callback sets should a round run, and
      whether the callback or the weight setter raises. */
  datatype Poll = Poll(stopped: bool, block: Option<int>, now: real, deferrals: seq<real>, raises: bool,
      setterRaises: bool)

  /** One poll that saw a block. `cut` marks a round that ended the loop. */
  datatype Event = Event(block: int, now: real, round: bool, deferrals: seq<real>, cut: bool, weights: bool)

  datatype Terms = Terms(roundInterval: int, weightsInterval: int, deadline: Option<real>, anchor: Option<int>)

  function Later(a: Option<real>, d: real): Option<real> {
    if a.None? || d > a.value then Some(d) else a
  }

  /** The latest of the deadlines, if any. */
  function Latest(deadlines: seq<real>): Option<real> {
    if deadlines == [] then None else Later(Latest(deadlines[..|deadlines| - 1]), deadlines[|deadlines| - 1])
  }

  lemma {:induction false} LatestIsMaximum(deadlines: seq<real>)
    ensures deadlines == [] <==> Latest(deadlines).None?
    ensures forall d :: d in deadlines ==> d <= Latest(deadlines).value
    ensures deadlines != [] ==> Latest(deadlines).value in deadlines
  {
    if deadlines != [] {
      var n := |deadlines| - 1;
      LatestIsMaximum(deadlines[..n]);
      assert forall d :: d in deadlines ==> d in deadlines[..n] || d == deadlines[n];
    }
  }

  /** The deadline a poll after `past` must respect: the latest one the last round set. */
  function Pending(t: Terms, past: seq<Event>): Option<real> {
    if past == [] then t.deadline
    else if past[|past| - 1].round then Latest(past[|past| - 1].deferrals)
    else Pending(t, past[..|past| - 1])
  }

  /** The block of the last round. */
  function Anchor(t: Terms, past: seq<Event>): Option<int> {
    if past == [] then t.anchor
    else if past[|past| - 1].round then Some(past[|past| - 1].block)
    else Anchor(t, past[..|past| - 1])
  }

  function LastWeights(past: seq<Event>): Option<int> {
    if past == [] then None
    else if past[|past| - 1].weights then Some(past[|past| - 1].block)
    else LastWeights(past[..|past| - 1])
  }

  function Rounds(past: seq<Event>): nat {
    if past == [] then 0 else Rounds(past[..|past| - 1]) + if past[|past| - 1].round then 1 else 0
  }

  predicate Retry(t: Terms, past: seq<Event>, now: real) {
    Pending(t, past).Some? && now >= Pending(t, past).value
  }

  lemma RoundsGrow(log: seq<Event>, e: Event)
    ensures Rounds(log + [e]) == Rounds(log) + if e.round then 1 else 0
  {
    assert (log + [e])[..|log|] == log;
  }

  /** Exactly when a round starts. */
  predicate RoundDue(t: Terms, past: seq<Event>, block: int, now: real) {
    if Pending(t, past).Some? then Retry(t, past, now) else GateOpen(Anchor(t, past), block, t.roundInterval)
  }

  /** What the history so far says about the next event. */
  predicate Follows(t: Terms, past: seq<Event>, e: Event) {
    && e.round == RoundDue(t, past, e.block, e.now)
    && (e.cut ==> e.round)
    && (!e.round ==> e.deferrals == [])
    && e.weights == (!e.cut && (e.round || Rounds(past) > 0) && GateOpen(LastWeights(past), e.block, t.weightsInterval))
  }

  /** No round ended the loop. */
  ghost predicate Uncut(log: seq<Event>) {
    forall i :: 0 <= i < |log| ==> !log[i].cut
  }

  ghost predicate Lawful(t: Terms, log: seq<Event>) {
    && (forall i :: 0 <= i < |log| ==> Follows(t, log[..i], log[i]))
    && (forall i :: 0 <= i < |log| - 1 ==> !log[i].cut)
  }

  lemma LawfulNext(t: Terms, log: seq<Event>, e: Event)
    requires Lawful(t, log) && Follows(t, log, e)
    requires Uncut(log)
    ensures Lawful(t, log + [e])
    ensures !e.cut ==> Uncut(log + [e])
  {
    hide Follows;
    var all := log + [e];
    forall i | 0 <= i < |all| ensures Follows(t, all[..i], all[i]) {
      if i < |log| {
        assert all[..i] == log[..i];
      } else {
        assert all[..i] == log;
      }
    }
  }

  function Readable(polls: seq<Poll>): (r: seq<Poll>)
    ensures forall i :: 0 <= i < |r| ==> r[i].block.Some?
  {
    if polls == [] then []
    else Readable(polls[..|polls| - 1]) + if polls[|polls| - 1].block.Some? then [polls[|polls| - 1]] else []
  }

  /** The log is about these polls, in order. */
  ghost predicate Witnesses(log: seq<Event>, readable: seq<Poll>)
    requires forall i :: 0 <= i < |readable| ==> readable[i].block.Some?
  {
    && |log| <= |readable|
    && forall i :: 0 <= i < |log| ==> Shows(log[i], readable[i])
  }

  predicate Shows(e: Event, poll: Poll)
    requires poll.block.Some?
  {
    e.block == poll.block.value && e.now == poll.now && (e.round ==> e.deferrals == poll.deferrals)
  }

  /** The log is lawful and about exactly the first n polls. */
  ghost predicate History(t: Terms, log: seq<Event>, polls: seq<Poll>, n: nat) {
    && n <= |polls|
    && Lawful(t, log)
    && |log| == |Readable(polls[..n])| && Witnesses(log, Readable(polls[..n]))
  }

  /** The last poll ended the loop: its round did, or its weight setter raised. */
  predicate Ended(log: seq<Event>, poll: Poll) {
    poll.block.Some? && log != [] && (log[|log| - 1].cut || (log[|log| - 1].weights && poll.setterRaises))
  }

  /** None of the first n polls was told to stop. */
  ghost predicate NoStop(polls: seq<Poll>, n: nat) {
    n <= |polls| && forall k :: 0 <= k < n ==> !polls[k].stopped
  }

  lemma HistoryGrows(t: Terms, log: seq<Event>, polls: seq<Poll>, i: nat, e: Event)
    requires History(t, log, polls, i) && i < |polls|
    ensures polls[i].block.None? ==> History(t, log, polls, i + 1)
    ensures polls[i].block.Some? && Shows(e, polls[i]) && Follows(t, log, e) && Uncut(log) ==>
              History(t, log + [e], polls, i + 1) && (!e.cut ==> Uncut(log + [e]))
  {
    assert polls[..i + 1][..i] == polls[..i];
    var before, after := Readable(polls[..i]), Readable(polls[..i + 1]);
    if polls[i].block.Some? && Shows(e, polls[i]) && Follows(t, log, e) && Uncut(log) {
      LawfulNext(t, log, e);
      assert after == before + [polls[i]];
      hide Lawful, Follows, Readable, Uncut;
    }
  }

  lemma HistoryStarts(t: Terms, polls: seq<Poll>)
    ensures History(t, [], polls, 0) && Uncut([]) && NoStop(polls, 0) && Rounds([]) == 0
  {
  }

  lemma EndedBy(log: seq<Event>, poll: Poll)
    requires poll.block.Some? && log != []
    requires log[|log| - 1].cut || (log[|log| - 1].weights && poll.setterRaises)
    ensures Ended(log, poll)
  {
  }

  lemma NoStopYet(polls: seq<Poll>, n: nat)
    requires NoStop(polls, n) && n < |polls| && !polls[n].stopped
    ensures NoStop(polls, n + 1)
  {
  }

  // ---- The loop -------------------------------------------------------------------------------

  class ValidatorNeuron {
    const base: BaseNeuron
    const roundInterval: int
    const weightsInterval: int
    var deferredUntil: Option<real>

    constructor (roundInterval: int, weightsInterval: int)
      ensures deferredUntil == None && fresh(base) && base.lastRunBlock == None
      ensures this.roundInterval == roundInterval && this.weightsInterval == weightsInterval
    {
      base := new BaseNeuron();
      this.roundInterval, this.weightsInterval := roundInterval, weightsInterval;
      deferredUntil := None;
    }

    ghost function Agreed(): Terms
      reads this, base
    {
      Terms(roundInterval, weightsInterval, deferredUntil, base.lastRunBlock)
    }

    method DeferRoundsUntil(deadline: real)
      modifies this
      ensures deferredUntil == Later(old(deferredUntil), deadline)
    {
      if deferredUntil.None? || deadline > deferredUntil.value {
        deferredUntil := Some(deadline);
      }
    }

    /** The round callback, as far as this object sees it. */
    method RunRound(deferrals: seq<real>)
      requires deferredUntil.None?
      modifies this
      ensures deferredUntil == Latest(deferrals)
    {
      for i := 0 to |deferrals|
        invariant deferredUntil == Latest(deferrals[..i])
      {
        assert deferrals[..i + 1][..i] == deferrals[..i];
        DeferRoundsUntil(deferrals[i]);
      }
      assert deferrals[..|deferrals|] == deferrals;
    }

    /** The loop's own state is what the history says it should be. */
    ghost predicate Tracks(t: Terms, log: seq<Event>, gate: BaseNeuron, roundsDone: nat)
      reads this, base, gate
    {
      && t.roundInterval == roundInterval && t.weightsInterval == weightsInterval
      && deferredUntil == Pending(t, log)
      && (roundInterval > 0 ==> base.lastRunBlock == Anchor(t, log))
      && (weightsInterval > 0 ==> gate.lastRunBlock == LastWeights(log))
      && roundsDone == Rounds(log)
    }

    /** The first half of an iteration: start a round if one is due. */
    method StartRound(block: int, now: real, deferrals: seq<real>, ghost t: Terms, ghost log: seq<Event>,
        ghost gate: BaseNeuron, ghost done: nat)
      returns (ran: bool)
      requires Tracks(t, log, gate, done) && gate != base
      modifies this, base
      ensures ran == RoundDue(t, log, block, now)
      ensures deferredUntil == if ran then Latest(deferrals) else Pending(t, log)
      ensures roundInterval > 0 ==> base.lastRunBlock == if ran then Some(block) else Anchor(t, log)
    {
      var deadline := deferredUntil;
      var deferred := deadline.Some? && now < deadline.value;
      var retryDue := deadline.Some? && !deferred;
      ran := false;
      if !deferred {
        ran := retryDue;
        if !retryDue {
          ran := base.ShouldRun(block, roundInterval);
        }
        if ran {
          if retryDue {
            deferredUntil := None;
            base.lastRunBlock := Some(block);
          }
          RunRound(deferrals);
        }
      }
    }

    /** One iteration that saw a block. */
    method Iterate(poll: Poll, roundsDone: nat, maxRounds: Option<int>, gate: BaseNeuron, ghost t: Terms,
        ghost log: seq<Event>)
      returns (e: Event)
      requires poll.block.Some? && gate != base
      requires Tracks(t, log, gate, roundsDone)
      modifies this, base, gate
      ensures Follows(t, log, e)
      ensures Shows(e, poll)
      ensures !e.cut ==> Tracks(t, log + [e], gate, roundsDone + if e.round then 1 else 0)
      ensures e.cut <==> e.round && (poll.raises || (maxRounds.Some? && roundsDone + 1 >= maxRounds.value))
    {
      var block := poll.block.value;
      ghost var lastWeights := gate.lastRunBlock;
      var ran := StartRound(block, poll.now, poll.deferrals, t, log, gate, roundsDone);
      e := Event(block, poll.now, ran, if ran then poll.deferrals else [], false, false);
      var done := roundsDone;
      if ran {
        done := done + 1;
        if poll.raises || (maxRounds.Some? && done >= maxRounds.value) {
          e := e.(cut := true);
          return;
        }
      }
      if done > 0 {
        var fire := gate.ShouldRun(block, weightsInterval);
        e := e.(weights := fire);
      }
      assert (log + [e])[..|log|] == log;
    }

    /** The same, as one more entry of the history; `last` if it ended the loop. */
    method IterateOn(polls: seq<Poll>, n: nat, roundsDone: nat, maxRounds: Option<int>, gate: BaseNeuron,
        ghost t: Terms, ghost log: seq<Event>)
      returns (e: Event, last: bool)
      requires n < |polls| && polls[n].block.Some? && gate != base
      requires Tracks(t, log, gate, roundsDone) && roundsDone == Rounds(log)
      requires History(t, log, polls, n) && Uncut(log)
      requires maxRounds.Some? && maxRounds.value >= 1 ==> roundsDone < maxRounds.value
      modifies this, base, gate
      ensures History(t, log + [e], polls, n + 1)
      ensures last ==> Ended(log + [e], polls[n])
      ensures !last ==> Tracks(t, log + [e], gate, roundsDone + if e.round then 1 else 0) && Uncut(log + [e])
      ensures Rounds(log + [e]) == roundsDone + if e.round then 1 else 0
      ensures maxRounds.Some? && maxRounds.value >= 1 ==>
                Rounds(log + [e]) <= maxRounds.value && (!last ==> Rounds(log + [e]) < maxRounds.value)
    {
      hide *;
      e := Iterate(polls[n], roundsDone, maxRounds, gate, t, log);
      HistoryGrows(t, log, polls, n, e);
      RoundsGrow(log, e);
      last := e.cut || (e.weights && polls[n].setterRaises);
      if last {
        EndedBy(log + [e], polls[n]);
      }
    }

    /** Every run of the loop, over any polls, produces a lawful history of the first n polls.
        It ends early only when told to stop or when the last poll ended it. */
    method Run(polls: seq<Poll>, maxRounds: Option<int>) returns (log: seq<Event>, n: nat)
      modifies this, base
      ensures History(old(Agreed()), log, polls, n)
      ensures n < |polls| ==> polls[n].stopped || (n > 0 && Ended(log, polls[n - 1]))
      ensures NoStop(polls, n)
      ensures maxRounds.Some? && maxRounds.value >= 1 ==> Rounds(log) <= maxRounds.value
    {
      ghost var t := Agreed();
      log, n := [], 0;
      var roundsDone := 0;
      var gate := new BaseNeuron();
      assert Tracks(t, log, gate, 0);
      hide *;
      HistoryStarts(t, polls);
      while n < |polls| && !polls[n].stopped
        invariant n <= |polls| && NoStop(polls, n)
        invariant fresh(gate) && gate != base
        invariant Tracks(t, log, gate, roundsDone) && roundsDone == Rounds(log)
        invariant History(t, log, polls, n) && Uncut(log)
        invariant maxRounds.Some? && maxRounds.value >= 1 ==> roundsDone < maxRounds.value
      {
        var poll := polls[n];
        NoStopYet(polls, n);
        if poll.block.None? {
          HistoryGrows(t, log, polls, n, Event(0, 0.0, false, [], false, false));
          n := n + 1;
          continue;
        }
        var e, last := IterateOn(polls, n, roundsDone, maxRounds, gate, t, log);
        log, n := log + [e], n + 1;
        if e.round {
          roundsDone := roundsDone + 1;
        }
        if last {
          return;
        }
      }
    }
  }

  // ---- What every run guarantees ----------------------------------------------------------------

  /** The index of the last round before poll i, or -1. */
  function LastRound(log: seq<Event>, i: nat): (m: int)
    requires i <= |log|
    ensures -1 <= m < i
    ensures 0 <= m ==> log[m].round
    ensures forall k :: m < k < i ==> !log[k].round
  {
    if i == 0 then -1 else if log[i - 1].round then i - 1 else LastRound(log, i - 1)
  }

  lemma {:induction false} HistoryIsLastRound(t: Terms, log: seq<Event>, i: nat)
    requires i <= |log|
    ensures var m := LastRound(log, i);
            && Pending(t, log[..i]) == (if m < 0 then t.deadline else Latest(log[m].deferrals))
            && Anchor(t, log[..i]) == (if m < 0 then t.anchor else Some(log[m].block))
  {
    if i > 0 {
      assert log[..i][..i - 1] == log[..i - 1];
      HistoryIsLastRound(t, log, i - 1);
    }
  }

  ghost predicate Clock(log: seq<Event>) {
    forall i, j :: 0 <= i <= j < |log| ==> log[i].now <= log[j].now
  }

  ghost predicate Chain(log: seq<Event>) {
    forall i, j :: 0 <= i <= j < |log| ==> log[i].block <= log[j].block
  }

  /** The deadlines that bind poll i: those the last round set, or the one the run began with. */
  function Binding(t: Terms, log: seq<Event>, i: nat): seq<real>
    requires i <= |log|
  {
    var m := LastRound(log, i);
    if m >= 0 then log[m].deferrals else if t.deadline.Some? then [t.deadline.value] else []
  }

  /** Exactly when a round starts. With deadlines pending, as soon as the clock has passed all of
      them. With none, as soon as a full interval of blocks lies behind the last round, and at
      the first poll if there was no round at all. */
  lemma RoundsExactly(t: Terms, log: seq<Event>, i: nat)
    requires Lawful(t, log) && i < |log|
    ensures var m, interval := LastRound(log, i), t.roundInterval;
            if Binding(t, log, i) != [] then
              log[i].round <==> forall d :: d in Binding(t, log, i) ==> log[i].now >= d
            else if m >= 0 then
              log[i].round <==> interval <= 0 || log[i].block - log[m].block >= interval
            else
              log[i].round <==> interval <= 0 || t.anchor.None? || log[i].block - t.anchor.value >= interval
  {
    HistoryIsLastRound(t, log, i);
    assert Follows(t, log[..i], log[i]);
    LatestIsMaximum(Binding(t, log, i));
  }

  /** The index of the last weights before poll i, or -1. */
  function LastSent(log: seq<Event>, i: nat): (m: int)
    requires i <= |log|
    ensures -1 <= m < i
    ensures 0 <= m ==> log[m].weights
    ensures forall k :: m < k < i ==> !log[k].weights
  {
    if i == 0 then -1 else if log[i - 1].weights then i - 1 else LastSent(log, i - 1)
  }

  /** One of the first i polls started a round. */
  ghost predicate SomeRound(log: seq<Event>, i: nat) {
    i <= |log| && exists k :: 0 <= k < i && log[k].round
  }

  lemma NextRound(log: seq<Event>, i: nat)
    requires i < |log|
    ensures SomeRound(log, i + 1) <==> SomeRound(log, i) || log[i].round
  {
  }

  lemma {:induction false} HistoryIsLastSent(log: seq<Event>, i: nat)
    requires i <= |log|
    ensures LastWeights(log[..i]) == if LastSent(log, i) < 0 then None else Some(log[LastSent(log, i)].block)
    ensures Rounds(log[..i]) > 0 <==> SomeRound(log, i)
  {
    if i > 0 {
      assert log[..i][..i - 1] == log[..i - 1];
      HistoryIsLastSent(log, i - 1);
      NextRound(log, i - 1);
    }
  }

  /** Exactly when weights go out: once some round has run, unless this poll's round ended the
      loop, at first and then whenever a full interval of blocks lies behind the last time. */
  lemma WeightsExactly(t: Terms, log: seq<Event>, i: nat)
    requires Lawful(t, log) && i < |log|
    ensures var m, interval := LastSent(log, i), t.weightsInterval;
            log[i].weights <==>
              && !log[i].cut && SomeRound(log, i + 1)
              && (interval <= 0 || m < 0 || log[i].block - log[m].block >= interval)
  {
    HistoryIsLastSent(log, i);
    assert Follows(t, log[..i], log[i]);
    hide Lawful, RoundDue, Rounds, LastWeights, SomeRound;
    NextRound(log, i);
  }

  /** No round starts before any deadline that any earlier round set, nor before the one
      the run started with. */
  lemma {:induction false} NoRoundBeforeADeadline(t: Terms, log: seq<Event>, k: nat, i: nat, d: real)
    requires Lawful(t, log) && Clock(log)
    requires k <= i < |log| && log[i].round
    requires (k < i && log[k].round && d in log[k].deferrals) || t.deadline == Some(d)
    ensures log[i].now >= d
    decreases i
  {
    var m := LastRound(log, i);
    HistoryIsLastRound(t, log, i);
    assert Follows(t, log[..i], log[i]);
    if m >= 0 {
      LatestIsMaximum(log[m].deferrals);
      if t.deadline == Some(d) {
        NoRoundBeforeADeadline(t, log, 0, m, d);
      } else if k < m {
        NoRoundBeforeADeadline(t, log, k, m, d);
      } else {
        assert k == m;
      }
    }
  }

  /** A round with no deadline pending comes at least an interval after the last round,
      however many polls were suppressed in between. */
  lemma OrdinaryRoundsAreSpaced(t: Terms, log: seq<Event>, i: nat)
    requires Lawful(t, log) && t.roundInterval > 0
    requires i < |log| && log[i].round && Pending(t, log[..i]).None?
    ensures var m := LastRound(log, i);
            m >= 0 ==> log[i].block - log[m].block >= t.roundInterval && log[m].deferrals == []
  {
    HistoryIsLastRound(t, log, i);
    assert Follows(t, log[..i], log[i]);
    if LastRound(log, i) >= 0 {
      LatestIsMaximum(log[LastRound(log, i)].deferrals);
    }
  }

  /** Rounds that no deadline asked for. */
  function Ordinary(t: Terms, log: seq<Event>): nat {
    if log == [] then 0
    else
      var n := |log| - 1;
      Ordinary(t, log[..n]) + if log[n].round && Pending(t, log[..n]).None? then 1 else 0
  }

  /** `count - 1` intervals fit between two blocks. */
  predicate Fits(count: nat, interval: int, first: int, last: int) {
    (count - 1) * interval <= last - first
  }

  lemma OneMoreFits(count: nat, interval: int, first: int, last: int, next: int)
    requires Fits(count, interval, first, last) && next >= last + interval
    ensures Fits(count + 1, interval, first, next)
  {
    assert count * interval == (count - 1) * interval + interval;
  }

  lemma LaterFits(count: nat, interval: int, first: int, last: int, next: int)
    requires Fits(count, interval, first, last) && next >= last
    ensures Fits(count, interval, first, next)
  {
  }

  lemma LawfulPrefix(t: Terms, log: seq<Event>, n: nat)
    requires Lawful(t, log) && n <= |log|
    ensures Lawful(t, log[..n])
  {
    forall i | 0 <= i < n ensures Follows(t, log[..n][..i], log[..n][i]) {
      assert log[..n][..i] == log[..i];
    }
  }

  lemma OneFits(interval: int, first: int, last: int)
    requires first <= last
    ensures Fits(1, interval, first, last)
  {
  }

  /** The last round lies between the first poll and the last. */
  lemma {:induction false} AnchorInRange(t: Terms, log: seq<Event>)
    requires Chain(log) && t.anchor.None?
    ensures log != [] && Anchor(t, log).Some? ==> log[0].block <= Anchor(t, log).value <= log[|log| - 1].block
  {
    if log != [] {
      var n := |log| - 1;
      AnchorInRange(t, log[..n]);
    }
  }

  /** The rate of ordinary rounds: at most one per interval, plus one. */
  lemma {:induction false} OrdinaryRoundsAreRare(t: Terms, log: seq<Event>)
    requires Lawful(t, log) && Chain(log) && t.roundInterval > 0
    requires t.anchor.None?
    ensures Ordinary(t, log) > 0 ==>
              Anchor(t, log).Some? && Fits(Ordinary(t, log), t.roundInterval, log[0].block, Anchor(t, log).value)
  {
    if log != [] {
      var n := |log| - 1;
      var past, e := log[..n], log[n];
      var first := log[0].block;
      LawfulPrefix(t, log, n);
      AnchorInRange(t, past);
      OrdinaryRoundsAreRare(t, past);
      assert Follows(t, past, e) && first <= e.block;
      assert n > 0 ==> past[0] == log[0] && log[n - 1].block <= e.block;
      hide Lawful, Follows, Chain, Fits;
      if e.round {
        if Ordinary(t, past) == 0 {
          OneFits(t.roundInterval, first, e.block);
        } else if Pending(t, past).None? {
          OneMoreFits(Ordinary(t, past), t.roundInterval, first, Anchor(t, past).value, e.block);
        } else {
          LaterFits(Ordinary(t, past), t.roundInterval, first, Anchor(t, past).value, e.block);
        }
      }
    }
  }

  function WeightsSent(log: seq<Event>): nat {
    if log == [] then 0 else WeightsSent(log[..|log| - 1]) + if log[|log| - 1].weights then 1 else 0
  }

  /** Weights go out at most once per interval, plus one, and never before a first round. */
  lemma {:induction false} WeightsAreRare(t: Terms, log: seq<Event>)
    requires Lawful(t, log) && Chain(log) && t.weightsInterval > 0
    ensures WeightsSent(log) > 0 ==>
              Rounds(log) > 0 && LastWeights(log).Some?
              && Fits(WeightsSent(log), t.weightsInterval, log[0].block, LastWeights(log).value)
              && LastWeights(log).value <= log[|log| - 1].block
    ensures WeightsSent(log) == 0 ==> LastWeights(log).None?
  {
    if log != [] {
      var n := |log| - 1;
      var past, e := log[..n], log[n];
      LawfulPrefix(t, log, n);
      assert Chain(past);
      WeightsAreRare(t, past);
      assert Follows(t, past, e);
      assert n > 0 ==> past[0] == log[0] && log[n - 1].block <= e.block;
      hide Lawful, Chain;
      if WeightsSent(past) > 0 && e.weights {
        hide Fits;
        OneMoreFits(WeightsSent(past), t.weightsInterval, log[0].block, LastWeights(past).value, e.block);
      }
    }
  }

  // ---- Server pacing ----------------------------------------------------------------------------

  const MAX_LEASE_DEFERRAL: int := 900

  function LeaseDeferral(retryAfter: Option<int>): Option<int> {
    if retryAfter.None? then None else Some(Max(0, Min(retryAfter.value, MAX_LEASE_DEFERRAL)))
  }

  /** `next_lease_not_before`, with its one-second cushion. */
  function NextLeaseNotBefore(wait: int, now: real): real {
    now + wait as real + 1.0
  }

  /** The deadlines set by a callback that reads the clock at `at`. */
  function PacedBy(retryAfter: Option<int>, at: real): seq<real> {
    if LeaseDeferral(retryAfter).None? then [] else [NextLeaseNotBefore(LeaseDeferral(retryAfter).value, at)]
  }

  /** The server's pause alone decides when the next round starts: after the wait it asked for,
      read as zero if negative and cut off at the longest pause, and the cushion. */
  lemma PauseIsExact(t: Terms, log: seq<Event>, i: nat, retryAfter: Option<int>, at: real)
    requires Lawful(t, log) && i < |log|
    requires LastRound(log, i) >= 0 && log[LastRound(log, i)].deferrals == PacedBy(retryAfter, at)
    requires retryAfter.Some?
    ensures var s := retryAfter.value;
            log[i].round <==> log[i].now >= at + 1.0 + if s < 0 then 0.0 else if s < 900 then s as real else 900.0
  {
    RoundsExactly(t, log, i);
    assert PacedBy(retryAfter, at)[0] in PacedBy(retryAfter, at);
  }
}
