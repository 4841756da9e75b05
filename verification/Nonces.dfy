/**
 Replay defence (rlvr/protocol.py): the timestamp window of `verify_signature` and the
 bounded, pruned cache of request ids.
 */
module Nonces {
  import opened Seqs

  /** A recorded id and the time it was recorded: one entry of the ordered dictionary. */
  datatype Entry = Entry(uuid: string, at: int)

  predicate Known(entries: seq<Entry>, uuid: string) {
    exists e :: e in entries && e.uuid == uuid
  }

  /** What the pruning loop leaves: the entries from the first fresh one on. */
  function DropStale(entries: seq<Entry>, cutoff: int): (r: seq<Entry>)
    ensures |r| <= |entries|
  {
    if entries != [] && entries[0].at < cutoff then DropStale(entries[1..], cutoff) else entries
  }

  /** What pruning is meant to leave: every entry that is still fresh. */
  function Live(entries: seq<Entry>, cutoff: int): (r: seq<Entry>) {
    if entries == [] then []
    else
      var n := |entries| - 1;
      Live(entries[..n], cutoff) + if entries[n].at >= cutoff then [entries[n]] else []
  }

  class NonceCache {
    const windowMs: nat
    const maxEntries: nat
    var seen: seq<Entry>

    constructor (windowMs: int, maxEntries: int)
      ensures this.windowMs == Max(0, windowMs) && this.maxEntries == Max(1, maxEntries) && seen == []
    {
      this.windowMs, this.maxEntries := Max(0, windowMs), Max(1, maxEntries);
      seen := [];
    }

    method Prune(now: int)
      modifies this
      ensures seen == DropStale(old(seen), now - windowMs)
    {
      var cutoff := now - windowMs;
      while seen != [] && seen[0].at < cutoff
        invariant DropStale(seen, cutoff) == DropStale(old(seen), cutoff)
        decreases |seen|
      {
        seen := seen[1..];
      }
    }

    method CheckAndAdd(uuid: string, now: int) returns (ok: bool)
      modifies this
      ensures (ok, seen) == Checked(old(seen), Limits(windowMs, maxEntries), uuid, now)
      ensures |old(seen)| <= maxEntries ==> |seen| <= maxEntries
    {
      if uuid == "" {
        return false;
      }
      Prune(now);
      if exists e :: e in seen && e.uuid == uuid {
        return false;
      }
      if |seen| >= maxEntries {
        return false;
      }
      seen := seen + [Entry(uuid, now)];
      return true;
    }
  }

  datatype Limits = Limits(windowMs: nat, maxEntries: nat)

  /** One call, on values. */
  function Checked(seen: seq<Entry>, l: Limits, uuid: string, now: int): (bool, seq<Entry>) {
    if uuid == "" then (false, seen) else Decided(DropStale(seen, now - l.windowMs), l, uuid, now)
  }

  /** Known ids and a full cache are refused; anything else is recorded. */
  function Decided(kept: seq<Entry>, l: Limits, uuid: string, now: int): (bool, seq<Entry>) {
    if Known(kept, uuid) || |kept| >= l.maxEntries then (false, kept) else (true, kept + [Entry(uuid, now)])
  }

  // ---- Facts at any clock ---------------------------------------------------------------------

  /** Whatever the clock does, only stale entries go. */
  lemma {:induction false} FreshAreNeverEvicted(entries: seq<Entry>, cutoff: int, e: Entry)
    requires e in entries && e.at >= cutoff
    ensures e in DropStale(entries, cutoff)
  {
    if entries[0].at < cutoff {
      assert entries == [entries[0]] + entries[1..];
      FreshAreNeverEvicted(entries[1..], cutoff, e);
    }
  }

  // ---- Nondecreasing clocks -------------------------------------------------------------------

  ghost predicate InOrder(entries: seq<Entry>) {
    forall i, j :: 0 <= i <= j < |entries| ==> entries[i].at <= entries[j].at
  }

  lemma {:induction false} AllLive(entries: seq<Entry>, cutoff: int)
    requires forall i :: 0 <= i < |entries| ==> entries[i].at >= cutoff
    ensures Live(entries, cutoff) == entries
  {
    if entries != [] {
      AllLive(entries[..|entries| - 1], cutoff);
    }
  }

  lemma {:induction false} LiveTail(entries: seq<Entry>, cutoff: int)
    requires entries != []
    ensures Live(entries, cutoff) == (if entries[0].at >= cutoff then [entries[0]] else []) + Live(entries[1..], cutoff)
  {
    var n := |entries| - 1;
    if n > 0 {
      LiveTail(entries[..n], cutoff);
      assert entries[..n][1..] == entries[1..][..n - 1];
    }
  }

  /** Dropping the stale prefix is removing every stale entry. */
  lemma {:induction false} PruningIsExact(entries: seq<Entry>, cutoff: int)
    requires InOrder(entries)
    ensures DropStale(entries, cutoff) == Live(entries, cutoff)
  {
    if entries != [] {
      if entries[0].at < cutoff {
        PruningIsExact(entries[1..], cutoff);
        LiveTail(entries, cutoff);
      } else {
        AllLive(entries, cutoff);
      }
    }
  }

  lemma {:induction false} LiveTwice(entries: seq<Entry>, early: int, late: int)
    requires early <= late
    ensures Live(Live(entries, early), late) == Live(entries, late)
  {
    if entries != [] {
      var n := |entries| - 1;
      LiveTwice(entries[..n], early, late);
      var rest := Live(entries[..n], early);
      assert rest + [] == rest;
      assert (rest + [entries[n]])[..|rest|] == rest;
    }
  }

  lemma {:induction false} LiveMembers(entries: seq<Entry>, cutoff: int)
    ensures forall e :: e in Live(entries, cutoff) <==> e in entries && e.at >= cutoff
    ensures InOrder(entries) ==> InOrder(Live(entries, cutoff))
    decreases |entries|
  {
    if entries != [] {
      var n := |entries| - 1;
      LiveMembers(entries[..n], cutoff);
      assert forall e :: e in entries <==> e in entries[..n] || e == entries[n];
      if InOrder(entries) {
        assert InOrder(entries[..n]);
        var rest := Live(entries[..n], cutoff);
        forall i | 0 <= i < |rest| ensures rest[i].at <= entries[n].at {
          assert rest[i] in entries[..n];
        }
      }
    }
  }

  // ---- Whole runs -------------------------------------------------------------------------------

  /** A request as it arrives: its id, the timestamp it signed, the clock when its signature
      is verified and the clock when the cache is consulted. */
  datatype Request = Request(uuid: string, timestamp: int, now: int, checkedAt: int, signed: bool)

  /** The time between the two readings of the clock. */
  function Gap(r: Request): int {
    r.checkedAt - r.now
  }

  /** `verify_signature`, down to its clock test; everything else is `signed`. */
  predicate Verified(r: Request, delta: int) {
    && r.signed && r.uuid != "" && delta >= 0
    && !(r.timestamp + delta < r.now)
    && !(r.timestamp - delta > r.now)
  }

  /** The receiver: verify, then consult the cache. */
  function Receive(seen: seq<Entry>, l: Limits, delta: int, r: Request): (bool, seq<Entry>) {
    if Verified(r, delta) then Checked(seen, l, r.uuid, r.checkedAt) else (false, seen)
  }

  /** The clock never goes back, within a request or from one consultation to the next. */
  ghost predicate Nondecreasing(run: seq<Request>) {
    && (forall i :: 0 <= i < |run| ==> run[i].now <= run[i].checkedAt)
    && forall i, j :: 0 <= i <= j < |run| ==> run[i].checkedAt <= run[j].checkedAt
  }

  function CacheAfter(run: seq<Request>, l: Limits, delta: int): seq<Entry> {
    if run == [] then [] else Receive(CacheAfter(run[..|run| - 1], l, delta), l, delta, run[|run| - 1]).1
  }

  predicate Accepted(run: seq<Request>, l: Limits, delta: int, i: nat)
    requires i < |run|
  {
    Receive(CacheAfter(run[..i], l, delta), l, delta, run[i]).0
  }

  /** Everything ever accepted, without any pruning. */
  function History(run: seq<Request>, l: Limits, delta: int): seq<Entry> {
    if run == [] then []
    else
      var n := |run| - 1;
      History(run[..n], l, delta) + if Accepted(run, l, delta, n) then [Entry(run[n].uuid, run[n].checkedAt)] else []
  }

  ghost predicate Refines(seen: seq<Entry>, history: seq<Entry>, l: Limits, upTo: int) {
    && InOrder(history)
    && (forall i :: 0 <= i < |history| ==> history[i].at <= upTo)
    && exists cutoff :: cutoff <= upTo - l.windowMs && seen == Live(history, cutoff)
  }

  lemma PrunedIsLive(seen: seq<Entry>, history: seq<Entry>, l: Limits, upTo: int, now: int)
    requires upTo <= now && Refines(seen, history, l, upTo)
    ensures DropStale(seen, now - l.windowMs) == Live(history, now - l.windowMs)
  {
    var cutoff :| cutoff <= upTo - l.windowMs && seen == Live(history, cutoff);
    assert InOrder(seen) by { LiveMembers(history, cutoff); }
    hide Live, DropStale, InOrder;
    PruningIsExact(seen, now - l.windowMs);
    LiveTwice(history, cutoff, now - l.windowMs);
  }

  /** One arrival: the pruned cache decides as the whole history would. */
  lemma ReceiveRefines(seen: seq<Entry>, history: seq<Entry>, l: Limits, upTo: int, uuid: string, now: int)
    requires uuid != "" && upTo <= now && Refines(seen, history, l, upTo)
    ensures Checked(seen, l, uuid, now) == Decided(Live(history, now - l.windowMs), l, uuid, now)
  {
    hide Live, DropStale, Decided, Refines;
    PrunedIsLive(seen, history, l, upTo, now);
  }

  lemma StepRefines(seen: seq<Entry>, history: seq<Entry>, l: Limits, delta: int, r: Request)
    requires Refines(seen, history, l, r.checkedAt)
    ensures var (ok, after) := Receive(seen, l, delta, r);
            Refines(after, history + (if ok then [Entry(r.uuid, r.checkedAt)] else []), l, r.checkedAt)
  {
    assert history + [] == history;
    if Verified(r, delta) {
      ReceiveRefines(seen, history, l, r.checkedAt, r.uuid, r.checkedAt);
      AddRefines(history, l, r.checkedAt, r.uuid, r.checkedAt);
      hide Live, Refines, Known, Checked;
    }
  }

  lemma AddRefines(history: seq<Entry>, l: Limits, upTo: int, uuid: string, now: int)
    requires InOrder(history) && upTo <= now && forall i :: 0 <= i < |history| ==> history[i].at <= upTo
    ensures Refines(Live(history, now - l.windowMs), history, l, now)
    ensures Refines(Live(history, now - l.windowMs) + [Entry(uuid, now)], history + [Entry(uuid, now)], l, now)
  {
    var more := history + [Entry(uuid, now)];
    assert more[..|history|] == history;
    assert Live(more, now - l.windowMs) == Live(history, now - l.windowMs) + [Entry(uuid, now)];
  }

  /** Over every run with a nondecreasing clock the cache is the live part of the history. */
  lemma {:induction false} RunRefines(run: seq<Request>, l: Limits, delta: int, upTo: int)
    requires Nondecreasing(run) && forall i :: 0 <= i < |run| ==> run[i].checkedAt <= upTo
    ensures Refines(CacheAfter(run, l, delta), History(run, l, delta), l, upTo)
  {
    if run == [] {
      assert Live([], upTo - l.windowMs) == [];
    } else {
      var n := |run| - 1;
      var r, before, history := run[n], CacheAfter(run[..n], l, delta), History(run[..n], l, delta);
      RunRefines(run[..n], l, delta, r.checkedAt);
      hide Live, Receive, Refines;
      StepRefines(before, history, l, delta, r);
      RefinesLater(CacheAfter(run, l, delta), History(run, l, delta), l, r.checkedAt, upTo);
    }
  }

  lemma RefinesLater(seen: seq<Entry>, history: seq<Entry>, l: Limits, upTo: int, later: int)
    requires Refines(seen, history, l, upTo) && upTo <= later
    ensures Refines(seen, history, l, later)
  {
    var cutoff :| cutoff <= upTo - l.windowMs && seen == Live(history, cutoff);
    assert cutoff <= later - l.windowMs;
  }

  lemma {:induction false} AcceptedIsRecorded(run: seq<Request>, l: Limits, delta: int, i: nat, n: nat)
    requires i < n <= |run| && Accepted(run, l, delta, i)
    ensures Entry(run[i].uuid, run[i].checkedAt) in History(run[..n], l, delta)
    decreases n
  {
    assert run[..n][..n - 1] == run[..n - 1];
    if i < n - 1 {
      AcceptedIsRecorded(run, l, delta, i, n - 1);
    } else {
      assert run[..n][..i] == run[..i];
    }
  }

  /** A request accepted once is accepted again only if it was dated further ahead of its
      recording than the window exceeds the allowed skew and the gap between the two readings
      of the clock at its second acceptance. */
  lemma ReplayNeedsAheadOfTime(run: seq<Request>, l: Limits, delta: int, i: nat, j: nat)
    requires Nondecreasing(run) && i < j < |run|
    requires run[i].uuid == run[j].uuid && run[i].timestamp == run[j].timestamp
    requires Accepted(run, l, delta, i) && Accepted(run, l, delta, j)
    ensures run[i].timestamp > run[i].checkedAt + l.windowMs - delta - Gap(run[j])
  {
    var history, now := History(run[..j], l, delta), run[j].checkedAt;
    RunRefines(run[..j], l, delta, now);
    ReceiveRefines(CacheAfter(run[..j], l, delta), history, l, now, run[j].uuid, now);
    AcceptedIsRecorded(run, l, delta, i, j);
    LiveMembers(history, now - l.windowMs);
  }

  /** With the window at least as long as the skew and the gap, nothing dated at or before its
      recording is accepted twice; with twice the skew and the gap, nothing at all is. */
  lemma AcceptedAtMostOnce(run: seq<Request>, l: Limits, delta: int, gap: int, i: nat, j: nat)
    requires Nondecreasing(run) && i < j < |run|
    requires run[i].uuid == run[j].uuid && run[i].timestamp == run[j].timestamp
    requires Accepted(run, l, delta, i) && Gap(run[j]) <= gap
    requires (l.windowMs >= delta + gap && run[i].timestamp <= run[i].checkedAt) || l.windowMs >= 2 * delta + gap
    ensures !Accepted(run, l, delta, j)
  {
    if Accepted(run, l, delta, j) {
      ReplayNeedsAheadOfTime(run, l, delta, i, j);
    }
  }

  /** The bound is exact: for every window, skew, capacity and gap, a request dated further
      ahead than that can be replayed, within the gap, once its entry has expired. */
  lemma AheadOfTimeCanBeReplayed(l: Limits, delta: int, gap: nat, first: Request)
    returns (again: Request)
    requires l.maxEntries >= 1 && Verified(first, delta) && first.now <= first.checkedAt
    requires first.timestamp > first.checkedAt + l.windowMs - delta - gap
    ensures again.uuid == first.uuid && again.timestamp == first.timestamp
    ensures first.now <= again.now && Gap(again) <= gap && Nondecreasing([first, again])
    ensures Accepted([first, again], l, delta, 0) && Accepted([first, again], l, delta, 1)
  {
    var expired := first.checkedAt + l.windowMs + 1;
    again := first.(now := Min(expired, first.timestamp + delta), checkedAt := expired);
    TwiceAccepted(l, delta, first, again);
  }

  lemma TwiceAccepted(l: Limits, delta: int, first: Request, again: Request)
    requires l.maxEntries >= 1 && Verified(first, delta) && Verified(again, delta) && again.uuid == first.uuid
    requires again.checkedAt > first.checkedAt + l.windowMs
    ensures Accepted([first, again], l, delta, 0) && Accepted([first, again], l, delta, 1)
  {
    var run := [first, again];
    assert run[..0] == [] && run[..1] == [first] && [first][..0] == [];
    assert CacheAfter([first], l, delta) == [Entry(first.uuid, first.checkedAt)];
    assert DropStale([Entry(first.uuid, first.checkedAt)], again.checkedAt - l.windowMs) == [];
  }

  /** With the window equal to the skew, as deployed, requests dated ahead can be replayed even
      if the two readings always agree. */
  lemma EqualWindowIsNotEnough()
    ensures var l, first, again := Limits(8000, 100000), Request("id", 1, 0, 0, true),
        Request("id", 1, 8001, 8001, true);
            Accepted([first, again], l, 8000, 0) && Accepted([first, again], l, 8000, 1)
  {
    TwiceAccepted(Limits(8000, 100000), 8000, Request("id", 1, 0, 0, true), Request("id", 1, 8001, 8001, true));
  }

  /** With a gap of one millisecond even a request that is not dated ahead can, and so can one
      dated ahead when the window is twice the skew. */
  lemma GapsLetReplaysIn()
    ensures var l, first, again := Limits(8000, 100000), Request("id", 0, 0, 0, true),
        Request("id", 0, 8000, 8001, true);
            Accepted([first, again], l, 8000, 0) && Accepted([first, again], l, 8000, 1)
    ensures var l, first, again := Limits(16000, 100000), Request("id", 8000, 0, 0, true),
        Request("id", 8000, 16000, 16001, true);
            Accepted([first, again], l, 8000, 0) && Accepted([first, again], l, 8000, 1)
  {
    TwiceAccepted(Limits(8000, 100000), 8000, Request("id", 0, 0, 0, true), Request("id", 0, 8000, 8001, true));
    TwiceAccepted(Limits(16000, 100000), 8000, Request("id", 8000, 0, 0, true),
        Request("id", 8000, 16000, 16001, true));
  }
}
