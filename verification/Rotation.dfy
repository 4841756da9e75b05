/**
 Dealing solver subsets off a reshuffled queue (rlvr/orchestrator.py, RotationSampler).

 `Dealt` describes one draw in closed form; the class method, a loop that pops, rotates
 and refills, is proved to produce exactly that. Fairness over whole runs is then a
 statement about sequences of draws.
 */
module Rotation {
  import opened Seqs

  datatype Solver = Solver(uid: int, hotkey: string)

  /** `{s.uid: s for s in solvers}`: the last solver with a uid wins. */
  function ByUid(solvers: seq<Solver>): (m: map<int, Solver>)
    ensures forall u :: u in m ==> m[u] in solvers && m[u].uid == u
    ensures forall s :: s in solvers ==> s.uid in m
  {
    if solvers == [] then map[]
    else
      var last := solvers[|solvers| - 1];
      ByUid(solvers[..|solvers| - 1])[last.uid := last]
  }

  /** The same dictionary's keys, in the order Python keeps them: first insertion. */
  function Uids(solvers: seq<Solver>): (keys: seq<int>)
    ensures NoDup(keys)
    ensures forall u :: u in keys <==> u in ByUid(solvers)
  {
    if solvers == [] then []
    else
      var keys := Uids(solvers[..|solvers| - 1]);
      var uid := solvers[|solvers| - 1].uid;
      if uid in keys then keys else keys + [uid]
  }

  function Lookup(m: map<int, Solver>, uids: seq<int>): (r: seq<Solver>)
    requires forall i :: 0 <= i < |uids| ==> uids[i] in m
    ensures |r| == |uids|
    ensures forall i :: 0 <= i < |r| ==> r[i] == m[uids[i]]
  {
    seq(|uids|, i requires 0 <= i < |uids| => m[uids[i]])
  }

  /** What a scan of `deck` deals until `need` uids outside `taken` have come up:
      the uids dealt, the taken ones met on the way (they are rotated to the back) and
      the part never reached. */
  datatype Scan = Scan(dealt: seq<int>, rotated: seq<int>, left: seq<int>)

  function Draw(deck: seq<int>, taken: set<int>, need: nat): Scan {
    if need == 0 || deck == [] then Scan([], [], deck)
    else if deck[0] in taken then
      var r := Draw(deck[1..], taken, need);
      r.(rotated := [deck[0]] + r.rotated)
    else
      var r := Draw(deck[1..], taken, need - 1);
      r.(dealt := [deck[0]] + r.dealt)
  }

  /** One draw of `k` out of `keys`: serve the queue first, then a shuffle of every uid. */
  ghost predicate Dealt(queue: seq<int>, k: nat, deck: seq<int>, picked: seq<int>, queue': seq<int>) {
    if k <= |queue| then
      picked == queue[..k] && queue' == queue[k..]
    else
      var r := Draw(deck, ToSet(queue), k - |queue|);
      picked == queue + r.dealt && queue' == r.left + r.rotated
  }

  /** A scan only splits what it reads; it reaches its quota whenever enough uids remain. */
  lemma {:induction false} DrawSplits(deck: seq<int>, taken: set<int>, need: nat)
    requires NoDup(deck)
    ensures var r := Draw(deck, taken, need);
            && (forall u :: u in deck <==> u in r.dealt || u in r.rotated || u in r.left)
            && NoDup(r.dealt) && NoDup(r.rotated) && NoDup(r.left)
            && (forall u :: u in r.dealt ==> u !in taken && u !in r.left)
            && (forall u :: u in r.rotated ==> u in taken && u !in r.left)
  {
    if need != 0 && deck != [] {
      var x, rest := deck[0], deck[1..];
      assert deck == [x] + rest;
      assert x !in rest;
      if x in taken {
        DrawSplits(rest, taken, need);
        NoDupConcat([x], Draw(rest, taken, need).rotated);
      } else {
        DrawSplits(rest, taken, need - 1);
        NoDupConcat([x], Draw(rest, taken, need - 1).dealt);
      }
    }
  }

  lemma {:induction false} DrawReachesQuota(deck: seq<int>, taken: set<int>, need: nat)
    requires NoDup(deck)
    requires |ToSet(deck) - taken| >= need
    ensures |Draw(deck, taken, need).dealt| == need
  {
    if deck == [] {
      assert ToSet(deck) - taken == {};
    } else if need != 0 {
      DropHead(deck, taken);
      DrawReachesQuota(deck[1..], taken, if deck[0] in taken then need else need - 1);
    }
  }

  lemma DropHead(deck: seq<int>, taken: set<int>)
    requires NoDup(deck) && deck != []
    ensures NoDup(deck[1..])
    ensures |ToSet(deck) - taken| == |ToSet(deck[1..]) - taken| + if deck[0] in taken then 0 else 1
  {
    var x, rest := deck[0], deck[1..];
    assert x !in rest;
    var a, b := ToSet(deck) - taken, ToSet(rest) - taken;
    assert forall u :: u in deck <==> u == x || u in rest by { assert deck == [x] + rest; }
    if x in taken {
      assert a == b;
    } else {
      assert a == b + {x};
      assert x !in b;
    }
  }

  /** With k below the pool size, a refilled deck always holds enough unserved uids. */
  lemma EnoughLeft(queue: seq<int>, keys: seq<int>, k: int, deck: seq<int>)
    requires Drawable(queue, keys, k, deck)
    requires |queue| < k
    ensures NoDup(deck) && ToSet(deck) == ToSet(keys)
    ensures |Draw(deck, ToSet(queue), k - |queue|).dealt| == k - |queue|
  {
    ShuffleKeeps(keys, deck);
    CardNoDup(keys);
    CardNoDup(queue);
    assert |ToSet(keys) - ToSet(queue)| == |ToSet(keys)| - |ToSet(queue)|;
    DrawReachesQuota(deck, ToSet(queue), k - |queue|);
  }

  /** Precondition of a draw that the guard of `sample` establishes. */
  ghost predicate Drawable(queue: seq<int>, keys: seq<int>, k: int, deck: seq<int>) {
    && 0 < k < |keys|
    && NoDup(queue) && NoDup(keys)
    && ToSet(queue) <= ToSet(keys)
    && multiset(deck) == multiset(keys)
  }

  /** Every draw returns exactly `k` distinct members of the pool and keeps the queue
      free of repeats and inside the pool. */
  lemma DrawIsExact(queue: seq<int>, keys: seq<int>, k: int, deck: seq<int>, picked: seq<int>, queue': seq<int>)
    requires Drawable(queue, keys, k, deck)
    requires Dealt(queue, k, deck, picked, queue')
    ensures |picked| == k && NoDup(picked) && ToSet(picked) <= ToSet(keys)
    ensures NoDup(queue') && ToSet(queue') <= ToSet(keys)
  {
    if k > |queue| {
      var r := Draw(deck, ToSet(queue), k - |queue|);
      EnoughLeft(queue, keys, k, deck);
      DrawSplits(deck, ToSet(queue), k - |queue|);
      NoDupConcat(queue, r.dealt);
      NoDupConcat(r.left, r.rotated);
      forall u | u in r.dealt + r.left + r.rotated ensures u in ToSet(keys) {
        assert u in deck;
        assert u in ToSet(deck);
      }
    }
  }

  /** Which uids a draw serves and which stay queued: the accounting behind fairness.
      Without a refill a queued uid leaves the queue exactly when it is picked. A refill
      happens only once the whole queue has been served; afterwards a uid is queued again
      unless the shuffle also dealt it. */
  lemma DrawAccounting(queue: seq<int>, keys: seq<int>, k: int, deck: seq<int>, picked: seq<int>, queue': seq<int>,
      u: int)
    requires Drawable(queue, keys, k, deck)
    requires Dealt(queue, k, deck, picked, queue')
    requires u in keys
    ensures k <= |queue| && u in queue ==> (u in picked) != (u in queue')
    ensures k <= |queue| && u !in queue ==> u !in picked && u !in queue'
    ensures k > |queue| && u in queue ==> u in picked && u in queue'
    ensures k > |queue| && u !in queue ==> (u in picked) != (u in queue')
  {
    if k <= |queue| {
      assert queue == queue[..k] + queue[k..];
    } else {
      EnoughLeft(queue, keys, k, deck);
      DrawSplits(deck, ToSet(queue), k - |queue|);
      assert u in ToSet(keys);
      assert u in deck;
      assert u in queue <==> u in ToSet(queue);
    }
  }

  class RotationSampler {
    var queue: seq<int>

    constructor ()
      ensures queue == []
    {
      queue := [];
    }

    method Sample(solvers: seq<Solver>, k: int) returns (result: seq<Solver>)
      requires NoDup(queue)
      modifies this
      ensures Step(old(queue), Call(solvers, k, result), queue)
    {
      var byUid, keys := ByUid(solvers), Uids(solvers);
      if k <= 0 || k >= |keys| {
        return Lookup(byUid, keys);
      }
      queue := Filter(queue, ToSet(keys));
      ghost var served := queue;
      FilterNoDup(old(queue), ToSet(keys));
      var picked, deck := Deal(keys, k);
      DrawIsExact(served, keys, k, deck, picked, queue);
      forall i | 0 <= i < |picked| ensures picked[i] in byUid {
        assert picked[i] in ToSet(keys);
      }
      result := Lookup(byUid, picked);
      assert StepVia(old(queue), Call(solvers, k, result), queue, deck, picked);
    }

    /** The dealing loop of `sample`; `deck` is the shuffle it used, if it needed one. */
    method Deal(keys: seq<int>, k: int) returns (picked: seq<int>, ghost deck: seq<int>)
      requires Drawable(queue, keys, k, keys)
      modifies this
      ensures Drawable(old(queue), keys, k, deck)
      ensures Dealt(old(queue), k, deck, picked, queue)
    {
      ghost var served := queue;
      picked := [];
      deck := keys;
      ghost var refilled, scan := false, Position([], keys, [], []);
      while |picked| < k
        invariant |picked| <= k
        invariant Drawable(served, keys, k, deck)
        invariant !refilled ==> |picked| <= |served| && picked == served[..|picked|] && queue == served[|picked|..]
        invariant refilled ==> |served| < k && Progress(served, k, deck, scan, picked, queue)
        decreases k - |picked|, if refilled then 0 else 1, if refilled then |scan.rest| else 0
      {
        if queue == [] {
          // Everything is queued again and k is below the pool size, so a second refill
          // in the same call cannot happen.
          if refilled {
            StillUnpicked(served, keys, k, deck, scan, picked, queue);
            assert false;
          }
          assert picked == served;
          queue := Shuffle(keys);
          refilled, deck, scan := true, queue, Position([], queue, [], []);
        }
        if refilled {
          StillUnpicked(served, keys, k, deck, scan, picked, queue);
          AdvanceKeepsProgress(served, keys, k, deck, scan, picked, queue);
          scan := Advance(scan, ToSet(served));
        }
        var uid := queue[0];
        queue := queue[1..];
        if uid in picked {
          queue := queue + [uid];
          continue;
        }
        picked := picked + [uid];
      }
    }
  }

  /** The loop's position inside the scan of a refilled queue: what it has read, what is
      left, and what it dealt and rotated so far. */
  datatype Position = Position(seen: seq<int>, rest: seq<int>, dealt: seq<int>, rotated: seq<int>)

  function Advance(p: Position, taken: set<int>): Position
    requires p.rest != []
  {
    var x := p.rest[0];
    Position(p.seen + [x], p.rest[1..],
             if x in taken then p.dealt else p.dealt + [x],
             if x in taken then p.rotated + [x] else p.rotated)
  }

  ghost predicate Progress(served: seq<int>, k: int, deck: seq<int>, p: Position, picked: seq<int>, queue: seq<int>) {
    && |served| <= |picked| <= k
    && deck == p.seen + p.rest
    && picked == served + p.dealt
    && queue == p.rest + p.rotated
    && (forall u :: u in p.dealt ==> u in p.seen)
    && var tail := Draw(p.rest, ToSet(served), k - |picked|);
       Draw(deck, ToSet(served), k - |served|) == Scan(p.dealt + tail.dealt, p.rotated + tail.rotated, tail.left)
  }

  lemma StillUnpicked(served: seq<int>, keys: seq<int>, k: int, deck: seq<int>, p: Position, picked: seq<int>,
      queue: seq<int>)
    requires Drawable(served, keys, k, deck)
    requires Progress(served, k, deck, p, picked, queue)
    requires |served| < k && |picked| < k
    ensures p.rest != [] && queue != [] && queue[0] == p.rest[0]
    ensures p.rest[0] in picked <==> p.rest[0] in ToSet(served)
  {
    EnoughLeft(served, keys, k, deck);
    assert p.rest != [];
    assert p.rest[0] == deck[|p.seen|];
    assert forall i :: 0 <= i < |p.seen| ==> p.seen[i] == deck[i];
    assert p.rest[0] !in p.seen;
  }

  lemma AdvanceKeepsProgress(served: seq<int>, keys: seq<int>, k: int, deck: seq<int>, p: Position, picked: seq<int>,
      queue: seq<int>)
    requires Drawable(served, keys, k, deck)
    requires Progress(served, k, deck, p, picked, queue)
    requires |served| < k && |picked| < k
    requires p.rest != []
    ensures var x := p.rest[0];
            if x in ToSet(served)
            then Progress(served, k, deck, Advance(p, ToSet(served)), picked, queue[1..] + [x])
            else Progress(served, k, deck, Advance(p, ToSet(served)), picked + [x], queue[1..])
  {
    var x := p.rest[0];
    assert p.rest == [x] + p.rest[1..];
    assert queue[1..] == p.rest[1..] + p.rotated;
    assert p.seen + p.rest == p.seen + [x] + p.rest[1..];
    if x in ToSet(served) {
      var tail := Draw(p.rest[1..], ToSet(served), k - |picked|);
      assert p.rotated + ([x] + tail.rotated) == p.rotated + [x] + tail.rotated;
      assert p.rest[1..] + p.rotated + [x] == p.rest[1..] + (p.rotated + [x]);
    } else {
      var tail := Draw(p.rest[1..], ToSet(served), k - |picked| - 1);
      assert p.dealt + ([x] + tail.dealt) == p.dealt + [x] + tail.dealt;
      assert served + p.dealt + [x] == served + (p.dealt + [x]);
    }
  }

  // ---- Whole runs ---------------------------------------------------------------

  datatype Call = Call(solvers: seq<Solver>, k: int, result: seq<Solver>)

  ghost predicate StepVia(queue: seq<int>, c: Call, queue': seq<int>, deck: seq<int>, picked: seq<int>) {
    var keys := Uids(c.solvers);
    var served := Filter(queue, ToSet(keys));
    && Drawable(served, keys, c.k, deck)
    && Dealt(served, c.k, deck, picked, queue')
    && (forall i :: 0 <= i < |picked| ==> picked[i] in ByUid(c.solvers))
    && c.result == Lookup(ByUid(c.solvers), picked)
  }

  /** One call of `sample`, from queue to queue. */
  ghost predicate Step(queue: seq<int>, c: Call, queue': seq<int>) {
    if c.k <= 0 || c.k >= |Uids(c.solvers)| then
      queue' == queue && c.result == Lookup(ByUid(c.solvers), Uids(c.solvers))
    else
      exists deck, picked :: StepVia(queue, c, queue', deck, picked)
  }

  /** A run of `sample` calls on one sampler: `queues[i]` is the queue before call i. */
  ghost predicate Run(calls: seq<Call>, queues: seq<seq<int>>) {
    && |queues| == |calls| + 1
    && queues[0] == []
    && forall i :: 0 <= i < |calls| ==> Step(queues[i], calls[i], queues[i + 1])
  }

  ghost predicate Dispatched(c: Call, u: int) {
    exists s :: s in c.result && s.uid == u
  }

  /** How many of the calls dispatched a problem to `u`. */
  ghost function Load(calls: seq<Call>, u: int): nat {
    if calls == [] then 0
    else Load(calls[..|calls| - 1], u) + if Dispatched(calls[|calls| - 1], u) then 1 else 0
  }

  ghost predicate AlwaysPresent(calls: seq<Call>, u: int) {
    forall i :: 0 <= i < |calls| ==> u in Uids(calls[i].solvers)
  }

  /** For 0 < k < pool size a call returns exactly k solvers of the pool with distinct
      uids; otherwise it returns the whole pool. */
  lemma SampleIsExact(queue: seq<int>, c: Call, queue': seq<int>)
    requires NoDup(queue)
    requires Step(queue, c, queue')
    ensures |c.result| == if 0 < c.k < |Uids(c.solvers)| then c.k else |Uids(c.solvers)|
    ensures forall i, j :: 0 <= i < j < |c.result| ==> c.result[i].uid != c.result[j].uid
    ensures forall s :: s in c.result ==> s in c.solvers
    ensures NoDup(queue')
  {
    if 0 < c.k < |Uids(c.solvers)| {
      var deck, picked :| StepVia(queue, c, queue', deck, picked);
      var keys := Uids(c.solvers);
      DrawIsExact(Filter(queue, ToSet(keys)), keys, c.k, deck, picked, queue');
    }
  }

  /** The bookkeeping one call does for a uid that is in the pool: `base` is the load of
      the uids still queued, everyone else is one ahead. */
  lemma StepBalance(queue: seq<int>, c: Call, queue': seq<int>) returns (lift: int)
    requires NoDup(queue)
    requires Step(queue, c, queue')
    ensures NoDup(queue')
    ensures forall u :: u in Uids(c.solvers) ==>
              (if Dispatched(c, u) then 1 else 0)
              == lift + (if u in queue' then 0 else 1) - (if u in queue then 0 else 1)
  {
    SampleIsExact(queue, c, queue');
    var keys, m := Uids(c.solvers), ByUid(c.solvers);
    if c.k <= 0 || c.k >= |keys| {
      lift := 1;
      forall u | u in keys ensures Dispatched(c, u) {
        var i :| 0 <= i < |keys| && keys[i] == u;
        assert c.result[i] == m[u];
        assert c.result[i] in c.result;
      }
    } else {
      var deck, picked :| StepVia(queue, c, queue', deck, picked);
      var served := Filter(queue, ToSet(keys));
      lift := if c.k <= |served| then 0 else 1;
      forall u | u in keys
        ensures (if Dispatched(c, u) then 1 else 0)
                == lift + (if u in queue' then 0 else 1) - (if u in queue then 0 else 1)
      {
        DrawAccounting(served, keys, c.k, deck, picked, queue', u);
        DispatchedIffPicked(m, picked, c, u);
        assert u in served <==> u in queue by { assert u in ToSet(keys); }
      }
    }
  }

  lemma DispatchedIffPicked(m: map<int, Solver>, picked: seq<int>, c: Call, u: int)
    requires m == ByUid(c.solvers)
    requires forall i :: 0 <= i < |picked| ==> picked[i] in m
    requires c.result == Lookup(m, picked)
    ensures Dispatched(c, u) <==> u in picked
  {
    if u in picked {
      var i :| 0 <= i < |picked| && picked[i] == u;
      assert c.result[i] in c.result && c.result[i].uid == u;
    }
  }

  /** Invariant of every run: there is one `base` such that a uid present in every call
      has load `base` while queued and `base + 1` otherwise. */
  lemma {:induction false} RunBalance(calls: seq<Call>, queues: seq<seq<int>>) returns (base: int)
    requires Run(calls, queues)
    ensures NoDup(queues[|calls|])
    ensures forall u :: AlwaysPresent(calls, u) ==>
              Load(calls, u) == base + if u in queues[|calls|] then 0 else 1
  {
    if calls == [] {
      base := -1;
    } else {
      var n := |calls| - 1;
      var before := RunBalance(calls[..n], queues[..n + 1]);
      assert Step(queues[n], calls[n], queues[n + 1]);
      assert queues[..n + 1][n] == queues[n];
      hide Step, Dispatched, NoDup;
      var lift := StepBalance(queues[n], calls[n], queues[n + 1]);
      base := before + lift;
      forall u | AlwaysPresent(calls, u)
        ensures Load(calls, u) == base + if u in queues[|calls|] then 0 else 1
      {
        assert AlwaysPresent(calls[..n], u);
        assert u in Uids(calls[n].solvers);
      }
    }
  }

  /** Fairness: over any run, with any pool sizes, any k, any shuffles and any churn of
      other miners, two uids present throughout never differ by more than one problem. */
  lemma LoadsStayWithinOne(calls: seq<Call>, queues: seq<seq<int>>, u: int, v: int)
    requires Run(calls, queues)
    requires AlwaysPresent(calls, u) && AlwaysPresent(calls, v)
    ensures -1 <= Load(calls, u) - Load(calls, v) <= 1
  {
    var base := RunBalance(calls, queues);
  }
}
