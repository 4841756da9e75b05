/**
 The rules a miner's trajectory must meet (rlvr/v3/trajectory.py, Trajectory.validate_events).
 */
module Trajectories {
  import opened Seqs
  import opened Unicode

  /** What an event says, without its sequence number. Model turns carry the reply they record
      and, for each alternative token, whether its log probability is a finite number. */
  datatype Body =
    | ModelTurn(output: Text, alternatives: seq<bool>)
    | ModelFailure
    | ToolCall(callId: Text)
    | ToolResult(resultId: Text)
    | FinalSubmission(sha256: Text)

  datatype Event = Event(sequence: int, body: Body)

  ghost predicate Contiguous(events: seq<Event>) {
    forall i :: 0 <= i < |events| ==> events[i].sequence == i
  }

  /** Exactly one final submission, at the end, with this digest. */
  ghost predicate EndsWith(events: seq<Event>, sha256: Text) {
    && events != [] && events[|events| - 1].body == FinalSubmission(sha256)
    && forall i :: 0 <= i < |events| - 1 ==> !events[i].body.FinalSubmission?
  }

  predicate CallsAt(events: seq<Event>, i: int, id: Text) {
    0 <= i < |events| && events[i].body == ToolCall(id)
  }

  predicate ResultAt(events: seq<Event>, i: int, id: Text) {
    0 <= i < |events| && events[i].body == ToolResult(id)
  }

  /** Every call has one result, later; every result has one call. */
  ghost predicate CallsAnswered(events: seq<Event>) {
    && (forall i, j, id :: CallsAt(events, i, id) && CallsAt(events, j, id) ==> i == j)
    && (forall i, j, id :: ResultAt(events, i, id) && ResultAt(events, j, id) ==> i == j)
    && (forall i, id :: CallsAt(events, i, id) ==> exists j :: i < j && ResultAt(events, j, id))
    && (forall j, id :: ResultAt(events, j, id) ==> exists i :: i < j && CallsAt(events, i, id))
    && (exists i, id :: CallsAt(events, i, id))
  }

  ghost predicate HasModelTurn(events: seq<Event>) {
    exists i :: 0 <= i < |events| && events[i].body.ModelTurn?
  }

  const MIN_EVENTS: nat := 4
  const MAX_EVENTS: nat := 100000

  function AlternativesOf(body: Body): seq<bool> {
    if body.ModelTurn? then body.alternatives else []
  }

  /** Every alternative of every model turn. */
  function Alternatives(events: seq<Event>): seq<bool> {
    if events == [] then [] else Alternatives(events[..|events| - 1]) + AlternativesOf(events[|events| - 1].body)
  }

  function Finite(alternatives: seq<bool>): nat {
    if alternatives == [] then 0
    else Finite(alternatives[..|alternatives| - 1]) + if alternatives[|alternatives| - 1] then 1 else 0
  }

  /** At least 85 % of the alternatives are finite. */
  predicate MostlyFinite(alternatives: seq<bool>) {
    Finite(alternatives) * 100 >= |alternatives| * 85
  }

  function Missing(alternatives: seq<bool>): nat {
    if alternatives == [] then 0
    else Missing(alternatives[..|alternatives| - 1]) + if alternatives[|alternatives| - 1] then 0 else 1
  }

  /** A trace may miss the log probabilities of at most 15 in 100 alternatives. */
  lemma {:induction false} FewMayBeMissing(alternatives: seq<bool>)
    ensures Finite(alternatives) + Missing(alternatives) == |alternatives|
    ensures MostlyFinite(alternatives) <==> Missing(alternatives) * 100 <= |alternatives| * 15
  {
    if alternatives != [] {
      FewMayBeMissing(alternatives[..|alternatives| - 1]);
    }
  }

  ghost predicate ValidTrace(events: seq<Event>, sha256: Text) {
    && MIN_EVENTS <= |events| <= MAX_EVENTS
    && Contiguous(events) && HasModelTurn(events) && EndsWith(events, sha256) && CallsAnswered(events)
    && MostlyFinite(Alternatives(events))
  }

  // ---- The validator's loops --------------------------------------------------------------------

  /** `calls` maps each call id among the first n events to its place. */
  ghost predicate IndexedCalls(events: seq<Event>, n: nat, calls: map<Text, int>) {
    && (forall id :: id in calls ==> calls[id] < n && CallsAt(events, calls[id], id))
    && (forall i, id :: i < n && CallsAt(events, i, id) ==> id in calls && calls[id] == i)
  }

  ghost predicate IndexedResults(events: seq<Event>, n: nat, results: map<Text, int>) {
    && (forall id :: id in results ==> results[id] < n && ResultAt(events, results[id], id))
    && (forall i, id :: i < n && ResultAt(events, i, id) ==> id in results && results[id] == i)
  }

  /** The loop over events: None when an id repeats. */
  method IndexEvents(events: seq<Event>) returns (r: Option<(map<Text, int>, map<Text, int>)>)
    requires Contiguous(events)
    ensures r.Some? ==> IndexedCalls(events, |events|, r.value.0) && IndexedResults(events, |events|, r.value.1)
    ensures r.None? ==>
              (exists i, j, id :: i < j && CallsAt(events, i, id) && CallsAt(events, j, id))
              || (exists i, j, id :: i < j && ResultAt(events, i, id) && ResultAt(events, j, id))
  {
    var calls: map<Text, int>, results: map<Text, int> := map[], map[];
    for k := 0 to |events|
      invariant IndexedCalls(events, k, calls) && IndexedResults(events, k, results)
    {
      match events[k].body {
        case ToolCall(id) =>
          if id in calls {
            assert CallsAt(events, calls[id], id) && CallsAt(events, k, id);
            return None;
          }
          calls := calls[id := events[k].sequence];
        case ToolResult(id) =>
          if id in results {
            assert ResultAt(events, results[id], id) && ResultAt(events, k, id);
            return None;
          }
          results := results[id := events[k].sequence];
        case _ =>
      }
    }
    return Some((calls, results));
  }

  /** What the comparison of the two dictionaries amounts to. */
  lemma DictionariesDecide(events: seq<Event>, calls: map<Text, int>, results: map<Text, int>)
    requires IndexedCalls(events, |events|, calls) && IndexedResults(events, |events|, results)
    ensures CallsAnswered(events) <==>
            calls.Keys != {} && calls.Keys == results.Keys && forall id :: id in calls && id in results ==>
                calls[id] < results[id]
  {
    if CallsAnswered(events) {
      forall id | id in calls ensures id in results && calls[id] < results[id] {
        assert CallsAt(events, calls[id], id);
        var j :| calls[id] < j && ResultAt(events, j, id);
      }
      forall id | id in results ensures id in calls {
        assert ResultAt(events, results[id], id);
        var i :| i < results[id] && CallsAt(events, i, id);
      }
      var i, id :| CallsAt(events, i, id);
      assert id in calls;
    }
    if calls.Keys != {} && calls.Keys == results.Keys && forall id :: id in calls && id in results ==>
        calls[id] < results[id] {
      forall i, id | CallsAt(events, i, id) ensures exists j :: i < j && ResultAt(events, j, id) {
        assert id in calls && id in results.Keys;
        assert i < results[id] && ResultAt(events, results[id], id);
      }
      forall j, id | ResultAt(events, j, id) ensures exists i :: i < j && CallsAt(events, i, id) {
        assert id in results && id in calls.Keys;
        assert calls[id] < j && CallsAt(events, calls[id], id);
      }
      var id :| id in calls;
      assert CallsAt(events, calls[id], id);
    }
  }

  lemma {:induction false} FiniteConcat(a: seq<bool>, b: seq<bool>)
    ensures Finite(a + b) == Finite(a) + Finite(b)
  {
    if b == [] {
      assert a + b == a;
    } else {
      assert (a + b)[..|a + b| - 1] == a + b[..|b| - 1];
      FiniteConcat(a, b[..|b| - 1]);
    }
  }

  method CountTrue(alternatives: seq<bool>) returns (n: nat)
    ensures n == Finite(alternatives)
  {
    n := 0;
    for i := 0 to |alternatives|
      invariant n == Finite(alternatives[..i])
    {
      assert alternatives[..i + 1][..i] == alternatives[..i];
      n := n + if alternatives[i] then 1 else 0;
    }
    assert alternatives[..|alternatives|] == alternatives;
  }

  lemma OneMoreEvent(events: seq<Event>, i: nat)
    requires i < |events|
    ensures var more := AlternativesOf(events[i].body);
            && |Alternatives(events[..i + 1])| == |Alternatives(events[..i])| + |more|
            && Finite(Alternatives(events[..i + 1])) == Finite(Alternatives(events[..i])) + Finite(more)
  {
    assert events[..i + 1][..i] == events[..i];
    FiniteConcat(Alternatives(events[..i]), AlternativesOf(events[i].body));
  }

  /** The two sums over all alternatives. */
  method CountFinite(events: seq<Event>) returns (finite: nat, total: nat)
    ensures finite == Finite(Alternatives(events)) && total == |Alternatives(events)|
  {
    finite, total := 0, 0;
    for i := 0 to |events|
      invariant finite == Finite(Alternatives(events[..i])) && total == |Alternatives(events[..i])|
    {
      OneMoreEvent(events, i);
      hide Alternatives, Finite;
      var more := CountTrue(AlternativesOf(events[i].body));
      finite, total := finite + more, total + |AlternativesOf(events[i].body)|;
    }
    assert events[..|events|] == events;
  }

  method ValidateEvents(events: seq<Event>, sha256: Text) returns (ok: bool)
    ensures ok <==> ValidTrace(events, sha256)
  {
    if |events| < MIN_EVENTS || |events| > MAX_EVENTS {
      return false;
    }
    if exists i :: 0 <= i < |events| && events[i].sequence != i {
      return false;
    }
    if !exists i :: 0 <= i < |events| && events[i].body.ModelTurn? {
      return false;
    }
    var n := |events| - 1;
    if !events[n].body.FinalSubmission? || exists i :: 0 <= i < n && events[i].body.FinalSubmission? {
      return false;
    }
    if events[n].body.sha256 != sha256 {
      return false;
    }
    assert Contiguous(events) && HasModelTurn(events) && EndsWith(events, sha256);
    hide Contiguous, HasModelTurn, EndsWith, IndexedCalls, IndexedResults;
    var indexed := IndexEvents(events);
    if indexed.None? {
      return false;
    }
    var (calls, results) := indexed.value;
    DictionariesDecide(events, calls, results);
    hide CallsAnswered;
    if calls.Keys == {} || calls.Keys != results.Keys
        || exists id :: id in calls && id in results && results[id] <= calls[id] {
      return false;
    }
    var finite, total := CountFinite(events);
    ok := finite * 100 >= total * 85;
  }
}
