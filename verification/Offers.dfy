/**
 Which miners a validator offers, and how the order survives from round to round
 (rlvr/v3/selection.py; the offer state in rlvr/neurons/decentralized.py).
 */
module Offers {
  import opened Seqs
  import opened Rounds
  import opened RoundProtocol

  // ---- Eligibility -------------------------------------------------------------------------

  /** A permit with unknown trust counts as validating. */
  predicate Validating(uid: nat, permits: Option<seq<bool>>, trust: Option<seq<real>>) {
    && permits.Some? && uid < |permits.value| && permits.value[uid]
    && (trust.Some? && uid < |trust.value| ==> trust.value[uid] > 0.0)
  }

  predicate Excluded(reg: Reg, permits: Option<seq<bool>>, trust: Option<seq<real>>, owner: Option<string>) {
    Some(reg.1) == owner || Validating(reg.0, permits, trust)
  }

  function EligibleMiners(serving: seq<Reg>, permits: Option<seq<bool>>, trust: Option<seq<real>>,
      owner: Option<string>): (r: seq<Reg>)
    ensures forall reg :: reg in r <==> reg in serving && !Excluded(reg, permits, trust, owner)
    ensures UidsApart(ToSet(serving)) ==> UidsApart(ToSet(r))
  {
    Filter(serving, set reg | reg in serving && !Excluded(reg, permits, trust, owner))
  }

  /** Who is offered at all: everyone serving but the subnet owner's hotkey and whoever holds a
      validator permit and is not known to be without trust. */
  lemma EligibleExactly(serving: seq<Reg>, permits: Option<seq<bool>>, trust: Option<seq<real>>,
      owner: Option<string>, reg: Reg)
    requires reg in serving
    ensures owner == Some(reg.1) ==> reg !in EligibleMiners(serving, permits, trust, owner)
    ensures owner != Some(reg.1) && (permits.None? || reg.0 >= |permits.value| || !permits.value[reg.0]) ==>
              reg in EligibleMiners(serving, permits, trust, owner)
    ensures owner != Some(reg.1) && permits.Some? && reg.0 < |permits.value| && permits.value[reg.0] ==>
              (reg in EligibleMiners(serving, permits, trust, owner) <==>
               trust.Some? && reg.0 < |trust.value| && trust.value[reg.0] <= 0.0)
  {
  }

  /** Eligible miners stand in the order they serve in. */
  lemma EligibleKeepOrder(serving: seq<Reg>, permits: Option<seq<bool>>, trust: Option<seq<real>>,
      owner: Option<string>, i: nat, j: nat)
    returns (k: nat, l: nat)
    requires i < j < |EligibleMiners(serving, permits, trust, owner)|
    ensures k < l < |serving|
    ensures serving[k] == EligibleMiners(serving, permits, trust, owner)[i]
    ensures serving[l] == EligibleMiners(serving, permits, trust, owner)[j]
  {
    var keep := set reg | reg in serving && !Excluded(reg, permits, trust, owner);
    k, l := FilterKeepsOrder(serving, keep, i, j);
  }

  // ---- One offer ------------------------------------------------------------------------------

  /** The previous order minus departed miners, then the newcomers in some order, cut off. */
  ghost predicate NextOffer(previous: seq<Reg>, eligible: set<Reg>, limit: nat, offered: seq<Reg>) {
    exists newcomers ::
      && NoDup(newcomers) && ToSet(newcomers) == eligible - ToSet(previous)
      && offered == Take(Filter(previous, eligible) + newcomers, limit)
  }

  method Newcomers(eligible: seq<Reg>, kept: set<Reg>) returns (deck: seq<Reg>)
    ensures NoDup(deck) && ToSet(deck) == ToSet(eligible) - kept
  {
    deck := [];
    for i := 0 to |eligible|
      invariant NoDup(deck)
      invariant ToSet(deck) == ToSet(eligible[..i]) - kept
    {
      assert ToSet(eligible[..i + 1]) == ToSet(eligible[..i]) + {eligible[i]};
      if eligible[i] !in kept && eligible[i] !in deck {
        AddLast(deck, eligible[i]);
        assert ToSet(deck + [eligible[i]]) == ToSet(deck) + {eligible[i]};
        deck := deck + [eligible[i]];
      }
    }
    assert eligible[..|eligible|] == eligible;
  }

  method ComputeNextOffer(previous: Option<seq<Reg>>, eligible: seq<Reg>, limit: nat) returns (offered: seq<Reg>)
    ensures NextOffer(if previous.Some? then previous.value else [], ToSet(eligible), limit, offered)
  {
    var earlier := if previous.Some? then previous.value else [];
    var kept := Filter(earlier, ToSet(eligible));
    var deck := Newcomers(eligible, ToSet(kept));
    assert ToSet(deck) == ToSet(eligible) - ToSet(earlier);
    var newcomers := Shuffle(deck);
    ShuffleKeeps(deck, newcomers);
    offered := Take(kept + newcomers, limit);
  }

  /** An offer repeats nobody, names only eligible miners, and names as many as the limit
      allows. */
  lemma OfferIsExact(previous: seq<Reg>, eligible: set<Reg>, limit: nat, offered: seq<Reg>)
    requires NoDup(previous) && NextOffer(previous, eligible, limit, offered)
    ensures NoDup(offered) && ToSet(offered) <= eligible
    ensures |offered| == Min(limit, |eligible|)
  {
    var newcomers :| NoDup(newcomers) && ToSet(newcomers) == eligible - ToSet(previous)
                     && offered == Take(Filter(previous, eligible) + newcomers, limit);
    var kept := Filter(previous, eligible);
    FilterNoDup(previous, eligible);
    forall x | x in kept ensures x !in newcomers {
      assert x in ToSet(previous);
      assert x !in ToSet(newcomers);
    }
    NoDupConcat(kept, newcomers);
    var all := kept + newcomers;
    forall x ensures x in eligible <==> x in all {
      assert x in ToSet(previous) <==> x in previous;
      assert x in ToSet(newcomers) <==> x in newcomers;
    }
    assert ToSet(all) == eligible;
    CardNoDup(all);
    forall i, j | 0 <= i < j < |offered| ensures offered[i] != offered[j] {
      assert offered[i] == all[i] && offered[j] == all[j];
    }
    forall x | x in offered ensures x in eligible {
      assert x in all;
    }
  }

  /** Everyone eligible has a different uid. */
  ghost predicate UidsApart(eligible: set<Reg>) {
    forall a, b :: a in eligible && b in eligible && a.0 == b.0 ==> a == b
  }

  /** With one registration per uid, the lease request takes every offer, unless the policy
      asks for more miners than a request may name. */
  lemma OfferIsSendable(previous: seq<Reg>, eligible: set<Reg>, offered: seq<Reg>, policy: Policy)
    requires NoDup(previous) && UidsApart(eligible) && NextOffer(previous, eligible, CANDIDATE_LIMIT, offered)
    ensures Sendable(offered, policy) <==> policy.minersPerTask <= CANDIDATE_LIMIT
  {
    OfferIsExact(previous, eligible, CANDIDATE_LIMIT, offered);
    hide NextOffer;
    forall i, j | 0 <= i < j < |offered| ensures SlotUids(offered)[i] != SlotUids(offered)[j] {
      assert offered[i] in ToSet(offered) && offered[j] in ToSet(offered);
    }
  }

  // ---- A run of rounds ------------------------------------------------------------------------

  /** One callback: who was eligible, what was offered, and whether the result earned a
      fresh draw. */
  datatype Turn = Turn(eligible: set<Reg>, offered: seq<Reg>, redraw: bool)

  function OrderAfter(t: Turn): seq<Reg> {
    if t.redraw then [] else t.offered
  }

  ghost predicate Run(order: seq<Reg>, turns: seq<Turn>) {
    && (turns != [] ==> NextOffer(order, turns[0].eligible, CANDIDATE_LIMIT, turns[0].offered))
    && forall k :: 0 < k < |turns| ==>
         NextOffer(OrderAfter(turns[k - 1]), turns[k].eligible, CANDIDATE_LIMIT, turns[k].offered)
  }

  /** The registrations eligible in every turn after i, up to j, and present at i. */
  function Staying(turns: seq<Turn>, i: nat, j: nat): set<Reg>
    requires i <= j < |turns|
    decreases j
  {
    if i == j then ToSet(turns[i].offered) else Staying(turns, i, j - 1) * turns[j].eligible
  }

  lemma FilterStarts(a: seq<Reg>, b: seq<Reg>, keep: set<Reg>)
    requires Starts(a, b)
    ensures Starts(Filter(a, keep), Filter(b, keep))
  {
    assert b == a + b[|a|..];
    FilterConcat(a, b[|a|..], keep);
  }

  /** Between fresh draws every order starts with the first one, minus those who ever left. */
  lemma {:induction false} OrderIsKept(order: seq<Reg>, turns: seq<Turn>, i: nat, j: nat)
    requires NoDup(order) && Run(order, turns) && i <= j < |turns|
    requires forall k :: i <= k < j ==> !turns[k].redraw
    ensures Starts(Filter(turns[i].offered, Staying(turns, i, j)), turns[j].offered)
    decreases j
  {
    if i == j {
      FilterAll(turns[i].offered, Staying(turns, i, j));
    } else {
      OrderIsKept(order, turns, i, j - 1);
      var before, eligible, now := turns[j - 1].offered, turns[j].eligible, turns[j].offered;
      var staying := Staying(turns, i, j - 1);
      FilterStarts(Filter(turns[i].offered, staying), before, eligible);
      FilterTwice(turns[i].offered, staying, eligible);
      OfferWithin(order, turns, j - 1);
      assert NextOffer(OrderAfter(turns[j - 1]), eligible, CANDIDATE_LIMIT, now);
      hide NextOffer, Filter;
      KeptComesFirst(before, eligible, now);
      StartsTwice(Filter(Filter(turns[i].offered, staying), eligible), Filter(before, eligible), now);
    }
  }

  lemma OfferWithin(order: seq<Reg>, turns: seq<Turn>, k: nat)
    requires Run(order, turns) && k < |turns|
    ensures |turns[k].offered| <= CANDIDATE_LIMIT
  {
    var previous := if k == 0 then order else OrderAfter(turns[k - 1]);
    assert NextOffer(previous, turns[k].eligible, CANDIDATE_LIMIT, turns[k].offered);
  }

  lemma KeptComesFirst(previous: seq<Reg>, eligible: set<Reg>, offered: seq<Reg>)
    requires |previous| <= CANDIDATE_LIMIT && NextOffer(previous, eligible, CANDIDATE_LIMIT, offered)
    ensures Starts(Filter(previous, eligible), offered)
  {
  }

  /** Every offer of a run repeats nobody and is as long as it can be. */
  lemma {:induction false} OffersAreExact(order: seq<Reg>, turns: seq<Turn>, k: nat)
    requires NoDup(order) && Run(order, turns) && k < |turns|
    ensures NoDup(turns[k].offered) && ToSet(turns[k].offered) <= turns[k].eligible
    ensures |turns[k].offered| == Min(CANDIDATE_LIMIT, |turns[k].eligible|)
  {
    if k > 0 {
      OffersAreExact(order, turns, k - 1);
    }
    var previous := if k == 0 then order else OrderAfter(turns[k - 1]);
    assert NextOffer(previous, turns[k].eligible, CANDIDATE_LIMIT, turns[k].offered);
    OfferIsExact(previous, turns[k].eligible, CANDIDATE_LIMIT, turns[k].offered);
  }

  /** An offer shorter than the limit names everyone eligible. */
  lemma ShortOfferIsEveryone(order: seq<Reg>, turns: seq<Turn>, k: nat)
    requires NoDup(order) && Run(order, turns) && k < |turns|
    requires |turns[k].offered| < CANDIDATE_LIMIT
    ensures ToSet(turns[k].offered) == turns[k].eligible
  {
    OffersAreExact(order, turns, k);
    CardNoDup(turns[k].offered);
    var rest := turns[k].eligible - ToSet(turns[k].offered);
    assert turns[k].eligible == ToSet(turns[k].offered) + rest;
    assert |turns[k].eligible| == |ToSet(turns[k].offered)| + |rest|;
  }

  /** If the front of an offer stays eligible, every lease dispatched until the next fresh draw
      is for all of it, whatever the server answers in between. If the offer filled the front
      it is for exactly those miners; if there were too few, others join, and only ones that
      were not eligible when the offer was made. */
  lemma SameMinersUntilRedraw(order: seq<Reg>, turns: seq<Turn>, i: nat, j: nat, policy: Policy, w: World)
    requires NoDup(order) && Run(order, turns) && i <= j < |turns|
    requires forall k :: i <= k < j ==> !turns[k].redraw
    requires forall k :: i < k <= j ==> ToSet(Front(turns[i].offered, policy)) <= turns[k].eligible
    requires Dispatched(turns[j].offered, policy, w)
    ensures Starts(Front(turns[i].offered, policy), Front(turns[j].offered, policy))
    ensures ToSet(Front(turns[i].offered, policy)) <= ToSet(w.lease.value.slots)
    ensures policy.minersPerTask <= |turns[i].offered| ==>
              ToSet(w.lease.value.slots) == ToSet(Front(turns[i].offered, policy))
    ensures forall reg :: reg in w.lease.value.slots && reg !in Front(turns[i].offered, policy) ==>
              reg in turns[j].eligible && reg !in turns[i].eligible
  {
    var front, now := Front(turns[i].offered, policy), Front(turns[j].offered, policy);
    FrontStays(turns, i, j, policy);
    OrderIsKept(order, turns, i, j);
    FilterAll(front, Staying(turns, i, j));
    FilterStarts(front, turns[i].offered, Staying(turns, i, j));
    StartsTwice(front, Filter(turns[i].offered, Staying(turns, i, j)), turns[j].offered);
    assert now[..|front|] == front;
    OffersAreExact(order, turns, j);
    var slots := w.lease.value.slots;
    assert ToSet(slots) == ToSet(now) && policy.minersPerTask <= CANDIDATE_LIMIT;
    hide Run, Dispatched, Starts, Staying, Filter;
    SlotsOf(slots, now, front);
    forall reg | reg in now ensures reg in turns[j].eligible {
      assert reg in turns[j].offered && reg in ToSet(turns[j].offered);
    }
    if policy.minersPerTask <= |turns[i].offered| {
      assert now == front;
    } else {
      assert front == turns[i].offered;
      ShortOfferIsEveryone(order, turns, i);
      assert forall reg :: reg in turns[i].eligible <==> reg in ToSet(front);
    }
  }

  lemma SlotsOf(slots: seq<Reg>, now: seq<Reg>, front: seq<Reg>)
    requires ToSet(slots) == ToSet(now) && |front| <= |now| && now[..|front|] == front
    ensures forall reg :: reg in slots <==> reg in now
    ensures ToSet(front) <= ToSet(slots)
  {
    forall reg ensures reg in slots <==> reg in now {
      assert reg in ToSet(slots) <==> reg in ToSet(now);
    }
    forall reg | reg in ToSet(front) ensures reg in ToSet(slots) {
      assert reg in now[..|front|];
    }
  }

  lemma {:induction false} FrontStays(turns: seq<Turn>, i: nat, j: nat, policy: Policy)
    requires i <= j < |turns|
    requires forall k :: i < k <= j ==> ToSet(Front(turns[i].offered, policy)) <= turns[k].eligible
    ensures ToSet(Front(turns[i].offered, policy)) <= Staying(turns, i, j)
    decreases j
  {
    if i < j {
      FrontStays(turns, i, j - 1, policy);
    }
  }

  // ---- The callback ----------------------------------------------------------------------------

  predicate Redraws(r: RoundResult) {
    r.Completed? || (r.RoundAbandoned? && r.code == QuorumNotMet)
  }

  /** `offer_state` and the part of the callback that reads and writes it. */
  class OfferState {
    var order: Option<seq<Reg>>

    constructor ()
      ensures order == None
    {
      order := None;
    }

    ghost function Order(): seq<Reg>
      reads this
    {
      if order.Some? then order.value else []
    }

    method RoundCallback(eligible: seq<Reg>, policy: Policy, w: World) returns (turn: Turn, r: RoundResult)
      requires ValidPolicy(policy) && NoDup(Order()) && UidsApart(ToSet(eligible))
      modifies this
      ensures turn.eligible == ToSet(eligible)
      ensures NextOffer(old(Order()), turn.eligible, CANDIDATE_LIMIT, turn.offered)
      ensures NoDup(Order()) && Order() == OrderAfter(turn)
      ensures r.Completed? ==> turn.redraw && OnePerSlot(r.evaluations, ToSet(Front(turn.offered, policy)))
      ensures turn.redraw <==> r.Completed? || (Dispatched(turn.offered, policy, w)
                               && |Answered(ToSet(Front(turn.offered, policy)), w.reply)| < policy.commitQuorum)
      ensures Sendable(turn.offered, policy) <==> policy.minersPerTask <= CANDIDATE_LIMIT
      ensures turn.offered == [] ==> r.Unavailable?
      ensures r.Unavailable? ==> r.retryAfter == if turn.offered == [] then None else w.retryAfter
    {
      var offered := ComputeNextOffer(order, eligible, CANDIDATE_LIMIT);
      OfferIsExact(Order(), ToSet(eligible), CANDIDATE_LIMIT, offered);
      OfferIsSendable(Order(), ToSet(eligible), offered, policy);
      order := Some(offered);
      if offered == [] {
        return Turn(ToSet(eligible), offered, false), Unavailable(None);
      }
      hide NextOffer, Sendable, Dispatched, RevealAccepted, AllSound, RecordsVerdicts, OnePerSlot, Shared;
      r := EvaluateRound(offered, policy, w);
      turn := Turn(ToSet(eligible), offered, Redraws(r));
      if Redraws(r) {
        order := None;
      }
    }
  }
}
