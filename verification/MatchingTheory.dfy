/** What the matching specification promises: priority, maximal fill, an uncrossed book. */
module MatchingTheory {
  import opened Domain
  import opened Matching
  import opened Sums

  /** A state a matching loop may start from. */
  ghost predicate Start(s: State) {
    Book(s.rest) && Incoming(s.taker) && s.taker.terms.id !in s.rest
  }

  function MakerOf(s: State, m: Match): string {
    m.Party(s.MakerSide()).id
  }

  // ---------------------------------------------------------------- one match

  /** One match: what it fills, and what it leaves alone. */
  lemma OneMatch(s: State, m: Match)
    requires Start(s) && CanMatch(s, m)
    ensures var s', id := ApplyMatch(s, m), MakerOf(s, m);
      && Start(s') && m.fill > 0
      && s'.taker == FillOrder(s.taker, m.fill) && s'.taker.Remaining() >= 0
      && (if s.rest[id].Remaining() == m.fill then s'.rest == s.rest - {id}
          else s'.taker.Remaining() == 0 && s'.rest == s.rest[id := FillOrder(s.rest[id], m.fill)])
      && m.Party(s.MakerSide()) == s.rest[id].terms && m.Party(s.taker.terms.side) == s.taker.terms
  {
  }

  lemma MatchCrosses(s: State, m: Match)
    requires CanMatch(s, m)
    ensures var id := MakerOf(s, m);
      && id in s.rest && s.rest[id].terms.side == s.MakerSide() && Crosses(s.taker.terms, s.rest[id].terms)
      && s.taker.Remaining() > 0 && s.taker.terms.Positive() && s.rest[id].terms.Positive()
      && m == MakeMatch(s.taker, s.rest[id])
  {
  }

  // ---------------------------------------------------------------- runs, from the front

  /** A run of matches can be read from its first match on. */
  lemma {:induction false} FromFront(s: State, ms: seq<Match>)
    requires CanMatchAll(s, ms) && ms != []
    ensures CanMatch(s, ms[0]) && CanMatchAll(ApplyMatch(s, ms[0]), ms[1..])
    ensures ApplyAll(s, ms) == ApplyAll(ApplyMatch(s, ms[0]), ms[1..])
  {
    var n := |ms| - 1;
    if n > 0 {
      FromFront(s, ms[..n]);
      assert ms[..n][1..] == ms[1..][..n - 1] && ms[..n][0] == ms[0];
    } else {
      assert ms[..n] == [] && ms[1..] == [];
    }
  }

  lemma {:induction false} RunKeepsStart(s: State, ms: seq<Match>)
    requires Start(s) && CanMatchAll(s, ms)
    ensures var e := ApplyAll(s, ms);
      && Start(e) && e.taker.terms == s.taker.terms
      && (ms != [] ==> e.taker.Remaining() >= 0)
      && (forall id | id in e.rest :: id in s.rest && e.rest[id].terms == s.rest[id].terms)
      && (forall id | id in s.rest && s.rest[id].terms.side != s.MakerSide() ::
          id in e.rest && e.rest[id] == s.rest[id])
  {
    if ms != [] {
      RunKeepsStart(s, ms[..|ms| - 1]);
      OneMatch(ApplyAll(s, ms[..|ms| - 1]), ms[|ms| - 1]);
    }
  }

  // ---------------------------------------------------------------- price-time priority

  /** Every matched order rested on the opposite side when the run began. */
  lemma {:induction false} MakerRested(s: State, ms: seq<Match>, j: nat)
    requires Start(s) && CanMatchAll(s, ms) && j < |ms|
    ensures var id := MakerOf(s, ms[j]);
      id in s.rest && s.rest[id].terms.side == s.MakerSide() && ms[j].Party(s.MakerSide()) == s.rest[id].terms
    decreases |ms|
  {
    FromFront(s, ms);
    OneMatch(s, ms[0]);
    if j > 0 {
      MakerRested(ApplyMatch(s, ms[0]), ms[1..], j - 1);
    }
  }

  /** When a run goes on, its first resting order was filled to the end. */
  lemma FirstIsGone(s: State, ms: seq<Match>)
    requires Start(s) && CanMatchAll(s, ms) && |ms| > 1
    ensures var s1, id := ApplyMatch(s, ms[0]), MakerOf(s, ms[0]);
      && Start(s1) && CanMatchAll(s1, ms[1..]) && ApplyAll(s, ms) == ApplyAll(s1, ms[1..])
      && s1.taker.terms == s.taker.terms && s1.rest == s.rest - {id}
      && IsBest(s.rest, s.MakerSide(), id) && ms[0].fill == s.rest[id].Remaining()
  {
    FromFront(s, ms);
    OneMatch(s, ms[0]);
    FromFront(ApplyMatch(s, ms[0]), ms[1..]);
  }

  /** Matched orders are pairwise distinct and taken by price, and by time where prices are equal, and all
      but the last are filled to the end and gone. */
  lemma {:induction false} PriceTimePriority(s: State, ms: seq<Match>, i: nat, j: nat)
    requires Start(s) && CanMatchAll(s, ms) && i < j < |ms|
    ensures var first, second := MakerOf(s, ms[i]), MakerOf(s, ms[j]);
      && first != second
      && first in s.rest && second in s.rest
      && var a, b := s.rest[first].terms, s.rest[second].terms;
      && a == ms[i].Party(s.MakerSide()) && b == ms[j].Party(s.MakerSide())
      && (if s.MakerSide().Sell? then a.price <= b.price else a.price >= b.price)
      && (a.price == b.price ==> a.createdAt <= b.createdAt)
      && ms[i].fill == s.rest[first].Remaining()
      && first !in ApplyAll(s, ms).rest
    decreases |ms|
  {
    hide CanMatchAll, ApplyAll, CanMatch, ApplyMatch, Start, Less;
    FirstIsGone(s, ms);
    var s1 := ApplyMatch(s, ms[0]);
    MakerRested(s, ms, i);
    MakerRested(s, ms, j);
    NotAfter(s.MakerSide(), s.rest[MakerOf(s, ms[0])].terms, s.rest[MakerOf(s, ms[j])].terms);
    RunKeepsStart(s1, ms[1..]);
    MakerRested(s1, ms[1..], j - 1);
    if i > 0 {
      MakerRested(s1, ms[1..], i - 1);
      PriceTimePriority(s1, ms[1..], i - 1, j - 1);
    }
  }

  /** An order still resting at the end has no better price than any matched one, and is no older than a
      matched one of the same price. */
  lemma {:induction false} MatchedFirst(s: State, ms: seq<Match>, i: nat, id: string)
    requires Start(s) && CanMatchAll(s, ms) && i < |ms|
    requires id in ApplyAll(s, ms).rest && ApplyAll(s, ms).rest[id].terms.side == s.MakerSide()
    ensures var matched, left := ms[i].Party(s.MakerSide()), ApplyAll(s, ms).rest[id].terms;
      && (if s.MakerSide().Sell? then matched.price <= left.price else matched.price >= left.price)
      && (matched.price == left.price ==> matched.createdAt <= left.createdAt)
    decreases |ms|
  {
    RunKeepsStart(s, ms);
    FromFront(s, ms);
    OneMatch(s, ms[0]);
    NotAfter(s.MakerSide(), ms[0].Party(s.MakerSide()), ApplyAll(s, ms).rest[id].terms);
    if i > 0 {
      MatchedFirst(ApplyMatch(s, ms[0]), ms[1..], i - 1, id);
    }
  }

  /** Every match is reported at the price of the order that rested, which neither party's price is
      beyond. */
  lemma {:induction false} MakersPrice(s: State, ms: seq<Match>, i: nat)
    requires Start(s) && CanMatchAll(s, ms) && i < |ms|
    ensures var id := MakerOf(s, ms[i]);
      id in s.rest && ms[i].price == s.rest[id].terms.price && ms[i].sell.price <= ms[i].price <= ms[i].buy.price
    decreases |ms|
  {
    FromFront(s, ms);
    OneMatch(s, ms[0]);
    MatchCrosses(s, ms[0]);
    if i > 0 {
      MakersPrice(ApplyMatch(s, ms[0]), ms[1..], i - 1);
    }
  }

  // ---------------------------------------------------------------- the simple matcher

  /** The simple matcher: walk a list of resting orders, filling from each in turn, until the incoming
      order is filled or the next price is not compatible. */
  function Walk(list: seq<OrderValue>, taker: OrderValue): seq<Match>
    requires taker.terms.Positive() && forall i :: 0 <= i < |list| ==> list[i].terms.Positive()
  {
    if list == [] || taker.Remaining() <= 0 || !Crosses(taker.terms, list[0].terms) then []
    else
      var m := MakeMatch(taker, list[0]);
      [m] + Walk(list[1..], FillOrder(taker, m.fill))
  }

  /** The list holds each resting order of the side exactly once. */
  ghost predicate Lists(rest: Resting, side: Side, list: seq<OrderValue>) {
    && (forall i :: 0 <= i < |list| ==>
          list[i].terms.side == side && list[i].terms.id in rest && rest[list[i].terms.id] == list[i])
    && (forall i, j :: 0 <= i < j < |list| ==> list[i].terms.id != list[j].terms.id)
    && (forall id | id in rest && rest[id].terms.side == side :: rest[id] in list)
  }

  ghost predicate Sorted(side: Side, list: seq<OrderValue>) {
    forall i, j :: 0 <= i < j < |list| ==> !Less(side, list[j].terms, list[i].terms)
  }

  /** Sorted, and no two orders tie in both price and time. */
  ghost predicate StrictlySorted(side: Side, list: seq<OrderValue>) {
    forall i, j :: 0 <= i < j < |list| ==> Less(side, list[i].terms, list[j].terms)
  }

  lemma DropFirst(rest: Resting, side: Side, list: seq<OrderValue>)
    requires Book(rest) && list != [] && Lists(rest, side, list)
    ensures Lists(rest - {list[0].terms.id}, side, list[1..])
  {
  }

  /** Without ties there is one possible outcome: the walk over the sorted opposite side. */
  lemma {:induction false} WalkIsForced(s: State, ms: seq<Match>, list: seq<OrderValue>)
    requires Start(s) && CanMatchAll(s, ms) && Done(ApplyAll(s, ms))
    requires Lists(s.rest, s.MakerSide(), list) && StrictlySorted(s.MakerSide(), list)
    ensures ms == Walk(list, s.taker)
    decreases |list|
  {
    if ms == [] {
      if list != [] {
        assert list[0] in list;
      }
    } else {
      FromFront(s, ms);
      OneMatch(s, ms[0]);
      var id := MakerOf(s, ms[0]);
      var k :| 0 <= k < |list| && list[k] == s.rest[id];
      assert !Less(s.MakerSide(), list[0].terms, list[k].terms);
      WalkRest(s, ms, list);
    }
  }

  lemma FilledTakesNothing(s: State, ms: seq<Match>)
    requires CanMatchAll(s, ms) && s.taker.Remaining() <= 0
    ensures ms == []
  {
  }

  /** After the first match with the head of the list, the rest is a walk over the tail. */
  lemma {:induction false} WalkRest(s: State, ms: seq<Match>, list: seq<OrderValue>)
    requires Start(s) && CanMatchAll(s, ms) && Done(ApplyAll(s, ms)) && ms != []
    requires Lists(s.rest, s.MakerSide(), list) && StrictlySorted(s.MakerSide(), list)
    requires list != [] && list[0].terms.id == MakerOf(s, ms[0])
    ensures ms == Walk(list, s.taker)
    decreases |list|, 0
  {
    hide Less, CanMatch, ApplyMatch, Done;
    FromFront(s, ms);
    OneMatch(s, ms[0]);
    MatchCrosses(s, ms[0]);
    var s1 := ApplyMatch(s, ms[0]);
    if s.rest[list[0].terms.id].Remaining() == ms[0].fill {
      DropFirst(s.rest, s.MakerSide(), list);
      WalkIsForced(s1, ms[1..], list[1..]);
    } else {
      FilledTakesNothing(s1, ms[1..]);
      FilledStops(s1, list[1..]);
    }
  }

  // ---------------------------------------------------------------- ties

  lemma {:induction false} BestExists(rest: Resting, side: Side, any: string) returns (best: string)
    requires any in rest && rest[any].terms.side == side
    ensures IsBest(rest, side, best)
    decreases |rest|
  {
    best := any;
    if j :| j in rest && rest[j].terms.side == side && Less(side, rest[j].terms, rest[any].terms) {
      var fewer := rest - {any};
      best := BestExists(fewer, side, j);
      forall i | i in rest && rest[i].terms.side == side
        ensures !Less(side, rest[i].terms, rest[best].terms)
      {
        assert !Less(side, fewer[j].terms, fewer[best].terms);
        assert i != any ==> !Less(side, fewer[i].terms, fewer[best].terms);
      }
    }
  }

  lemma ListBestFirst(rest: Resting, side: Side, best: string, list: seq<OrderValue>)
    requires Book(rest) && IsBest(rest, side, best)
    requires Lists(rest - {best}, side, list) && Sorted(side, list)
    ensures Lists(rest, side, [rest[best]] + list) && Sorted(side, [rest[best]] + list)
  {
    var all := [rest[best]] + list;
    forall id | id in rest && rest[id].terms.side == side
      ensures rest[id] in all
    {
      assert id != best ==> (rest - {best})[id] in list;
    }
  }

  lemma {:induction false} SortedListing(rest: Resting, side: Side) returns (list: seq<OrderValue>)
    requires Book(rest)
    ensures Lists(rest, side, list) && Sorted(side, list)
    decreases |rest|
  {
    if any :| any in rest && rest[any].terms.side == side {
      var best := BestExists(rest, side, any);
      list := SortedListing(rest - {best}, side);
      ListBestFirst(rest, side, best, list);
      list := [rest[best]] + list;
    } else {
      list := [];
    }
  }

  /** A walk over a list whose head is compatible takes the head and walks on. */
  lemma WalkOn(head: OrderValue, tail: seq<OrderValue>, taker: OrderValue)
    requires taker.terms.Positive() && head.terms.Positive()
    requires forall i :: 0 <= i < |tail| ==> tail[i].terms.Positive()
    requires taker.Remaining() > 0 && Crosses(taker.terms, head.terms)
    ensures forall i :: 0 <= i < |[head] + tail| ==> ([head] + tail)[i].terms.Positive()
    ensures var m := MakeMatch(taker, head);
      Walk([head] + tail, taker) == [m] + Walk(tail, FillOrder(taker, m.fill))
  {
    assert ([head] + tail)[1..] == tail;
  }

  /** The orders of a list of a live book have positive amounts. */
  lemma ListedArePositive(rest: Resting, side: Side, list: seq<OrderValue>)
    requires Book(rest) && Lists(rest, side, list)
    ensures forall i :: 0 <= i < |list| ==> list[i].terms.Positive()
  {
  }

  lemma BestIsNamed(s: State, m: Match)
    requires CanMatch(s, m)
    ensures IsBest(s.rest, s.MakerSide(), MakerOf(s, m))
  {
  }

  /** Every outcome the specification allows is the walk over some sorted list of the opposite side. */
  lemma {:induction false} OutcomeIsWalk(s: State, ms: seq<Match>) returns (list: seq<OrderValue>)
    requires Start(s) && CanMatchAll(s, ms) && Done(ApplyAll(s, ms))
    ensures Lists(s.rest, s.MakerSide(), list) && Sorted(s.MakerSide(), list)
    ensures ms == Walk(list, s.taker)
    decreases |ms|
  {
    hide Less, CanMatch, ApplyMatch, Sorted;
    if ms == [] {
      list := SortedListing(s.rest, s.MakerSide());
      assert list != [] ==> list[0] in list;
    } else {
      FromFront(s, ms);
      OneMatch(s, ms[0]);
      MatchCrosses(s, ms[0]);
      BestIsNamed(s, ms[0]);
      var s1, id := ApplyMatch(s, ms[0]), MakerOf(s, ms[0]);
      var tail;
      if s.rest[id].Remaining() == ms[0].fill {
        tail := OutcomeIsWalk(s1, ms[1..]);
      } else {
        tail := SortedListing(s.rest - {id}, s.MakerSide());
        FilledTakesNothing(s1, ms[1..]);
        FilledStops(s1, tail);
      }
      ListBestFirst(s.rest, s.MakerSide(), id, tail);
      ListedArePositive(s.rest - {id}, s.MakerSide(), tail);
      WalkOn(s.rest[id], tail, s.taker);
      list := [s.rest[id]] + tail;
    }
  }

  /** A run of matches can be extended at the front. */
  lemma {:induction false} ToFront(s: State, m: Match, ms: seq<Match>)
    requires CanMatch(s, m) && CanMatchAll(ApplyMatch(s, m), ms)
    ensures CanMatchAll(s, [m] + ms) && ApplyAll(s, [m] + ms) == ApplyAll(ApplyMatch(s, m), ms)
  {
    var all := [m] + ms;
    if ms == [] {
      assert all[..0] == [];
    } else {
      var n := |ms| - 1;
      ToFront(s, m, ms[..n]);
      assert all[..n + 1] == [m] + ms[..n];
    }
  }

  /** When the head of the sorted list is not compatible, nothing is. */
  lemma NothingCrosses(s: State, list: seq<OrderValue>)
    requires Start(s) && Lists(s.rest, s.MakerSide(), list) && Sorted(s.MakerSide(), list)
    requires list == [] || s.taker.Remaining() <= 0 || !Crosses(s.taker.terms, list[0].terms)
    ensures Done(s)
  {
  }

  /** Every walk over a sorted list of the opposite side is an outcome the specification allows. */
  lemma {:induction false} WalkIsOutcome(s: State, list: seq<OrderValue>)
    requires Start(s) && Lists(s.rest, s.MakerSide(), list) && Sorted(s.MakerSide(), list)
    ensures var ms := Walk(list, s.taker); CanMatchAll(s, ms) && Done(ApplyAll(s, ms))
    decreases |list|
  {
    hide Less, CanMatch, ApplyMatch, Done;
    if list == [] || s.taker.Remaining() <= 0 || !Crosses(s.taker.terms, list[0].terms) {
      NothingCrosses(s, list);
    } else {
      var m := MakeMatch(s.taker, list[0]);
      HeadCanMatch(s, list);
      OneMatch(s, m);
      var s1 := ApplyMatch(s, m);
      if list[0].Remaining() == m.fill {
        DropFirst(s.rest, s.MakerSide(), list);
        WalkIsOutcome(s1, list[1..]);
      } else {
        FilledStops(s1, list[1..]);
      }
      ToFront(s, m, Walk(list[1..], s1.taker));
    }
  }

  lemma FilledStops(s: State, list: seq<OrderValue>)
    requires s.taker.Remaining() <= 0 && s.taker.terms.Positive()
    requires forall i :: 0 <= i < |list| ==> list[i].terms.Positive()
    ensures Walk(list, s.taker) == [] && Done(s) && CanMatchAll(s, []) && ApplyAll(s, []) == s
  {
  }

  lemma HeadCanMatch(s: State, list: seq<OrderValue>)
    requires Start(s) && Lists(s.rest, s.MakerSide(), list) && Sorted(s.MakerSide(), list)
    requires list != [] && s.taker.Remaining() > 0 && Crosses(s.taker.terms, list[0].terms)
    ensures CanMatch(s, MakeMatch(s.taker, list[0]))
  {
  }

  // ---------------------------------------------------------------- maximal fill

  function TotalFill(ms: seq<Match>): int {
    if ms == [] then 0 else TotalFill(ms[..|ms| - 1]) + ms[|ms| - 1].fill
  }

  /** The remaining amounts of the resting orders whose price is compatible with the incoming one. */
  ghost function Compatible(s: State): map<string, int> {
    map id | id in s.rest && s.rest[id].terms.side == s.MakerSide() && Crosses(s.taker.terms, s.rest[id].terms)
      :: s.rest[id].Remaining()
  }

  lemma CompatibleAfter(s: State, m: Match)
    requires Start(s) && CanMatch(s, m)
    ensures var id := MakerOf(s, m);
      && id in Compatible(s) && Compatible(s)[id] == s.rest[id].Remaining()
      && Compatible(ApplyMatch(s, m)) ==
        if s.rest[id].Remaining() == m.fill then Compatible(s) - {id}
        else Compatible(s)[id := s.rest[id].Remaining() - m.fill]
  {
    OneMatch(s, m);
    hide ApplyMatch, CanMatch, Less;
    assert Crosses(s.taker.terms, s.rest[MakerOf(s, m)].terms) by {
      MatchCrosses(s, m);
    }
  }

  lemma OneMatchUsesUp(s: State, m: Match)
    requires Start(s) && CanMatch(s, m)
    ensures Sum(Compatible(ApplyMatch(s, m))) == Sum(Compatible(s)) - m.fill
  {
    hide Compatible, ApplyMatch, CanMatch, Start;
    CompatibleAfter(s, m);
    MatchCrosses(s, m);
    var id := MakerOf(s, m);
    SumWithout(Compatible(s), id);
    SumUpdate(Compatible(s), id, s.rest[id].Remaining() - m.fill);
  }

  lemma {:induction false} RunUsesUp(s: State, ms: seq<Match>)
    requires Start(s) && CanMatchAll(s, ms)
    ensures Sum(Compatible(ApplyAll(s, ms))) == Sum(Compatible(s)) - TotalFill(ms)
    ensures ApplyAll(s, ms).taker.filled == s.taker.filled + TotalFill(ms)
  {
    if ms != [] {
      var before := ms[..|ms| - 1];
      RunKeepsStart(s, before);
      RunUsesUp(s, before);
      OneMatch(ApplyAll(s, before), ms[|ms| - 1]);
      OneMatchUsesUp(ApplyAll(s, before), ms[|ms| - 1]);
    }
  }

  /** One call of `AddOrder` fills exactly as much as the order wants or the compatible opposite side
      has, whichever is less, and whatever is left over rests. */
  lemma MaximalFill(rest: Resting, o: OrderValue, ms: seq<Match>, rest': Resting, o': OrderValue)
    requires Start(State(rest, o)) && Added(rest, o, ms, rest', o')
    ensures TotalFill(ms) == MinBigInt(if o.Remaining() > 0 then o.Remaining() else 0, Sum(Compatible(State(rest, o))))
    ensures o'.filled == o.filled + TotalFill(ms)
    ensures o.terms.id in rest' <==> o'.Remaining() > 0 && !o'.status.Filled?
    ensures o.terms.id in rest' ==> rest'[o.terms.id] == o'
  {
    var s := State(rest, o);
    var e := ApplyAll(s, ms);
    RunKeepsStart(s, ms);
    RunUsesUp(s, ms);
    SumBounds(Compatible(s), "");
    SumBounds(Compatible(e), "");
    if e.taker.Remaining() > 0 {
      assert Compatible(e) == map[];
    }
    if ms != [] {
      FromFront(s, ms);
    }
  }

  // ---------------------------------------------------------------- the uncrossed book

  /** Every resting bid is priced strictly below every resting ask. */
  ghost predicate Uncrossed(rest: Resting) {
    forall b, a | b in rest && a in rest && rest[b].terms.side.Buy? && rest[a].terms.side.Sell? ::
      rest[b].terms.price < rest[a].terms.price
  }

  lemma AddKeepsBook(rest: Resting, o: OrderValue, ms: seq<Match>, rest': Resting, o': OrderValue)
    requires Start(State(rest, o)) && Added(rest, o, ms, rest', o')
    ensures Book(rest') && (Uncrossed(rest) ==> Uncrossed(rest'))
    ensures rest'.Keys <= rest.Keys + {o.terms.id}
  {
    RunKeepsStart(State(rest, o), ms);
  }

  // ---------------------------------------------------------------- statuses

  /** Resting orders are open until something is filled, and partially filled from then on. */
  ghost predicate AllLabelled(rest: Resting) {
    forall id | id in rest :: rest[id].status == if rest[id].filled == 0 then Open else PartiallyFilled
  }

  lemma FillLabels(o: OrderValue, fill: int)
    requires 0 <= o.filled && 0 < fill <= o.Remaining()
    ensures var o' := FillOrder(o, fill);
      && o'.terms == o.terms && o'.filled == o.filled + fill
      && o'.status == if o'.filled == o.terms.Base() then Filled else PartiallyFilled
  {
  }

  /** A run of matches keeps the statuses of the resting orders right, and its taker ends filled or
      partially filled, unless nothing matched. */
  lemma {:induction false} RunKeepsLabels(s: State, ms: seq<Match>)
    requires Start(s) && CanMatchAll(s, ms) && AllLabelled(s.rest)
    ensures var e := ApplyAll(s, ms);
      && AllLabelled(e.rest)
      && if ms == [] then e == s
         else e.taker.filled > 0 &&
              e.taker.status == if e.taker.filled == e.taker.terms.Base() then Filled else PartiallyFilled
  {
    hide CanMatch, ApplyMatch, FillOrder;
    if ms != [] {
      var before, m := ApplyAll(s, ms[..|ms| - 1]), ms[|ms| - 1];
      RunKeepsStart(s, ms[..|ms| - 1]);
      RunKeepsLabels(s, ms[..|ms| - 1]);
      OneMatch(before, m);
      FillFits(before, m);
      FillLabels(before.taker, m.fill);
      FillLabels(before.rest[MakerOf(before, m)], m.fill);
    }
  }

  lemma FillFits(s: State, m: Match)
    requires Start(s) && CanMatch(s, m)
    ensures var id := MakerOf(s, m);
      && id in s.rest && 0 <= s.rest[id].filled && 0 <= s.taker.filled
      && 0 < m.fill <= s.taker.Remaining() && m.fill <= s.rest[id].Remaining()
  {
  }

  // ---------------------------------------------------------------- what each order gets

  predicate Involves(m: Match, id: string) {
    m.buy.id == id || m.sell.id == id
  }

  /** Base filled for one order over a run of matches. */
  function FillsOf(ms: seq<Match>, id: string): int {
    if ms == [] then 0
    else FillsOf(ms[..|ms| - 1], id) + if Involves(ms[|ms| - 1], id) then ms[|ms| - 1].fill else 0
  }

  lemma OneMoreFill(ms: seq<Match>, m: Match)
    ensures forall id :: FillsOf(ms + [m], id) == FillsOf(ms, id) + if Involves(m, id) then m.fill else 0
  {
  }

  /** The fills a run reports are exactly what its orders gained: the incoming order, those still
      resting, those filled to the end, and nothing for any other order. */
  lemma {:induction false} FillsAreExact(s: State, ms: seq<Match>, id: string)
    requires Start(s) && CanMatchAll(s, ms)
    ensures var e := ApplyAll(s, ms);
      if id == s.taker.terms.id then e.taker.filled == s.taker.filled + FillsOf(ms, id)
      else if id in e.rest && id in s.rest then e.rest[id].filled == s.rest[id].filled + FillsOf(ms, id)
      else if id in s.rest then s.rest[id].Remaining() == FillsOf(ms, id)
      else id !in e.rest && FillsOf(ms, id) == 0
  {
    hide CanMatch, ApplyMatch, Less;
    RunKeepsStart(s, ms);
    if ms != [] {
      MatchCrosses(ApplyAll(s, ms[..|ms| - 1]), ms[|ms| - 1]);
      var before := ms[..|ms| - 1];
      RunKeepsStart(s, before);
      FillsAreExact(s, before, id);
      OneMatch(ApplyAll(s, before), ms[|ms| - 1]);
    }
  }
}
