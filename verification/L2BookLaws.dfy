/** What the price-level book promises over whole message streams. */
module L2BookLaws {
  import opened Wire
  import opened Ordered
  import opened Book
  import opened L2Book

  /** The size shown at a price; a missing level shows nothing. */
  function Level(b: State, side: Side, price: nat): nat {
    if price in Levels(b, side) then Levels(b, side)[price] else 0
  }

  /** Every level shows exactly the sum of its open orders. */
  ghost predicate Exact(b: State) {
    forall side, price :: Level(b, side, price) == Total(b.orders, side, price)
  }

  predicate Small(b: State) {
    |b.orders| <= MAX_OPEN_ORDERS && forall r :: r in b.orders ==> b.orders[r].shares <= U32_MAX
  }

  // ----- One operation -----

  lemma ReducedLevel(b: State, side: Side, price: nat, shares: nat, at: Side, p: nat)
    ensures Level(WithLevels(b, side, Reduced(Levels(b, side), price, shares)), at, p)
            == if at == side && p == price && Level(b, at, p) > shares then Level(b, at, p) - shares
               else if at == side && p == price then 0 else Level(b, at, p)
  {
  }

  /** Adding keeps the levels exact precisely when the reference carries no open shares already. */
  lemma AddedExact(b: State, ref: nat, side: Side, shares: nat, price: nat)
    requires Exact(b) && Total(b.orders, side, price) + shares <= U64_MAX
    ensures Exact(Added(b, ref, side, shares, price)) <==> ref !in b.orders || b.orders[ref].shares == 0
  {
    var c := Added(b, ref, side, shares, price);
    var e := Entry(price, shares, side, b.locate);
    forall at, p
      ensures Level(c, at, p) == Level(b, at, p) + Share(e, at, p)
      ensures ref !in b.orders ==> Total(c.orders, at, p) == Total(b.orders, at, p) + Share(e, at, p)
      ensures ref in b.orders ==> Total(c.orders, at, p) + Share(b.orders[ref], at, p)
                                  == Total(b.orders, at, p) + Share(e, at, p)
    {
      assert Level(b, at, p) == Total(b.orders, at, p);
      if ref in b.orders {
        TotalReplace(b.orders, ref, e, at, p);
      } else {
        TotalInsert(b.orders, ref, e, at, p);
      }
    }
    if ref in b.orders && b.orders[ref].shares > 0 {
      var was := b.orders[ref];
      assert Level(c, was.side, was.price) != Total(c.orders, was.side, was.price);
    }
  }

  lemma DeletedExact(b: State, ref: nat)
    requires Exact(b)
    ensures Exact(Deleted(b, ref))
  {
    if ref in b.orders {
      var e := b.orders[ref];
      forall at, p
        ensures Level(Deleted(b, ref), at, p) == Total(b.orders - {ref}, at, p)
      {
        assert Level(b, at, p) == Total(b.orders, at, p);
        ReducedLevel(b, e.side, e.price, e.shares, at, p);
        TotalRemove(b.orders, ref, at, p);
      }
    }
  }

  lemma ExecutedExact(b: State, ref: nat, shares: nat)
    requires Exact(b)
    ensures Exact(Executed(b, ref, shares).0)
  {
    if ref in b.orders && shares <= b.orders[ref].shares {
      var e := b.orders[ref];
      var c := Executed(b, ref, shares).0;
      forall at, p
        ensures Level(c, at, p) == Total(c.orders, at, p)
      {
        assert Level(b, at, p) == Total(b.orders, at, p);
        ReducedLevel(b, e.side, e.price, shares, at, p);
        TotalRemove(b.orders, ref, at, p);
        TotalReplace(b.orders, ref, e.(shares := e.shares - shares), at, p);
      }
    }
  }

  /** After a replace the new order adds to what the rest of its level holds. */
  lemma ReplacedExact(b: State, original: nat, ref: nat, shares: nat, price: nat)
    requires Exact(b) && original in b.orders
    requires Total(b.orders - {original}, b.orders[original].side, price) + shares <= U64_MAX
    ensures Exact(Replaced(b, original, ref, shares, price))
            <==> ref == original || ref !in b.orders || b.orders[ref].shares == 0
  {
    DeletedExact(b, original);
    AddedExact(Deleted(b, original), ref, b.orders[original].side, shares, price);
  }

  lemma ReplaceFits(b: State, original: nat, ref: nat, shares: nat, price: nat)
    requires Exact(b) && shares <= U32_MAX && Small(b)
    requires original in b.orders ==> ref == original || ref !in b.orders
    requires |Replaced(b, original, ref, shares, price).orders| <= MAX_OPEN_ORDERS
    ensures Exact(Replaced(b, original, ref, shares, price))
  {
    hide Exact, Total;
    if original in b.orders {
      var side := b.orders[original].side;
      TotalFits(Replaced(b, original, ref, shares, price).orders, side, price);
      TotalInsert(b.orders - {original}, ref, Entry(price, shares, side, b.locate), side, price);
      ReplacedExact(b, original, ref, shares, price);
    }
  }

  lemma AddFits(b: State, ref: nat, side: Side, shares: nat, price: nat)
    requires Exact(b) && shares <= U32_MAX && Small(b) && ref !in b.orders
    requires |Added(b, ref, side, shares, price).orders| <= MAX_OPEN_ORDERS
    ensures Exact(Added(b, ref, side, shares, price))
  {
    hide Exact, Total;
    TotalFits(Added(b, ref, side, shares, price).orders, side, price);
    TotalInsert(b.orders, ref, Entry(price, shares, side, b.locate), side, price);
    AddedExact(b, ref, side, shares, price);
  }

  lemma AppliedExact(b: State, m: Message)
    requires Exact(b) && Typed(m) && Fresh(b.locate, b.orders.Keys, m)
    requires Small(b) && |Applied(b, m).0.orders| <= MAX_OPEN_ORDERS
    ensures Exact(Applied(b, m).0)
  {
    hide Exact, Small, Added, Executed, Deleted, Replaced;
    match m
    case OrderExecuted(_, ref, shares) => ExecutedExact(b, ref, shares);
    case OrderExecutedWithPrice(_, ref, shares, _) => ExecutedExact(b, ref, shares);
    case OrderCancel(_, ref, shares) => ExecutedExact(b, ref, shares);
    case OrderDelete(_, ref) => DeletedExact(b, ref);
    case OrderReplace(_, original, ref, shares, price) => ReplaceFits(b, original, ref, shares, price);
    case AddOrder(locate, ref, side, shares, price) =>
      if locate == b.locate {
        AddFits(b, ref, side, shares, price);
      }
    case AddOrderWithMpid(locate, ref, side, shares, price, _) =>
      if locate == b.locate {
        AddFits(b, ref, side, shares, price);
      }
    case _ =>
  }

  predicate U32Sizes(orders: map<nat, Entry>) {
    forall r :: r in orders ==> orders[r].shares <= U32_MAX
  }

  lemma OrdersOf(b: State, ref: nat, side: Side, shares: nat, price: nat)
    requires U32Sizes(b.orders)
    ensures shares <= U32_MAX ==> U32Sizes(Added(b, ref, side, shares, price).orders)
    ensures U32Sizes(Executed(b, ref, shares).0.orders) && U32Sizes(Deleted(b, ref).orders)
  {
    hide Levels, WithLevels, Reduced;
  }

  lemma ReplacedSizes(b: State, original: nat, ref: nat, shares: nat, price: nat)
    requires U32Sizes(b.orders) && shares <= U32_MAX
    ensures U32Sizes(Replaced(b, original, ref, shares, price).orders)
  {
    hide Added, Deleted, U32Sizes;
    if original in b.orders {
      OrdersOf(b, original, Buy, 0, 0);
      OrdersOf(Deleted(b, original), ref, b.orders[original].side, shares, price);
    }
  }

  lemma AppliedSmall(b: State, m: Message)
    requires Small(b) && Typed(m) && |Applied(b, m).0.orders| <= MAX_OPEN_ORDERS
    ensures Small(Applied(b, m).0)
  {
    assert U32Sizes(b.orders);
    assert U32Sizes(Applied(b, m).0.orders) by {
      hide U32Sizes, Small, Added, Executed, Deleted, Replaced;
      match m
      case AddOrder(_, ref, side, shares, price) => OrdersOf(b, ref, side, shares, price);
      case AddOrderWithMpid(_, ref, side, shares, price, _) => OrdersOf(b, ref, side, shares, price);
      case OrderExecuted(_, ref, shares) => OrdersOf(b, ref, Buy, shares, 0);
      case OrderExecutedWithPrice(_, ref, shares, _) => OrdersOf(b, ref, Buy, shares, 0);
      case OrderCancel(_, ref, shares) => OrdersOf(b, ref, Buy, shares, 0);
      case OrderDelete(_, ref) => OrdersOf(b, ref, Buy, 0, 0);
      case OrderReplace(_, original, ref, shares, price) => ReplacedSizes(b, original, ref, shares, price);
      case _ =>
    }
    hide Applied;
  }

  // ----- Whole streams -----

  predicate GoodStream(b: State, ms: seq<Message>) {
    ms == [] ||
    (var n := |ms| - 1;
     && GoodStream(b, ms[..n])
     && Typed(ms[n]) && Fresh(b.locate, AppliedAll(b, ms[..n]).orders.Keys, ms[n])
     && |AppliedAll(b, ms).orders| <= MAX_OPEN_ORDERS)
  }

  lemma AppliedLocate(b: State, m: Message)
    ensures Applied(b, m).0.locate == b.locate
  {
  }

  lemma {:induction false} SameLocate(b: State, ms: seq<Message>)
    ensures AppliedAll(b, ms).locate == b.locate
  {
    hide Applied;
    if ms != [] {
      SameLocate(b, ms[..|ms| - 1]);
      AppliedLocate(AppliedAll(b, ms[..|ms| - 1]), ms[|ms| - 1]);
    }
  }

  predicate AllPositive(ms: seq<Message>) {
    forall i :: 0 <= i < |ms| ==> PositiveSize(ms[i])
  }

  /** Levels equal the sums of the open orders at the end of every stream, and nothing saturates. */
  lemma {:induction false} LevelsAreExact(locate: nat, ms: seq<Message>)
    requires GoodStream(Empty(locate), ms)
    ensures Exact(AppliedAll(Empty(locate), ms)) && Small(AppliedAll(Empty(locate), ms))
  {
    if ms == [] {
      assert forall side, p :: AtLevel(map[], side, p) == map[];
    } else {
      var b := AppliedAll(Empty(locate), ms[..|ms| - 1]);
      LevelsAreExact(locate, ms[..|ms| - 1]);
      SameLocate(Empty(locate), ms[..|ms| - 1]);
      AppliedExact(b, ms[|ms| - 1]);
      AppliedSmall(b, ms[|ms| - 1]);
    }
  }

  /** No order and no level is empty. */
  predicate Live(b: State) {
    && (forall r :: r in b.orders ==> b.orders[r].shares > 0)
    && (forall p :: p in b.bids ==> b.bids[p] > 0)
    && (forall p :: p in b.asks ==> b.asks[p] > 0)
  }

  lemma ExecutedLive(b: State, ref: nat, shares: nat)
    requires Live(b)
    ensures Live(Executed(b, ref, shares).0) && Live(Deleted(b, ref))
  {
  }

  lemma AddedLive(b: State, ref: nat, side: Side, shares: nat, price: nat)
    requires Live(b) && shares > 0
    ensures Live(Added(b, ref, side, shares, price))
  {
  }

  lemma AppliedLive(b: State, m: Message)
    requires Live(b) && PositiveSize(m)
    ensures Live(Applied(b, m).0)
  {
    hide Live, Added, Executed, Deleted;
    match m
    case AddOrder(_, ref, side, shares, price) => AddedLive(b, ref, side, shares, price);
    case AddOrderWithMpid(_, ref, side, shares, price, _) => AddedLive(b, ref, side, shares, price);
    case OrderExecuted(_, ref, shares) => ExecutedLive(b, ref, shares);
    case OrderExecutedWithPrice(_, ref, shares, _) => ExecutedLive(b, ref, shares);
    case OrderCancel(_, ref, shares) => ExecutedLive(b, ref, shares);
    case OrderDelete(_, ref) => ExecutedLive(b, ref, 0);
    case OrderReplace(_, original, ref, shares, price) =>
      ExecutedLive(b, original, 0);
      if original in b.orders {
        AddedLive(Deleted(b, original), ref, b.orders[original].side, shares, price);
      }
    case _ =>
  }

  lemma {:induction false} StaysLive(locate: nat, ms: seq<Message>)
    requires AllPositive(ms)
    ensures Live(AppliedAll(Empty(locate), ms))
  {
    if ms != [] {
      StaysLive(locate, ms[..|ms| - 1]);
      AppliedLive(AppliedAll(Empty(locate), ms[..|ms| - 1]), ms[|ms| - 1]);
    }
  }

  lemma TotalPositive(orders: map<nat, Entry>, side: Side, price: nat)
    requires forall r :: r in orders ==> orders[r].shares > 0
    ensures Total(orders, side, price) > 0 <==> exists r :: r in orders && OnLevel(orders[r], side, price)
  {
    var m := AtLevel(orders, side, price);
    if r :| r in orders && OnLevel(orders[r], side, price) {
      TotalRemove(orders, r, side, price);
    } else {
      assert m == map[];
    }
  }

  /** A level exists exactly where an order is open. */
  lemma LevelsAreLive(b: State, side: Side, price: nat)
    requires Exact(b) && Live(b)
    ensures price in Levels(b, side) <==> exists r :: r in b.orders && OnLevel(b.orders[r], side, price)
  {
    TotalPositive(b.orders, side, price);
    assert Level(b, side, price) == Total(b.orders, side, price);
  }

  /** The best bid and ask are the extreme prices of the open orders, with the exact size there. */
  lemma BestPrices(locate: nat, ms: seq<Message>)
    requires GoodStream(Empty(locate), ms) && AllPositive(ms)
    ensures var b := AppliedAll(Empty(locate), ms);
            && (BestBid(b).None? <==> forall r :: r in b.orders ==> b.orders[r].side != Buy)
            && (BestBid(b).Some? ==>
                  var p := BestBid(b).value.0;
                  && BestBid(b).value.1 == Total(b.orders, Buy, p) > 0
                  && (exists r :: r in b.orders && OnLevel(b.orders[r], Buy, p))
                  && forall r :: r in b.orders && b.orders[r].side == Buy ==> b.orders[r].price <= p)
            && (BestAsk(b).None? <==> forall r :: r in b.orders ==> b.orders[r].side != Sell)
            && (BestAsk(b).Some? ==>
                  var p := BestAsk(b).value.0;
                  && BestAsk(b).value.1 == Total(b.orders, Sell, p) > 0
                  && (exists r :: r in b.orders && OnLevel(b.orders[r], Sell, p))
                  && forall r :: r in b.orders && b.orders[r].side == Sell ==> b.orders[r].price >= p)
  {
    var b := AppliedAll(Empty(locate), ms);
    LevelsAreExact(locate, ms);
    StaysLive(locate, ms);
    forall r | r in b.orders
      ensures b.orders[r].price in Levels(b, b.orders[r].side)
    {
      LevelsAreLive(b, b.orders[r].side, b.orders[r].price);
    }
    if b.bids != map[] {
      var p := Greatest(b.bids.Keys);
      assert p in b.bids;
      LevelsAreLive(b, Buy, p);
      assert Level(b, Buy, p) == Total(b.orders, Buy, p);
    }
    if b.asks != map[] {
      var p := Least(b.asks.Keys);
      assert p in b.asks;
      LevelsAreLive(b, Sell, p);
      assert Level(b, Sell, p) == Total(b.orders, Sell, p);
    }
  }

  // ----- The book as a function of its open orders -----

  function Prices(orders: map<nat, Entry>, side: Side): set<nat> {
    set r | r in orders && orders[r].side == side :: orders[r].price
  }

  function LevelsOf(orders: map<nat, Entry>, side: Side): map<nat, nat> {
    map p | p in Prices(orders, side) :: SatAddU64(0, Total(orders, side, p))
  }

  /** The book that the given open orders call for. */
  function BookOf(locate: nat, orders: map<nat, Entry>): State {
    State(locate, LevelsOf(orders, Buy), LevelsOf(orders, Sell), orders)
  }

  lemma LevelsOfExact(b: State, side: Side)
    requires Exact(b) && Live(b) && Small(b)
    ensures Levels(b, side) == LevelsOf(b.orders, side)
  {
    var ls := LevelsOf(b.orders, side);
    forall p
      ensures p in Levels(b, side) <==> p in ls
      ensures p in ls ==> ls[p] == Levels(b, side)[p]
    {
      LevelsAreLive(b, side, p);
      TotalFits(b.orders, side, p);
      assert Level(b, side, p) == Total(b.orders, side, p);
      hide Exact, Live, Total, Small;
    }
  }

  /** A live, exact book holds no information beyond its open orders. */
  lemma BookIsCanonical(b: State)
    requires Exact(b) && Live(b) && Small(b)
    ensures b == BookOf(b.locate, b.orders)
  {
    LevelsOfExact(b, Buy);
    LevelsOfExact(b, Sell);
  }

  lemma PricesInsert(orders: map<nat, Entry>, r: nat, e: Entry, side: Side)
    requires r !in orders
    ensures Prices(orders[r := e], side) == Prices(orders, side) + if side == e.side then {e.price} else {}
  {
    var after := orders[r := e];
    assert r in after && after[r] == e;
    forall p | p in Prices(orders, side)
      ensures p in Prices(after, side)
    {
      var k :| k in orders && orders[k].side == side && orders[k].price == p;
      assert k in after && after[k] == orders[k];
    }
  }

  lemma NoPriceNoTotal(orders: map<nat, Entry>, side: Side, p: nat)
    requires p !in Prices(orders, side)
    ensures Total(orders, side, p) == 0
  {
    assert forall k :: k in orders && orders[k].side == side ==> orders[k].price in Prices(orders, side);
    assert AtLevel(orders, side, p) == map[];
  }

  lemma LevelInsert(orders: map<nat, Entry>, r: nat, e: Entry, side: Side, p: nat)
    requires r !in orders && p in Prices(orders[r := e], side)
    ensures var before := LevelsOf(orders, side);
            LevelsOf(orders[r := e], side)[p] ==
            SatAddU64(if p in before then before[p] else 0, Share(e, side, p))
  {
    TotalInsert(orders, r, e, side, p);
    if p !in Prices(orders, side) {
      NoPriceNoTotal(orders, side, p);
    }
  }

  lemma Bumped(before: map<nat, nat>, after: map<nat, nat>, price: nat, shares: nat)
    requires forall p :: p in before ==> before[p] <= U64_MAX
    requires after.Keys == before.Keys || after.Keys == before.Keys + {price}
    requires forall p :: p in after ==>
               after[p] == SatAddU64(if p in before then before[p] else 0, if p == price then shares else 0)
    ensures after.Keys == before.Keys + {price} ==>
              after == before[price := SatAddU64(if price in before then before[price] else 0, shares)]
    ensures after.Keys == before.Keys && shares == 0 ==> after == before
  {
  }

  lemma LevelsOfInsert(orders: map<nat, Entry>, r: nat, e: Entry, side: Side)
    requires r !in orders
    ensures var before := LevelsOf(orders, side);
            LevelsOf(orders[r := e], side) ==
            if side != e.side then before
            else before[e.price := SatAddU64(if e.price in before then before[e.price] else 0, e.shares)]
  {
    hide Prices, Total;
    var before, after := LevelsOf(orders, side), LevelsOf(orders[r := e], side);
    PricesInsert(orders, r, e, side);
    forall p | p in after
      ensures after[p] == SatAddU64(if p in before then before[p] else 0, Share(e, side, p))
    {
      LevelInsert(orders, r, e, side, p);
    }
    if side == e.side {
      Bumped(before, after, e.price, e.shares);
    } else {
      Bumped(before, after, e.price, 0);
    }
  }

  /** Adding an order to the book that some orders call for gives the book that all of them call for. */
  lemma BookOfInsert(locate: nat, orders: map<nat, Entry>, r: nat, e: Entry)
    requires r !in orders && e.locate == locate
    ensures Added(BookOf(locate, orders), r, e.side, e.shares, e.price) == BookOf(locate, orders[r := e])
  {
    LevelsOfInsert(orders, r, e, Buy);
    LevelsOfInsert(orders, r, e, Sell);
    hide LevelsOf;
  }

  // ----- A reused reference -----

  /** Re-adding a live reference leaves the old size in the level for good. */
  lemma ReusedReference()
    ensures var ms := [AddOrder(1, 7, Buy, 100, 50), AddOrder(1, 7, Buy, 30, 60), OrderDelete(1, 7)];
            var b := AppliedAll(Empty(1), ms);
            b.orders == map[] && b.bids == map[50 := 100]
  {
    var m0, m1, m2 := AddOrder(1, 7, Buy, 100, 50), AddOrder(1, 7, Buy, 30, 60), OrderDelete(1, 7);
    var ms := [m0, m1, m2];
    assert ms[..2] == [m0, m1] && [m0, m1][..1] == [m0] && [m0][..0] == [];
    assert AppliedAll(Empty(1), [m0]) == Added(Empty(1), 7, Buy, 100, 50);
    var b2 := AppliedAll(Empty(1), [m0, m1]);
    assert b2 == Added(Added(Empty(1), 7, Buy, 100, 50), 7, Buy, 30, 60);
  }
}
