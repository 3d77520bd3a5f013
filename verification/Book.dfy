/** Order-book messages, order entries, and sums of open shares. */
module Book {
  import opened Wire
  import opened Ordered

  datatype Side = Buy | Sell

  /** The book-relevant content of a message. `Other` stands for every kind without a book effect. */
  datatype Message =
    | AddOrder(locate: nat, ref: nat, side: Side, shares: nat, price: nat)
    | AddOrderWithMpid(locate: nat, ref: nat, side: Side, shares: nat, price: nat, mpid: nat)
    | OrderExecuted(locate: nat, ref: nat, shares: nat)
    | OrderExecutedWithPrice(locate: nat, ref: nat, shares: nat, execution: nat)
    | OrderCancel(locate: nat, ref: nat, shares: nat)
    | OrderDelete(locate: nat, ref: nat)
    | OrderReplace(locate: nat, original: nat, ref: nat, shares: nat, price: nat)
    | StockDirectory(locate: nat, stock: nat)
    | Other(locate: nat)

  datatype Outcome =
    | Done
    | OverExecution(order: nat, executed: nat, remaining: nat)
    | FifoViolation(expected: nat, got: nat)

  /** One open order of the price-level book. */
  datatype Entry = Entry(price: nat, shares: nat, side: Side, locate: nat)

  /** Share counts are u32. */
  predicate Typed(m: Message) {
    match m
    case AddOrder(_, _, _, s, _) => s <= U32_MAX
    case AddOrderWithMpid(_, _, _, s, _, _) => s <= U32_MAX
    case OrderReplace(_, _, _, s, _) => s <= U32_MAX
    case _ => true
  }

  /** No message opens an order under a reference that is still live. */
  predicate Fresh(locate: nat, live: set<nat>, m: Message) {
    match m
    case AddOrder(to, ref, _, _, _) => to == locate ==> ref !in live
    case AddOrderWithMpid(to, ref, _, _, _, _) => to == locate ==> ref !in live
    case OrderReplace(_, original, ref, _, _) => original in live ==> ref == original || ref !in live
    case _ => true
  }

  /** Orders come in with at least one share. */
  predicate PositiveSize(m: Message) {
    match m
    case AddOrder(_, _, _, s, _) => s > 0
    case AddOrderWithMpid(_, _, _, s, _, _) => s > 0
    case OrderReplace(_, _, _, s, _) => s > 0
    case _ => true
  }

  // ----- Sums -----

  function Sum(m: map<nat, nat>): nat
    decreases |m|
  {
    if m == map[] then 0 else
      var k := Least(m.Keys);
      Shrinks(m, k);
      m[k] + Sum(m - {k})
  }

  lemma Shrinks<T>(m: map<nat, T>, k: nat)
    requires k in m
    ensures |m - {k}| == |m| - 1
  {
    assert (m - {k}).Keys == m.Keys - {k};
    assert |m.Keys - {k}| == |m.Keys| - 1;
  }

  /** The sum does not depend on the order in which entries are taken. */
  lemma {:induction false} SumRemove(m: map<nat, nat>, k: nat)
    requires k in m
    ensures Sum(m) == m[k] + Sum(m - {k})
    decreases |m|
  {
    var x := Least(m.Keys);
    Shrinks(m, x);
    if x != k {
      Shrinks(m, k);
      SumRemove(m - {x}, k);
      SumRemove(m - {k}, x);
      assert m - {x} - {k} == m - {k} - {x};
    }
  }

  lemma {:induction false} SumBound(m: map<nat, nat>)
    requires forall k :: k in m ==> m[k] <= U32_MAX
    ensures Sum(m) <= |m| * 0xFFFF_FFFF
    decreases |m|
  {
    if m != map[] {
      var k := Least(m.Keys);
      Shrinks(m, k);
      SumBound(m - {k});
    }
  }

  // ----- Level totals -----

  predicate OnLevel(e: Entry, side: Side, price: nat) {
    e.side == side && e.price == price
  }

  function AtLevel(orders: map<nat, Entry>, side: Side, price: nat): map<nat, nat> {
    map r | r in orders && OnLevel(orders[r], side, price) :: orders[r].shares
  }

  /** The open shares at a price, added up over the individual orders. */
  function Total(orders: map<nat, Entry>, side: Side, price: nat): nat {
    Sum(AtLevel(orders, side, price))
  }

  function Share(e: Entry, side: Side, price: nat): nat {
    if OnLevel(e, side, price) then e.shares else 0
  }

  lemma TotalRemove(orders: map<nat, Entry>, r: nat, side: Side, price: nat)
    requires r in orders
    ensures Total(orders, side, price) == Total(orders - {r}, side, price) + Share(orders[r], side, price)
  {
    var m := AtLevel(orders, side, price);
    if r in m {
      SumRemove(m, r);
      assert m - {r} == AtLevel(orders - {r}, side, price);
    } else {
      assert m == AtLevel(orders - {r}, side, price);
    }
  }

  lemma TotalInsert(orders: map<nat, Entry>, r: nat, e: Entry, side: Side, price: nat)
    requires r !in orders
    ensures Total(orders[r := e], side, price) == Total(orders, side, price) + Share(e, side, price)
  {
    TotalRemove(orders[r := e], r, side, price);
    assert orders[r := e] - {r} == orders;
  }

  lemma TotalReplace(orders: map<nat, Entry>, r: nat, e: Entry, side: Side, price: nat)
    requires r in orders
    ensures Total(orders[r := e], side, price) + Share(orders[r], side, price)
            == Total(orders, side, price) + Share(e, side, price)
  {
    TotalRemove(orders, r, side, price);
    TotalInsert(orders - {r}, r, e, side, price);
    assert (orders - {r})[r := e] == orders[r := e];
  }

  /** The largest number of open orders for which no level can exceed u64. */
  const MAX_OPEN_ORDERS: nat := 0x1_0000_0001

  /** With 2^32 + 1 open orders of u32 size, a level total is at most exactly `u64::MAX`. */
  lemma TotalFits(orders: map<nat, Entry>, side: Side, price: nat)
    requires |orders| <= MAX_OPEN_ORDERS && forall r :: r in orders ==> orders[r].shares <= U32_MAX
    ensures Total(orders, side, price) <= U64_MAX
  {
    var m := AtLevel(orders, side, price);
    SumBound(m);
    assert m.Keys <= orders.Keys;
    Subset(m.Keys, orders.Keys);
  }

  lemma Subset(a: set<nat>, b: set<nat>)
    requires a <= b
    ensures |a| <= |b|
  {
    assert b == a + (b - a);
    assert |b| == |a| + |b - a|;
  }
}
