/** The price-level book: total shares per price, with an index of open orders. */
module L2Book {
  import opened Wire
  import opened Ordered
  import opened Book

  datatype State = State(locate: nat, bids: map<nat, nat>, asks: map<nat, nat>, orders: map<nat, Entry>)

  function Empty(locate: nat): State {
    State(locate, map[], map[], map[])
  }

  function Levels(b: State, side: Side): map<nat, nat> {
    if side == Buy then b.bids else b.asks
  }

  function WithLevels(b: State, side: Side, levels: map<nat, nat>): State {
    if side == Buy then b.(bids := levels) else b.(asks := levels)
  }

  /** `reduce_level`: subtract, saturating, and drop a level that reaches zero. */
  function Reduced(levels: map<nat, nat>, price: nat, shares: nat): map<nat, nat> {
    if price !in levels then levels
    else
      var left := if levels[price] > shares then levels[price] - shares else 0;
      if left == 0 then levels - {price} else levels[price := left]
  }

  function Added(b: State, ref: nat, side: Side, shares: nat, price: nat): State {
    var levels := Levels(b, side);
    var open := if price in levels then levels[price] else 0;
    WithLevels(b, side, levels[price := SatAddU64(open, shares)])
      .(orders := b.orders[ref := Entry(price, shares, side, b.locate)])
  }

  function Executed(b: State, ref: nat, shares: nat): (State, Outcome) {
    if ref !in b.orders then (b, Done)
    else
      var e := b.orders[ref];
      if shares > e.shares then (b, OverExecution(ref, shares, e.shares))
      else
        var left := e.shares - shares;
        var c := WithLevels(b, e.side, Reduced(Levels(b, e.side), e.price, shares));
        (c.(orders := if left == 0 then b.orders - {ref} else b.orders[ref := e.(shares := left)]), Done)
  }

  function Deleted(b: State, ref: nat): State {
    if ref !in b.orders then b
    else
      var e := b.orders[ref];
      WithLevels(b, e.side, Reduced(Levels(b, e.side), e.price, e.shares)).(orders := b.orders - {ref})
  }

  function Replaced(b: State, original: nat, ref: nat, shares: nat, price: nat): State {
    if original !in b.orders then b
    else Added(Deleted(b, original), ref, b.orders[original].side, shares, price)
  }

  function Applied(b: State, m: Message): (State, Outcome) {
    match m
    case AddOrder(locate, ref, side, shares, price) =>
      if locate != b.locate then (b, Done) else (Added(b, ref, side, shares, price), Done)
    case AddOrderWithMpid(locate, ref, side, shares, price, _) =>
      if locate != b.locate then (b, Done) else (Added(b, ref, side, shares, price), Done)
    case OrderExecuted(_, ref, shares) => Executed(b, ref, shares)
    case OrderExecutedWithPrice(_, ref, shares, _) => Executed(b, ref, shares)
    case OrderCancel(_, ref, shares) => Executed(b, ref, shares)
    case OrderDelete(_, ref) => (Deleted(b, ref), Done)
    case OrderReplace(_, original, ref, shares, price) => (Replaced(b, original, ref, shares, price), Done)
    case StockDirectory(_, _) => (b, Done)
    case Other(_) => (b, Done)
  }

  function AppliedAll(b: State, ms: seq<Message>): State {
    if ms == [] then b else Applied(AppliedAll(b, ms[..|ms| - 1]), ms[|ms| - 1]).0
  }

  function BestBid(b: State): Option<(nat, nat)> {
    if b.bids == map[] then None else Some((Greatest(b.bids.Keys), b.bids[Greatest(b.bids.Keys)]))
  }

  function BestAsk(b: State): Option<(nat, nat)> {
    if b.asks == map[] then None else Some((Least(b.asks.Keys), b.asks[Least(b.asks.Keys)]))
  }

  // ----- The mutable book -----

  class L2Book {
    const stockLocate: nat
    var bids: map<nat, nat>
    var asks: map<nat, nat>
    var orders: map<nat, Entry>

    function Model(): State
      reads this
    {
      State(stockLocate, bids, asks, orders)
    }

    constructor (locate: nat)
      ensures Model() == Empty(locate)
    {
      stockLocate := locate;
      bids := map[];
      asks := map[];
      orders := map[];
    }

    method AddOrder(ref: nat, side: Side, shares: nat, price: nat)
      modifies this
      ensures Model() == Added(old(Model()), ref, side, shares, price)
    {
      orders := orders[ref := Entry(price, shares, side, stockLocate)];
      match side {
        case Buy =>
          if price !in bids {
            bids := bids[price := 0];
          }
          bids := bids[price := SatAddU64(bids[price], shares)];
        case Sell =>
          if price !in asks {
            asks := asks[price := 0];
          }
          asks := asks[price := SatAddU64(asks[price], shares)];
      }
    }

    method ReduceLevel(side: Side, price: nat, shares: nat)
      modifies this`bids, this`asks
      ensures Model() == WithLevels(old(Model()), side, Reduced(Levels(old(Model()), side), price, shares))
    {
      match side {
        case Buy => bids := Reduced(bids, price, shares);
        case Sell => asks := Reduced(asks, price, shares);
      }
    }

    method Execute(ref: nat, shares: nat) returns (r: Outcome)
      modifies this
      ensures (Model(), r) == Executed(old(Model()), ref, shares)
    {
      if ref !in orders {
        return Done;
      }
      var entry := orders[ref];
      if shares > entry.shares {
        return OverExecution(ref, shares, entry.shares);
      }
      entry := entry.(shares := entry.shares - shares);
      orders := orders[ref := entry];
      ReduceLevel(entry.side, entry.price, shares);
      if entry.shares == 0 {
        assert orders - {ref} == old(orders) - {ref};
        orders := orders - {ref};
      }
      return Done;
    }

    method Delete(ref: nat)
      modifies this
      ensures Model() == Deleted(old(Model()), ref)
    {
      if ref !in orders {
        return;
      }
      var entry := orders[ref];
      orders := orders - {ref};
      ReduceLevel(entry.side, entry.price, entry.shares);
    }

    method Replace(original: nat, ref: nat, shares: nat, price: nat)
      modifies this
      ensures Model() == Replaced(old(Model()), original, ref, shares, price)
    {
      if original !in orders {
        return;
      }
      var entry := orders[original];
      orders := orders - {original};
      ReduceLevel(entry.side, entry.price, entry.shares);
      AddOrder(ref, entry.side, shares, price);
    }

    method Apply(m: Message) returns (r: Outcome)
      modifies this
      ensures (Model(), r) == Applied(old(Model()), m)
    {
      r := Done;
      match m {
        case AddOrder(locate, ref, side, shares, price) =>
          if locate == stockLocate {
            AddOrder(ref, side, shares, price);
          }
        case AddOrderWithMpid(locate, ref, side, shares, price, _) =>
          if locate == stockLocate {
            AddOrder(ref, side, shares, price);
          }
        case OrderExecuted(_, ref, shares) => r := Execute(ref, shares);
        case OrderExecutedWithPrice(_, ref, shares, _) => r := Execute(ref, shares);
        case OrderCancel(_, ref, shares) => r := Execute(ref, shares);
        case OrderDelete(_, ref) => Delete(ref);
        case OrderReplace(_, original, ref, shares, price) => Replace(original, ref, shares, price);
        case StockDirectory(_, _) =>
        case Other(_) =>
      }
    }
  }
}
