/** The per-order book: a first-in first-out queue of order references at every price. */
module L3Book {
  import opened Wire
  import opened Book
  import L2Book
  import L2BookLaws

  datatype Order = Order(price: nat, shares: nat, side: Side, locate: nat, mpid: Option<nat>, arrival: nat)

  datatype State = State(locate: nat, bids: map<nat, seq<nat>>, asks: map<nat, seq<nat>>,
                         orders: map<nat, Order>, arrival: nat)

  function Empty(locate: nat): State {
    State(locate, map[], map[], map[], 0)
  }

  function Queues(b: State, side: Side): map<nat, seq<nat>> {
    if side == Buy then b.bids else b.asks
  }

  function WithQueues(b: State, side: Side, queues: map<nat, seq<nat>>): State {
    if side == Buy then b.(bids := queues) else b.(asks := queues)
  }

  /** The first place of `ref` in the queue, or the queue's length. */
  function IndexOf(q: seq<nat>, ref: nat): (i: nat)
    ensures i <= |q|
    ensures i < |q| ==> q[i] == ref
    ensures forall j :: 0 <= j < i ==> q[j] != ref
  {
    if q == [] || q[0] == ref then 0 else 1 + IndexOf(q[1..], ref)
  }

  function Without(q: seq<nat>, ref: nat): seq<nat> {
    var i := IndexOf(q, ref);
    if i < |q| then q[..i] + q[i + 1..] else q
  }

  /** `remove_from_queue`: drop one reference, and the level once its queue is empty. */
  function Removed(queues: map<nat, seq<nat>>, price: nat, ref: nat): map<nat, seq<nat>> {
    if price !in queues then queues
    else
      var q := Without(queues[price], ref);
      if q == [] then queues - {price} else queues[price := q]
  }

  function Inserted(b: State, ref: nat, side: Side, shares: nat, price: nat, mpid: Option<nat>): State {
    var queues := Queues(b, side);
    var q := if price in queues then queues[price] else [];
    WithQueues(b, side, queues[price := q + [ref]])
      .(orders := b.orders[ref := Order(price, shares, side, b.locate, mpid, b.arrival + 1)],
        arrival := b.arrival + 1)
  }

  function Executed(b: State, ref: nat, shares: nat): (State, Outcome) {
    if ref !in b.orders then (b, Done)
    else if shares > b.orders[ref].shares then (b, OverExecution(ref, shares, b.orders[ref].shares))
    else
      var e := b.orders[ref].(shares := b.orders[ref].shares - shares);
      var queues := Queues(b, e.side);
      if e.shares > 0 then (b.(orders := b.orders[ref := e]), Done)
      else if e.price !in queues || queues[e.price] == [] then (b.(orders := b.orders - {ref}), Done)
      else
        var q := queues[e.price];
        if q[0] != ref then (b.(orders := b.orders[ref := e]), FifoViolation(ref, q[0]))
        else
          var rest := if q[1..] == [] then queues - {e.price} else queues[e.price := q[1..]];
          (WithQueues(b, e.side, rest).(orders := b.orders - {ref}), Done)
  }

  function Cancelled(b: State, ref: nat, shares: nat): (State, Outcome) {
    if ref !in b.orders then (b, Done)
    else if shares > b.orders[ref].shares then (b, OverExecution(ref, shares, b.orders[ref].shares))
    else if shares == b.orders[ref].shares then (Deleted(b, ref), Done)
    else (b.(orders := b.orders[ref := b.orders[ref].(shares := b.orders[ref].shares - shares)]), Done)
  }

  function Deleted(b: State, ref: nat): State {
    if ref !in b.orders then b
    else
      var e := b.orders[ref];
      WithQueues(b, e.side, Removed(Queues(b, e.side), e.price, ref)).(orders := b.orders - {ref})
  }

  function Replaced(b: State, original: nat, ref: nat, shares: nat, price: nat): State {
    if original !in b.orders then b
    else
      var e := b.orders[original];
      Inserted(Deleted(b, original), ref, e.side, shares, price, e.mpid)
  }

  function Applied(b: State, m: Message): (State, Outcome) {
    match m
    case AddOrder(locate, ref, side, shares, price) =>
      if locate != b.locate then (b, Done) else (Inserted(b, ref, side, shares, price, None), Done)
    case AddOrderWithMpid(locate, ref, side, shares, price, mpid) =>
      if locate != b.locate then (b, Done) else (Inserted(b, ref, side, shares, price, Some(mpid)), Done)
    case OrderExecuted(_, ref, shares) => Executed(b, ref, shares)
    case OrderExecutedWithPrice(_, ref, shares, _) => Executed(b, ref, shares)
    case OrderCancel(_, ref, shares) => Cancelled(b, ref, shares)
    case OrderDelete(_, ref) => (Deleted(b, ref), Done)
    case OrderReplace(_, original, ref, shares, price) => (Replaced(b, original, ref, shares, price), Done)
    case StockDirectory(_, _) => (b, Done)
    case Other(_) => (b, Done)
  }

  function AppliedAll(b: State, ms: seq<Message>): State {
    if ms == [] then b else Applied(AppliedAll(b, ms[..|ms| - 1]), ms[|ms| - 1]).0
  }

  /** Place in line; `None` when the order is not open. */
  function QueuePosition(b: State, ref: nat): Option<nat> {
    if ref !in b.orders then None
    else
      var e := b.orders[ref];
      var queues := Queues(b, e.side);
      if e.price !in queues || IndexOf(queues[e.price], ref) == |queues[e.price]| then None
      else Some(IndexOf(queues[e.price], ref))
  }

  // ----- Forgetting the queue -----

  function Summarised(e: Order): Entry {
    Entry(e.price, e.shares, e.side, e.locate)
  }

  function Entries(orders: map<nat, Order>): map<nat, Entry> {
    map r | r in orders :: Summarised(orders[r])
  }

  /** The open orders among `refs` that are pinned to the book's own symbol. */
  function Pinned(b: State, refs: set<nat>): map<nat, Entry> {
    map r | r in refs && r in b.orders && b.orders[r].locate == b.locate :: Summarised(b.orders[r])
  }

  // ----- The mutable book -----

  class L3Book {
    const stockLocate: nat
    var bids: map<nat, seq<nat>>
    var asks: map<nat, seq<nat>>
    var orders: map<nat, Order>
    var arrivalSeq: nat

    function Model(): State
      reads this
    {
      State(stockLocate, bids, asks, orders, arrivalSeq)
    }

    constructor (locate: nat)
      ensures Model() == Empty(locate)
    {
      stockLocate := locate;
      bids := map[];
      asks := map[];
      orders := map[];
      arrivalSeq := 0;
    }

    method InsertOrder(ref: nat, side: Side, shares: nat, price: nat, mpid: Option<nat>)
      modifies this
      ensures Model() == Inserted(old(Model()), ref, side, shares, price, mpid)
    {
      arrivalSeq := arrivalSeq + 1;
      orders := orders[ref := Order(price, shares, side, stockLocate, mpid, arrivalSeq)];
      var queues := if side == Buy then bids else asks;
      if price !in queues {
        queues := queues[price := []];
      }
      SetQueues(side, queues[price := queues[price] + [ref]]);
    }

    method RemoveFromQueue(side: Side, price: nat, ref: nat)
      modifies this`bids, this`asks
      ensures Model() == WithQueues(old(Model()), side, Removed(Queues(old(Model()), side), price, ref))
    {
      match side {
        case Buy => bids := Removed(bids, price, ref);
        case Sell => asks := Removed(asks, price, ref);
      }
    }

    method SetQueues(side: Side, queues: map<nat, seq<nat>>)
      modifies this`bids, this`asks
      ensures Model() == WithQueues(old(Model()), side, queues)
    {
      match side {
        case Buy => bids := queues;
        case Sell => asks := queues;
      }
    }

    method Execute(ref: nat, shares: nat) returns (r: Outcome)
      modifies this
      ensures (Model(), r) == Executed(old(Model()), ref, shares)
    {
      if ref !in orders {
        return Done;
      }
      var entry := orders[ref];
      if shares > entry.shares {
        return OverExecution(ref, shares, entry.shares);
      }
      entry := entry.(shares := entry.shares - shares);
      orders := orders[ref := entry];
      assert orders - {ref} == old(orders) - {ref};
      if entry.shares == 0 {
        var queues := if entry.side == Buy then bids else asks;
        if entry.price !in queues || queues[entry.price] == [] {
          orders := orders - {ref};
          return Done;
        }
        var q := queues[entry.price];
        if q[0] != ref {
          return FifoViolation(ref, q[0]);
        }
        queues := queues[entry.price := q[1..]];
        if queues[entry.price] == [] {
          queues := queues - {entry.price};
          assert queues == Queues(old(Model()), entry.side) - {entry.price};
        }
        SetQueues(entry.side, queues);
        orders := orders - {ref};
      }
      return Done;
    }

    method Cancel(ref: nat, shares: nat) returns (r: Outcome)
      modifies this
      ensures (Model(), r) == Cancelled(old(Model()), ref, shares)
    {
      if ref !in orders {
        return Done;
      }
      var entry := orders[ref];
      if shares > entry.shares {
        return OverExecution(ref, shares, entry.shares);
      }
      entry := entry.(shares := entry.shares - shares);
      orders := orders[ref := entry];
      if entry.shares == 0 {
        assert orders - {ref} == old(orders) - {ref};
        RemoveFromQueue(entry.side, entry.price, ref);
        orders := orders - {ref};
      }
      return Done;
    }

    method Delete(ref: nat)
      modifies this
      ensures Model() == Deleted(old(Model()), ref)
    {
      if ref in orders {
        var entry := orders[ref];
        orders := orders - {ref};
        RemoveFromQueue(entry.side, entry.price, ref);
      }
    }

    method Replace(original: nat, ref: nat, shares: nat, price: nat)
      modifies this
      ensures Model() == Replaced(old(Model()), original, ref, shares, price)
    {
      if original in orders {
        var entry := orders[original];
        Delete(original);
        InsertOrder(ref, entry.side, shares, price, entry.mpid);
      }
    }

    method Apply(m: Message) returns (r: Outcome)
      modifies this
      ensures (Model(), r) == Applied(old(Model()), m)
    {
      r := Done;
      match m {
        case AddOrder(locate, ref, side, shares, price) =>
          if locate == stockLocate {
            InsertOrder(ref, side, shares, price, None);
          }
        case AddOrderWithMpid(locate, ref, side, shares, price, mpid) =>
          if locate == stockLocate {
            InsertOrder(ref, side, shares, price, Some(mpid));
          }
        case OrderExecuted(_, ref, shares) => r := Execute(ref, shares);
        case OrderExecutedWithPrice(_, ref, shares, _) => r := Execute(ref, shares);
        case OrderCancel(_, ref, shares) => r := Cancel(ref, shares);
        case OrderDelete(_, ref) => Delete(ref);
        case OrderReplace(_, original, ref, shares, price) => Replace(original, ref, shares, price);
        case StockDirectory(_, _) =>
        case Other(_) =>
      }
    }

    /** Replays the open orders in no particular order; the resulting book does not depend on it. */
    method SummaryL2() returns (l2: L2Book.L2Book)
      ensures fresh(l2)
      ensures l2.Model() == L2BookLaws.BookOf(stockLocate, Pinned(Model(), orders.Keys))
    {
      l2 := new L2Book.L2Book(stockLocate);
      ghost var b := Model();
      var left := orders.Keys;
      while left != {}
        invariant left <= orders.Keys && Model() == b
        invariant l2.Model() == L2BookLaws.BookOf(stockLocate, Pinned(b, orders.Keys - left))
        decreases |left|
      {
        var ref: nat :| ref in left;
        var entry := orders[ref];
        ghost var done := Pinned(b, orders.Keys - left);
        left := left - {ref};
        if entry.locate == stockLocate {
          assert Pinned(b, orders.Keys - left) == done[ref := Summarised(entry)];
          L2BookLaws.BookOfInsert(stockLocate, done, ref, Summarised(entry));
          var _ := l2.Apply(AddOrder(stockLocate, ref, entry.side, entry.shares, entry.price));
        } else {
          assert Pinned(b, orders.Keys - left) == done;
        }
      }
      assert orders.Keys - left == orders.Keys;
    }
  }
}
