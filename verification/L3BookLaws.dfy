/** What the per-order book promises over whole message streams. */
module L3BookLaws {
  import opened Wire
  import opened Book
  import opened L3Book

  // ----- Queues and orders agree -----

  /** A queue names open orders of its own level, each once, oldest first. */
  predicate QueueOk(orders: map<nat, Order>, q: seq<nat>, side: Side, price: nat) {
    && q != []
    && (forall i :: 0 <= i < |q| ==> q[i] in orders && orders[q[i]].side == side && orders[q[i]].price == price)
    && (forall i, j :: 0 <= i < j < |q| ==> orders[q[i]].arrival < orders[q[j]].arrival)
  }

  predicate QueuesOk(orders: map<nat, Order>, queues: map<nat, seq<nat>>, side: Side) {
    forall p :: p in queues ==> QueueOk(orders, queues[p], side, p)
  }

  /** An open order stands in the queue of its price. */
  predicate Queued(e: Order, r: nat, queues: map<nat, seq<nat>>) {
    e.price in queues && r in queues[e.price]
  }

  predicate AllQueued(b: State) {
    forall r :: r in b.orders ==> Queued(b.orders[r], r, Queues(b, b.orders[r].side))
  }

  predicate Stamped(b: State) {
    forall r :: r in b.orders ==> b.orders[r].arrival <= b.arrival && b.orders[r].locate == b.locate
  }

  predicate Valid(b: State) {
    QueuesOk(b.orders, b.bids, Buy) && QueuesOk(b.orders, b.asks, Sell) && AllQueued(b) && Stamped(b)
  }

  // ----- Every operation keeps them in agreement -----

  lemma Distinct(orders: map<nat, Order>, q: seq<nat>, side: Side, price: nat, i: nat, j: nat)
    requires QueueOk(orders, q, side, price) && i < |q| && j < |q| && i != j
    ensures q[i] != q[j]
  {
  }

  lemma WithoutAt(q: seq<nat>, ref: nat, k: nat)
    requires k < |Without(q, ref)|
    ensures var j := if k < IndexOf(q, ref) then k else k + 1;
            j < |q| && Without(q, ref)[k] == q[j]
  {
    hide IndexOf;
    var i := IndexOf(q, ref);
    if i < |q| && k >= i {
      assert (q[..i] + q[i + 1..])[k] == q[i + 1..][k - i];
    }
  }

  lemma WithoutDrops(orders: map<nat, Order>, q: seq<nat>, side: Side, price: nat, ref: nat, k: nat)
    requires QueueOk(orders, q, side, price) && k < |Without(q, ref)|
    ensures Without(q, ref)[k] != ref && Without(q, ref)[k] in q
  {
    WithoutAt(q, ref, k);
    var i := IndexOf(q, ref);
    hide QueueOk, Without;
    if i < |q| {
      Distinct(orders, q, side, price, i, if k < i then k else k + 1);
    }
  }

  lemma WithoutKeeps(q: seq<nat>, ref: nat, r: nat)
    requires r in q && r != ref
    ensures r in Without(q, ref)
  {
    var i := IndexOf(q, ref);
    var k :| 0 <= k < |q| && q[k] == r;
    if i < |q| {
      assert Without(q, ref)[if k < i then k else k - 1] == r;
    }
  }

  /** Exactly the named reference goes. */
  lemma WithoutMembers(orders: map<nat, Order>, q: seq<nat>, side: Side, price: nat, ref: nat)
    requires QueueOk(orders, q, side, price)
    ensures forall r :: r in Without(q, ref) <==> r in q && r != ref
  {
    hide QueueOk, Without;
    forall r
      ensures r in Without(q, ref) <==> r in q && r != ref
    {
      if r in Without(q, ref) {
        var k :| 0 <= k < |Without(q, ref)| && Without(q, ref)[k] == r;
        WithoutDrops(orders, q, side, price, ref, k);
      } else if r in q && r != ref {
        WithoutKeeps(q, ref, r);
      }
    }
  }

  lemma WithoutOk(orders: map<nat, Order>, q: seq<nat>, side: Side, price: nat, ref: nat)
    requires QueueOk(orders, q, side, price)
    ensures Without(q, ref) != [] ==> QueueOk(orders - {ref}, Without(q, ref), side, price)
  {
    WithoutMembers(orders, q, side, price, ref);
    var i, w := IndexOf(q, ref), Without(q, ref);
    forall k | 0 <= k < |w|
      ensures w[k] in orders - {ref} && orders[w[k]].side == side && orders[w[k]].price == price
    {
      assert w[k] in w;
      var j :| 0 <= j < |q| && q[j] == w[k];
    }
    forall j, k | 0 <= j < k < |w|
      ensures orders[w[j]].arrival < orders[w[k]].arrival
    {
      assert w[j] == q[if j < i then j else j + 1];
      assert w[k] == q[if k < i then k else k + 1];
    }
  }

  lemma QueuesShrink(orders: map<nat, Order>, queues: map<nat, seq<nat>>, side: Side, price: nat, ref: nat)
    requires QueuesOk(orders, queues, side)
    requires ref in orders && orders[ref].price == price && orders[ref].side == side
    ensures QueuesOk(orders - {ref}, Removed(queues, price, ref), side)
  {
    var after := Removed(queues, price, ref);
    if price in queues {
      WithoutOk(orders, queues[price], side, price, ref);
    }
    forall p | p in after
      ensures QueueOk(orders - {ref}, after[p], side, p)
    {
      assert QueueOk(orders, queues[p], side, p);
    }
  }

  /** Removing an order leaves the queues of the other side alone. */
  lemma OtherSide(orders: map<nat, Order>, queues: map<nat, seq<nat>>, side: Side, ref: nat)
    requires QueuesOk(orders, queues, side) && ref in orders && orders[ref].side != side
    ensures QueuesOk(orders - {ref}, queues, side)
  {
    forall p | p in queues
      ensures QueueOk(orders - {ref}, queues[p], side, p)
    {
      assert QueueOk(orders, queues[p], side, p);
    }
  }

  lemma DeletedQueues(b: State, ref: nat, at: Side)
    requires Valid(b) && ref in b.orders
    ensures QueuesOk(b.orders - {ref}, Queues(Deleted(b, ref), at), at)
  {
    var e := b.orders[ref];
    hide QueuesOk, Queued, AllQueued, Stamped, Removed;
    if e.side == at {
      QueuesShrink(b.orders, Queues(b, at), at, e.price, ref);
    } else {
      OtherSide(b.orders, Queues(b, at), at, ref);
    }
  }

  lemma OthersQueued(b: State, ref: nat, r: nat)
    requires Valid(b) && r in b.orders && r != ref
    ensures Queued(b.orders[r], r, Queues(Deleted(b, ref), b.orders[r].side))
  {
    var e := b.orders[r];
    assert Queued(e, r, Queues(b, e.side));
    hide Valid, Removed, Queued;
    if ref in b.orders {
      RemovedKeeps(Queues(b, e.side), b.orders[ref].price, ref, e, r);
    }
  }

  lemma RemovedKeeps(queues: map<nat, seq<nat>>, price: nat, ref: nat, e: Order, r: nat)
    requires Queued(e, r, queues) && r != ref
    ensures Queued(e, r, Removed(queues, price, ref))
  {
    hide Without;
    WithoutKeeps(queues[e.price], ref, r);
  }

  lemma DeletedValid(b: State, ref: nat)
    requires Valid(b)
    ensures Valid(Deleted(b, ref))
  {
    if ref in b.orders {
      var c := Deleted(b, ref);
      DeletedQueues(b, ref, Buy);
      DeletedQueues(b, ref, Sell);
      forall r | r in c.orders
        ensures Queued(c.orders[r], r, Queues(c, c.orders[r].side))
      {
        OthersQueued(b, ref, r);
      }
      hide QueuesOk, Queued;
    }
  }

  lemma QueuesResized(orders: map<nat, Order>, queues: map<nat, seq<nat>>, side: Side, ref: nat, shares: nat)
    requires QueuesOk(orders, queues, side) && ref in orders
    ensures QueuesOk(orders[ref := orders[ref].(shares := shares)], queues, side)
  {
    forall p | p in queues
      ensures QueueOk(orders[ref := orders[ref].(shares := shares)], queues[p], side, p)
    {
      assert QueueOk(orders, queues[p], side, p);
    }
  }

  function Resized(b: State, ref: nat, shares: nat): State
    requires ref in b.orders
  {
    b.(orders := b.orders[ref := b.orders[ref].(shares := shares)])
  }

  /** A change of size alone disturbs no queue. */
  lemma ResizedValid(b: State, ref: nat, shares: nat)
    requires Valid(b) && ref in b.orders
    ensures Valid(Resized(b, ref, shares))
  {
    QueuesResized(b.orders, b.bids, Buy, ref, shares);
    QueuesResized(b.orders, b.asks, Sell, ref, shares);
    hide QueuesOk;
  }

  lemma QueuesGrow(orders: map<nat, Order>, queues: map<nat, seq<nat>>, side: Side, ref: nat, e: Order)
    requires QueuesOk(orders, queues, side) && ref !in orders
    requires forall r :: r in orders ==> orders[r].arrival < e.arrival
    ensures QueuesOk(orders[ref := e], queues, side)
    ensures e.side == side ==>
              QueuesOk(orders[ref := e],
                       queues[e.price := (if e.price in queues then queues[e.price] else []) + [ref]], side)
  {
    forall p | p in queues
      ensures QueueOk(orders[ref := e], queues[p], side, p)
    {
      assert QueueOk(orders, queues[p], side, p);
    }
  }

  lemma InsertedQueues(b: State, ref: nat, side: Side, shares: nat, price: nat, mpid: Option<nat>, at: Side)
    requires QueuesOk(b.orders, Queues(b, at), at) && Stamped(b) && ref !in b.orders
    ensures var c := Inserted(b, ref, side, shares, price, mpid);
            QueuesOk(c.orders, Queues(c, at), at)
  {
    hide QueuesOk;
    QueuesGrow(b.orders, Queues(b, at), at, ref, Order(price, shares, side, b.locate, mpid, b.arrival + 1));
  }

  lemma InsertedValid(b: State, ref: nat, side: Side, shares: nat, price: nat, mpid: Option<nat>)
    requires Valid(b) && ref !in b.orders
    ensures Valid(Inserted(b, ref, side, shares, price, mpid))
  {
    hide QueuesOk, AllQueued, Stamped, Inserted;
    InsertedQueues(b, ref, side, shares, price, mpid, Buy);
    InsertedQueues(b, ref, side, shares, price, mpid, Sell);
    InsertedOrders(b, ref, side, shares, price, mpid);
  }

  lemma InsertedOrders(b: State, ref: nat, side: Side, shares: nat, price: nat, mpid: Option<nat>)
    requires AllQueued(b) && Stamped(b)
    ensures AllQueued(Inserted(b, ref, side, shares, price, mpid))
    ensures Stamped(Inserted(b, ref, side, shares, price, mpid))
  {
    var c := Inserted(b, ref, side, shares, price, mpid);
    var q := Queues(c, side)[price];
    assert q[|q| - 1] == ref;
    forall r | r in c.orders
      ensures Queued(c.orders[r], r, Queues(c, c.orders[r].side))
    {
      if r != ref {
        assert Queued(b.orders[r], r, Queues(b, b.orders[r].side));
      }
    }
  }

  /** A reference that is already open ends up in a queue it does not belong to, or in its queue twice. */
  lemma ReusedInvalid(b: State, ref: nat, side: Side, shares: nat, price: nat, mpid: Option<nat>)
    requires Valid(b) && ref in b.orders
    ensures !Valid(Inserted(b, ref, side, shares, price, mpid))
  {
    var c := Inserted(b, ref, side, shares, price, mpid);
    var e := b.orders[ref];
    assert Queued(e, ref, Queues(b, e.side));
    var q := Queues(b, e.side)[e.price];
    var i :| 0 <= i < |q| && q[i] == ref;
    var t := Queues(c, e.side)[e.price];
    assert e.price in Queues(c, e.side) && t[i] == ref;
    if e.side == side && e.price == price {
      assert t[|q|] == ref;
      assert !QueueOk(c.orders, t, e.side, e.price);
    } else {
      assert !QueueOk(c.orders, t, e.side, e.price);
    }
  }

  /** Adding keeps queues and orders in agreement if and only if the reference is not open. */
  lemma InsertedValidIff(b: State, ref: nat, side: Side, shares: nat, price: nat, mpid: Option<nat>)
    requires Valid(b)
    ensures Valid(Inserted(b, ref, side, shares, price, mpid)) <==> ref !in b.orders
  {
    hide Valid, Inserted;
    if ref in b.orders {
      ReusedInvalid(b, ref, side, shares, price, mpid);
    } else {
      InsertedValid(b, ref, side, shares, price, mpid);
    }
  }

  /** The order at the front of the line an open order stands in. */
  function Front(b: State, ref: nat): nat
    requires Valid(b) && ref in b.orders
  {
    assert Queued(b.orders[ref], ref, Queues(b, b.orders[ref].side));
    Queues(b, b.orders[ref].side)[b.orders[ref].price][0]
  }

  /** A full execution of the front order removes it exactly as a delete would. */
  lemma ExecutedCases(b: State, ref: nat, shares: nat)
    requires Valid(b) && ref in b.orders && shares <= b.orders[ref].shares
    ensures var left := b.orders[ref].shares - shares;
            Executed(b, ref, shares) ==
            if left > 0 then (Resized(b, ref, left), Done)
            else if Front(b, ref) != ref then (Resized(b, ref, 0), FifoViolation(ref, Front(b, ref)))
            else (Deleted(b, ref), Done)
  {
    var e := b.orders[ref];
    assert Queued(e, ref, Queues(b, e.side));
    var q := Queues(b, e.side)[e.price];
    if q[0] == ref {
      assert IndexOf(q, ref) == 0;
      assert Without(q, ref) == q[1..];
    }
    hide Valid;
  }

  /** Executions and cancels leave the book alone, resize the order, or delete it. */
  predicate ReducedTo(b: State, ref: nat, shares: nat, c: State) {
    || c == b
    || c == Deleted(b, ref)
    || (ref in b.orders && shares <= b.orders[ref].shares && c == Resized(b, ref, b.orders[ref].shares - shares))
  }

  lemma ReductionCases(b: State, ref: nat, shares: nat)
    requires Valid(b)
    ensures ReducedTo(b, ref, shares, Executed(b, ref, shares).0)
    ensures ReducedTo(b, ref, shares, Cancelled(b, ref, shares).0)
  {
    if ref in b.orders && shares <= b.orders[ref].shares {
      ExecutedCases(b, ref, shares);
    }
  }

  lemma ReducedToValid(b: State, ref: nat, shares: nat, c: State)
    requires Valid(b) && ReducedTo(b, ref, shares, c)
    ensures Valid(c)
  {
    hide Valid, Deleted, Resized;
    DeletedValid(b, ref);
    if ref in b.orders && shares <= b.orders[ref].shares {
      ResizedValid(b, ref, b.orders[ref].shares - shares);
    }
  }

  lemma ReductionValid(b: State, ref: nat, shares: nat)
    requires Valid(b)
    ensures Valid(Executed(b, ref, shares).0) && Valid(Cancelled(b, ref, shares).0)
  {
    hide *;
    ReductionCases(b, ref, shares);
    ReducedToValid(b, ref, shares, Executed(b, ref, shares).0);
    ReducedToValid(b, ref, shares, Cancelled(b, ref, shares).0);
  }

  /** A replace keeps them in agreement if and only if its new reference is the old one or not open. */
  lemma ReplacedValidIff(b: State, original: nat, ref: nat, shares: nat, price: nat)
    requires Valid(b)
    ensures Valid(Replaced(b, original, ref, shares, price))
            <==> (original in b.orders ==> ref == original || ref !in b.orders)
  {
    hide Valid, Inserted;
    if original in b.orders {
      var e := b.orders[original];
      DeletedValid(b, original);
      InsertedValidIff(Deleted(b, original), ref, e.side, shares, price, e.mpid);
    }
  }

  /** Queues and orders agree after every message, the refused ones included. */
  lemma AppliedValid(b: State, m: Message)
    requires Valid(b) && Fresh(b.locate, b.orders.Keys, m)
    ensures Valid(Applied(b, m).0) && Applied(b, m).0.locate == b.locate
  {
    assert Applied(b, m).0.locate == b.locate;
    hide Valid, Inserted, Executed, Cancelled, Deleted, Replaced;
    match m
    case AddOrder(_, ref, side, shares, price) =>
      if m.locate == b.locate {
        InsertedValid(b, ref, side, shares, price, None);
      }
    case AddOrderWithMpid(_, ref, side, shares, price, mpid) =>
      if m.locate == b.locate {
        InsertedValid(b, ref, side, shares, price, Some(mpid));
      }
    case OrderExecuted(_, ref, shares) => ReductionValid(b, ref, shares);
    case OrderExecutedWithPrice(_, ref, shares, _) => ReductionValid(b, ref, shares);
    case OrderCancel(_, ref, shares) => ReductionValid(b, ref, shares);
    case OrderDelete(_, ref) => DeletedValid(b, ref);
    case OrderReplace(_, original, ref, shares, price) => ReplacedValidIff(b, original, ref, shares, price);
    case _ =>
  }

  predicate FreshStream(b: State, ms: seq<Message>) {
    ms == [] ||
    (var n := |ms| - 1;
     FreshStream(b, ms[..n]) && Fresh(b.locate, AppliedAll(b, ms[..n]).orders.Keys, ms[n]))
  }

  /** Every stream without reused references, errors included, leaves queues and orders in agreement. */
  lemma {:induction false} QueuesStayValid(locate: nat, ms: seq<Message>)
    requires FreshStream(Empty(locate), ms)
    ensures Valid(AppliedAll(Empty(locate), ms)) && AppliedAll(Empty(locate), ms).locate == locate
  {
    hide Applied;
    if ms != [] {
      QueuesStayValid(locate, ms[..|ms| - 1]);
      AppliedValid(AppliedAll(Empty(locate), ms[..|ms| - 1]), ms[|ms| - 1]);
    }
  }

  // ----- Price-time priority -----

  /** The open orders at the same price that arrived earlier. */
  function Seniors(b: State, ref: nat): set<nat>
    requires ref in b.orders
  {
    var e := b.orders[ref];
    set r | r in b.orders && b.orders[r].side == e.side && b.orders[r].price == e.price
            && b.orders[r].arrival < e.arrival
  }

  lemma {:induction false} PrefixSize(q: seq<nat>, i: nat, s: set<nat>)
    requires i <= |q| && forall j, k :: 0 <= j < k < |q| ==> q[j] != q[k]
    requires forall r :: r in s <==> exists j :: 0 <= j < i && q[j] == r
    ensures |s| == i
  {
    if i == 0 {
      assert s == {};
    } else {
      var last := q[i - 1];
      forall r
        ensures r in s - {last} <==> exists j :: 0 <= j < i - 1 && q[j] == r
      {
        if r in s && r != last {
          var j :| 0 <= j < i && q[j] == r;
          assert j < i - 1;
        }
      }
      PrefixSize(q, i - 1, s - {last});
      assert last in s;
    }
  }

  /** An order's place in line is the number of open orders at its price that arrived before it. */
  lemma PositionCountsSeniors(b: State, ref: nat)
    requires Valid(b)
    ensures ref in b.orders ==> QueuePosition(b, ref) == Some(|Seniors(b, ref)|)
    ensures ref !in b.orders ==> QueuePosition(b, ref) == None
  {
    if ref in b.orders {
      var e := b.orders[ref];
      assert Queued(e, ref, Queues(b, e.side));
      var q := Queues(b, e.side)[e.price];
      assert QueueOk(b.orders, q, e.side, e.price);
      var i := IndexOf(q, ref);
      var k :| 0 <= k < |q| && q[k] == ref;
      assert i < |q|;
      forall r
        ensures r in Seniors(b, ref) <==> exists j :: 0 <= j < i && q[j] == r
      {
        if r in Seniors(b, ref) {
          assert Queued(b.orders[r], r, Queues(b, e.side));
          var j :| 0 <= j < |q| && q[j] == r;
          assert j < i;
        }
      }
      PrefixSize(q, i, Seniors(b, ref));
    }
  }

  /** A full execution is refused exactly when an older order still rests at the price, and names the oldest. */
  lemma FifoViolationIff(b: State, ref: nat)
    requires Valid(b) && ref in b.orders
    ensures var (c, outcome) := Executed(b, ref, b.orders[ref].shares);
            && (outcome.FifoViolation? <==> Seniors(b, ref) != {})
            && (outcome.FifoViolation? ==>
                  outcome.expected == ref && outcome.got in Seniors(b, ref) && Seniors(b, outcome.got) == {})
            && (!outcome.FifoViolation? ==> outcome == Done && ref !in c.orders)
  {
    ExecutedCases(b, ref, b.orders[ref].shares);
    var e := b.orders[ref];
    assert Queued(e, ref, Queues(b, e.side));
    var q := Queues(b, e.side)[e.price];
    assert QueueOk(b.orders, q, e.side, e.price);
    var k :| 0 <= k < |q| && q[k] == ref;
    NothingBefore(b, q[0]);
    if q[0] != ref {
      assert q[0] in Seniors(b, ref);
    }
    hide Executed, Valid;
  }

  lemma NothingBefore(b: State, front: nat)
    requires Valid(b) && front in b.orders
    ensures var e := b.orders[front];
            Queues(b, e.side)[e.price][0] == front ==> Seniors(b, front) == {}
  {
    var e := b.orders[front];
    assert Queued(e, front, Queues(b, e.side));
    var q := Queues(b, e.side)[e.price];
    assert QueueOk(b.orders, q, e.side, e.price);
    forall r | r in b.orders && b.orders[r].side == e.side && b.orders[r].price == e.price
      ensures q[0] == front ==> b.orders[r].arrival >= e.arrival
    {
      assert Queued(b.orders[r], r, Queues(b, e.side));
      var j :| 0 <= j < |q| && q[j] == r;
    }
  }

  /** The open orders at a price. */
  function AtPrice(b: State, side: Side, price: nat): set<nat> {
    set r | r in b.orders && b.orders[r].side == side && b.orders[r].price == price
  }

  /** A new order stands behind everything at its price and overtakes nobody. */
  lemma InsertedIsLast(b: State, ref: nat, side: Side, shares: nat, price: nat, mpid: Option<nat>)
    requires Valid(b) && ref !in b.orders
    ensures var c := Inserted(b, ref, side, shares, price, mpid);
            && Seniors(c, ref) == AtPrice(b, side, price)
            && QueuePosition(c, ref) == Some(|AtPrice(b, side, price)|)
            && forall r :: r in b.orders ==> QueuePosition(c, r) == QueuePosition(b, r)
  {
    var c := Inserted(b, ref, side, shares, price, mpid);
    assert c.orders.Keys == b.orders.Keys + {ref};
    InsertedValid(b, ref, side, shares, price, mpid);
    hide QueuesOk, AllQueued, QueuePosition, Inserted, Seniors, AtPrice;
    PositionCountsSeniors(c, ref);
    InsertedSeniors(b, ref, side, shares, price, mpid);
    forall r | r in b.orders
      ensures QueuePosition(c, r) == QueuePosition(b, r)
    {
      PositionCountsSeniors(c, r);
      PositionCountsSeniors(b, r);
    }
  }

  lemma InsertedSeniors(b: State, ref: nat, side: Side, shares: nat, price: nat, mpid: Option<nat>)
    requires Stamped(b) && ref !in b.orders
    ensures var c := Inserted(b, ref, side, shares, price, mpid);
            && ref in c.orders && Seniors(c, ref) == AtPrice(b, side, price)
            && forall r :: r in b.orders ==> r in c.orders && Seniors(c, r) == Seniors(b, r)
  {
    var c := Inserted(b, ref, side, shares, price, mpid);
    assert c.orders == b.orders[ref := Order(price, shares, side, b.locate, mpid, b.arrival + 1)];
    hide Inserted;
  }

  /** A replaced order keeps its side and attribution, and goes to the back of the line. */
  lemma ReplaceLosesPriority(b: State, original: nat, ref: nat, shares: nat, price: nat)
    requires Valid(b) && original in b.orders && (ref == original || ref !in b.orders)
    ensures var c := Replaced(b, original, ref, shares, price);
            var e := b.orders[original];
            && ref in c.orders && c.orders[ref].side == e.side && c.orders[ref].mpid == e.mpid
            && c.orders[ref].shares == shares && c.orders[ref].price == price
            && QueuePosition(c, ref) == Some(|AtPrice(b, e.side, price) - {original}|)
  {
    var e := b.orders[original];
    var d := Deleted(b, original);
    DeletedValid(b, original);
    assert d.orders == b.orders - {original};
    assert AtPrice(d, e.side, price) == AtPrice(b, e.side, price) - {original};
    InsertedIsLast(d, ref, e.side, shares, price, e.mpid);
    hide Valid, QueuePosition, Deleted, AtPrice;
  }

  /** A change of size, which is what partial executions and cancels make, moves nobody in line. */
  lemma ResizedKeepsPlace(b: State, ref: nat, shares: nat, r: nat)
    requires Valid(b) && ref in b.orders && r in b.orders
    ensures QueuePosition(Resized(b, ref, shares), r) == QueuePosition(b, r)
  {
    var c := Resized(b, ref, shares);
    ResizedValid(b, ref, shares);
    ResizedSeniors(b, ref, shares, r);
    hide Valid, QueuePosition, Seniors;
    PositionCountsSeniors(c, r);
    PositionCountsSeniors(b, r);
  }

  lemma ResizedSeniors(b: State, ref: nat, shares: nat, r: nat)
    requires ref in b.orders && r in b.orders
    ensures Seniors(Resized(b, ref, shares), r) == Seniors(b, r)
  {
  }
}
