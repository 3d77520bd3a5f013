/** The per-order book refines the price-level book. */
module BookRefinement {
  import opened Wire
  import opened Book
  import L2 = L2Book
  import L2Laws = L2BookLaws
  import L3 = L3Book
  import L3Laws = L3BookLaws

  /** The two books have the same open orders. */
  ghost predicate Related(fine: L3.State, coarse: L2.State) {
    fine.locate == coarse.locate && coarse.orders == L3.Entries(fine.orders)
  }

  lemma EntriesUpdate(orders: map<nat, L3.Order>, r: nat, e: L3.Order)
    ensures L3.Entries(orders[r := e]) == L3.Entries(orders)[r := L3.Summarised(e)]
    ensures L3.Entries(orders - {r}) == L3.Entries(orders) - {r}
  {
  }

  lemma AddRelated(fine: L3.State, coarse: L2.State, ref: nat, side: Side, shares: nat, price: nat, mpid: Option<nat>)
    requires Related(fine, coarse)
    ensures Related(L3.Inserted(fine, ref, side, shares, price, mpid), L2.Added(coarse, ref, side, shares, price))
  {
    EntriesUpdate(fine.orders, ref, L3.Order(price, shares, side, fine.locate, mpid, fine.arrival + 1));
    hide L3.Entries;
  }

  lemma DeleteRelated(fine: L3.State, coarse: L2.State, ref: nat)
    requires Related(fine, coarse)
    ensures Related(L3.Deleted(fine, ref), L2.Deleted(coarse, ref))
  {
    if ref in fine.orders {
      EntriesUpdate(fine.orders, ref, fine.orders[ref]);
    }
  }

  lemma CancelRelated(fine: L3.State, coarse: L2.State, ref: nat, shares: nat)
    requires Related(fine, coarse)
    ensures Related(L3.Cancelled(fine, ref, shares).0, L2.Executed(coarse, ref, shares).0)
    ensures L3.Cancelled(fine, ref, shares).1 == L2.Executed(coarse, ref, shares).1
  {
    if ref in fine.orders && shares <= fine.orders[ref].shares {
      var e := fine.orders[ref];
      EntriesUpdate(fine.orders, ref, e.(shares := e.shares - shares));
    }
  }

  /** A full execution of an order while an older one rests at its price. */
  predicate ExecutesOutOfTurn(b: L3.State, ref: nat, shares: nat) {
    ref in b.orders && shares == b.orders[ref].shares && L3Laws.Seniors(b, ref) != {}
  }

  predicate OutOfTurn(b: L3.State, m: Message) {
    match m
    case OrderExecuted(_, ref, shares) => ExecutesOutOfTurn(b, ref, shares)
    case OrderExecutedWithPrice(_, ref, shares, _) => ExecutesOutOfTurn(b, ref, shares)
    case _ => false
  }

  lemma ViolationIff(b: L3.State, ref: nat, shares: nat)
    requires L3Laws.Valid(b)
    ensures L3.Executed(b, ref, shares).1.FifoViolation? <==> ExecutesOutOfTurn(b, ref, shares)
  {
    if ref in b.orders && shares == b.orders[ref].shares {
      L3Laws.FifoViolationIff(b, ref);
    }
    hide L3Laws.Valid, L3Laws.Seniors;
  }

  /** A full execution out of turn is the one step on which the two books part. */
  lemma ExecuteRelated(fine: L3.State, coarse: L2.State, ref: nat, shares: nat)
    requires L3Laws.Valid(fine) && Related(fine, coarse)
    ensures var (f, outcome) := L3.Executed(fine, ref, shares);
            var (c, plain) := L2.Executed(coarse, ref, shares);
            && (Related(f, c) <==> !ExecutesOutOfTurn(fine, ref, shares))
            && plain == if ExecutesOutOfTurn(fine, ref, shares) then Done else outcome
  {
    ViolationIff(fine, ref, shares);
    hide ExecutesOutOfTurn;
    CancelRelated(fine, coarse, ref, shares);
    if ref in fine.orders && shares <= fine.orders[ref].shares {
      L3Laws.ExecutedCases(fine, ref, shares);
    }
    if L3.Executed(fine, ref, shares).1.FifoViolation? {
      assert ref in L3.Executed(fine, ref, shares).0.orders && ref !in L2.Executed(coarse, ref, shares).0.orders;
    } else {
      assert L3.Executed(fine, ref, shares) == L3.Cancelled(fine, ref, shares);
    }
  }

  lemma ReplaceRelated(fine: L3.State, coarse: L2.State, original: nat, ref: nat, shares: nat, price: nat)
    requires Related(fine, coarse)
    ensures Related(L3.Replaced(fine, original, ref, shares, price), L2.Replaced(coarse, original, ref, shares, price))
  {
    if original in fine.orders {
      var e := fine.orders[original];
      DeleteRelated(fine, coarse, original);
      AddRelated(L3.Deleted(fine, original), L2.Deleted(coarse, original), ref, e.side, shares, price, e.mpid);
    }
  }

  /** One message: the books keep the same open orders if and only if it does not execute an order
      out of turn, and then they return the same result. */
  lemma StepRelated(fine: L3.State, coarse: L2.State, m: Message)
    requires L3Laws.Valid(fine) && Related(fine, coarse)
    ensures var (f, outcome) := L3.Applied(fine, m);
            var (c, plain) := L2.Applied(coarse, m);
            && (Related(f, c) <==> !OutOfTurn(fine, m))
            && plain == if OutOfTurn(fine, m) then Done else outcome
  {
    hide ExecutesOutOfTurn;
    assert fine.locate == coarse.locate;
    hide Related, L3.Inserted, L3.Executed, L3.Cancelled, L3.Deleted, L3.Replaced;
    hide L2.Added, L2.Executed, L2.Deleted, L2.Replaced, L3Laws.Valid;
    match m
    case AddOrder(_, ref, side, shares, price) => AddRelated(fine, coarse, ref, side, shares, price, None);
    case AddOrderWithMpid(_, ref, side, shares, price, mpid) =>
      AddRelated(fine, coarse, ref, side, shares, price, Some(mpid));
    case OrderExecuted(_, ref, shares) => ExecuteRelated(fine, coarse, ref, shares);
    case OrderExecutedWithPrice(_, ref, shares, _) => ExecuteRelated(fine, coarse, ref, shares);
    case OrderCancel(_, ref, shares) => CancelRelated(fine, coarse, ref, shares);
    case OrderDelete(_, ref) => DeleteRelated(fine, coarse, ref);
    case OrderReplace(_, original, ref, shares, price) => ReplaceRelated(fine, coarse, original, ref, shares, price);
    case _ =>
  }

  // ----- Whole streams -----

  /** No message of the stream executes an order out of turn. */
  predicate InTurn(locate: nat, ms: seq<Message>) {
    ms == [] ||
    (var n := |ms| - 1;
     InTurn(locate, ms[..n]) && !OutOfTurn(L3.AppliedAll(L3.Empty(locate), ms[..n]), ms[n]))
  }

  predicate Good(locate: nat, ms: seq<Message>) {
    L2Laws.GoodStream(L2.Empty(locate), ms) && L2Laws.AllPositive(ms) && InTurn(locate, ms)
  }

  lemma {:induction false} StaysRelated(locate: nat, ms: seq<Message>)
    requires Good(locate, ms)
    ensures var fine := L3.AppliedAll(L3.Empty(locate), ms);
            L3Laws.Valid(fine) && fine.locate == locate && Related(fine, L2.AppliedAll(L2.Empty(locate), ms))
  {
    hide L3.Applied, L2.Applied, PositiveSize, Typed;
    if ms == [] {
      hide L2Laws.GoodStream, InTurn;
      assert L3.Entries(map[]) == map[];
    } else {
      var n := |ms| - 1;
      var fine, coarse := L3.AppliedAll(L3.Empty(locate), ms[..n]), L2.AppliedAll(L2.Empty(locate), ms[..n]);
      StaysRelated(locate, ms[..n]);
      assert Fresh(locate, coarse.orders.Keys, ms[n]) && fine.orders.Keys == coarse.orders.Keys;
      hide L2Laws.GoodStream, L3Laws.Valid, Related, Fresh, OutOfTurn;
      L3Laws.AppliedValid(fine, ms[n]);
      StepRelated(fine, coarse, ms[n]);
    }
  }

  /** Forgetting the queues after the run gives the price-level book that was run on its own. */
  lemma SummaryRefines(locate: nat, ms: seq<Message>)
    requires Good(locate, ms)
    ensures var fine := L3.AppliedAll(L3.Empty(locate), ms);
            L2Laws.BookOf(locate, L3.Pinned(fine, fine.orders.Keys)) == L2.AppliedAll(L2.Empty(locate), ms)
  {
    var fine, coarse := L3.AppliedAll(L3.Empty(locate), ms), L2.AppliedAll(L2.Empty(locate), ms);
    StaysRelated(locate, ms);
    L2Laws.LevelsAreExact(locate, ms);
    L2Laws.StaysLive(locate, ms);
    L2Laws.SameLocate(L2.Empty(locate), ms);
    L2Laws.BookIsCanonical(coarse);
    assert L3.Pinned(fine, fine.orders.Keys) == L3.Entries(fine.orders);
  }

  /** Both books accept and refuse the same next message. */
  lemma SameOutcome(locate: nat, ms: seq<Message>, m: Message)
    requires Good(locate, ms)
    ensures var fine := L3.AppliedAll(L3.Empty(locate), ms);
            !OutOfTurn(fine, m) ==>
              L3.Applied(fine, m).1 == L2.Applied(L2.AppliedAll(L2.Empty(locate), ms), m).1
  {
    hide OutOfTurn, L3.Applied, L2.Applied;
    StaysRelated(locate, ms);
    StepRelated(L3.AppliedAll(L3.Empty(locate), ms), L2.AppliedAll(L2.Empty(locate), ms), m);
  }
}
