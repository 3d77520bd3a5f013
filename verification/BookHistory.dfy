/** What became of each order, told one order at a time, and what the manager answers because of it. */
module BookHistory {
  import opened Wire
  import opened Book
  import L2 = L2Book
  import L3 = L3Book
  import L3Laws = L3BookLaws
  import Refinement = BookRefinement
  import Manager = BookManager

  /** What is left of an order after `shares` are taken; taking too many takes none. */
  function Less(e: Option<Entry>, shares: nat): Option<Entry> {
    match e
    case None => None
    case Some(x) =>
      if shares > x.shares then e else if shares == x.shares then None else Some(x.(shares := x.shares - shares))
  }

  /** The order `ref` after one message, given what it was and what the order was that a replace names. */
  function After(locate: nat, ref: nat, m: Message, before: Option<Entry>, replaced: Option<Entry>): Option<Entry> {
    match m
    case AddOrder(to, r, side, shares, price) =>
      if to == locate && r == ref then Some(Entry(price, shares, side, locate)) else before
    case AddOrderWithMpid(to, r, side, shares, price, _) =>
      if to == locate && r == ref then Some(Entry(price, shares, side, locate)) else before
    case OrderExecuted(_, r, shares) => if r == ref then Less(before, shares) else before
    case OrderExecutedWithPrice(_, r, shares, _) => if r == ref then Less(before, shares) else before
    case OrderCancel(_, r, shares) => if r == ref then Less(before, shares) else before
    case OrderDelete(_, r) => if r == ref then None else before
    case OrderReplace(_, original, r, shares, price) =>
      if replaced.None? then before
      else if r == ref then Some(Entry(price, shares, replaced.value.side, locate))
      else if original == ref then None
      else before
    case _ => before
  }

  /** The order `ref` of symbol `locate` after a stream, following only the messages that name it:
      it is open from the message that brought it in until it is used up, deleted or replaced. */
  function History(locate: nat, ref: nat, ms: seq<Message>): Option<Entry>
    decreases |ms|
  {
    if ms == [] then None
    else
      var front, m := ms[..|ms| - 1], ms[|ms| - 1];
      var replaced := if m.OrderReplace? then History(locate, m.original, front) else None;
      After(locate, ref, m, History(locate, ref, front), replaced)
  }

  function Find(orders: map<nat, Entry>, ref: nat): Option<Entry> {
    if ref in orders then Some(orders[ref]) else None
  }

  lemma IndexAfter(b: L2.State, m: Message, ref: nat)
    ensures var c := L2.Applied(b, m).0;
            var replaced := if m.OrderReplace? then Find(b.orders, m.original) else None;
            c.locate == b.locate && Find(c.orders, ref) == After(b.locate, ref, m, Find(b.orders, ref), replaced)
  {
    hide L2.Reduced;
  }

  /** The index of a book holds exactly the orders that are open by their own history, each with
      its price, side and remaining shares: for every stream, well formed or not. */
  lemma {:induction false} IndexIsHistory(locate: nat, ref: nat, ms: seq<Message>)
    ensures var b := L2.AppliedAll(L2.Empty(locate), ms);
            b.locate == locate && Find(b.orders, ref) == History(locate, ref, ms)
    decreases |ms|
  {
    hide L2.Applied, After;
    if ms == [] {
      assert L2.AppliedAll(L2.Empty(locate), ms) == L2.Empty(locate);
    } else {
      hide Find;
      var n := |ms| - 1;
      IndexIsHistory(locate, ref, ms[..n]);
      if ms[n].OrderReplace? {
        IndexIsHistory(locate, ms[n].original, ms[..n]);
      }
      IndexAfter(L2.AppliedAll(L2.Empty(locate), ms[..n]), ms[n], ref);
    }
  }

  /** The attribution of the order `ref`: none when it was added without one, the one it was added
      with otherwise, and that of the order it replaced. */
  function Attribution(locate: nat, ref: nat, ms: seq<Message>): Option<nat>
    decreases |ms|
  {
    if ms == [] then None
    else
      var n := |ms| - 1;
      match ms[n]
      case AddOrder(to, r, _, _, _) =>
        if to == locate && r == ref then None else Attribution(locate, ref, ms[..n])
      case AddOrderWithMpid(to, r, _, _, _, mpid) =>
        if to == locate && r == ref then Some(mpid) else Attribution(locate, ref, ms[..n])
      case OrderReplace(_, original, r, _, _) =>
        Attribution(locate, if r == ref && History(locate, original, ms[..n]).Some? then original else ref, ms[..n])
      case _ => Attribution(locate, ref, ms[..n])
  }

  /** What one message does to the attributions of a queue book. */
  lemma MpidStep(b: L3.State, m: Message, ref: nat)
    requires ref in L3.Applied(b, m).0.orders
    ensures var mpid := L3.Applied(b, m).0.orders[ref].mpid;
            match m
            case AddOrder(to, r, _, _, _) =>
              if to == b.locate && r == ref then mpid == None else ref in b.orders && mpid == b.orders[ref].mpid
            case AddOrderWithMpid(to, r, _, _, _, given) =>
              if to == b.locate && r == ref then mpid == Some(given) else ref in b.orders && mpid == b.orders[ref].mpid
            case OrderReplace(_, original, r, _, _) =>
              if r == ref && original in b.orders then mpid == b.orders[original].mpid
              else ref in b.orders && mpid == b.orders[ref].mpid
            case _ => ref in b.orders && mpid == b.orders[ref].mpid
  {
    hide L3.Removed, L3.Queues;
  }

  /** A queue book has exactly the orders that are open by their own history, with their price, side
      and remaining shares, and each keeps its attribution, across replaces too. */
  lemma {:induction false} QueuesAreHistory(locate: nat, ref: nat, ms: seq<Message>)
    requires Refinement.Good(locate, ms)
    ensures var b := L3.AppliedAll(L3.Empty(locate), ms);
            && Find(L3.Entries(b.orders), ref) == History(locate, ref, ms)
            && (ref in b.orders ==> b.orders[ref].mpid == Attribution(locate, ref, ms))
    decreases |ms|
  {
    hide L3.Applied, L3Laws.Valid, L2.AppliedAll, History;
    Refinement.StaysRelated(locate, ms);
    IndexIsHistory(locate, ref, ms);
    if ms != [] {
      Manager.GoodPrefix(locate, ms);
      AttributionStep(locate, ref, ms);
    }
  }

  lemma {:induction false} AttributionStep(locate: nat, ref: nat, ms: seq<Message>)
    requires ms != [] && Refinement.Good(locate, ms) && Refinement.Good(locate, ms[..|ms| - 1])
    ensures var b := L3.AppliedAll(L3.Empty(locate), ms);
            ref in b.orders ==> b.orders[ref].mpid == Attribution(locate, ref, ms)
    decreases |ms|, 0
  {
    var n := |ms| - 1;
    var b := L3.AppliedAll(L3.Empty(locate), ms[..n]);
    assert L3.AppliedAll(L3.Empty(locate), ms) == L3.Applied(b, ms[n]).0;
    Refinement.StaysRelated(locate, ms[..n]);
    hide L3.Applied, L3.AppliedAll, Refinement.Good, L3Laws.Valid, History;
    if ref in L3.Applied(b, ms[n]).0.orders {
      MpidStep(b, ms[n], ref);
      QueuesAreHistory(locate, ref, ms[..n]);
      if ms[n].OrderReplace? {
        QueuesAreHistory(locate, ms[n].original, ms[..n]);
      }
    }
  }

  // ----- The manager's answer -----

  /** The order a message takes shares from, and how many. */
  function Taken(m: Message): Option<(nat, nat)> {
    match m
    case OrderExecuted(_, ref, shares) => Some((ref, shares))
    case OrderExecutedWithPrice(_, ref, shares, _) => Some((ref, shares))
    case OrderCancel(_, ref, shares) => Some((ref, shares))
    case _ => None
  }

  /** The message takes more shares than its order has left. */
  predicate TooMany(locate: nat, own: seq<Message>, m: Message) {
    && Taken(m).Some? && History(locate, Taken(m).value.0, own).Some?
    && Taken(m).value.1 > History(locate, Taken(m).value.0, own).value.shares
  }

  /** A price-level book refuses a message exactly when it takes too many shares, and says how many
      there were. */
  lemma CoarseAnswer(locate: nat, own: seq<Message>, m: Message)
    ensures L2.Applied(L2.AppliedAll(L2.Empty(locate), own), m).1
            == if TooMany(locate, own, m)
               then OverExecution(Taken(m).value.0, Taken(m).value.1,
                                  History(locate, Taken(m).value.0, own).value.shares)
               else Done
  {
    if Taken(m).Some? {
      IndexIsHistory(locate, Taken(m).value.0, own);
    }
    hide L2.AppliedAll, History;
  }

  /** A queue book answers a message that is out of turn with the order it named and the one that
      was first in line. */
  lemma OutOfTurnAnswer(fine: L3.State, m: Message)
    requires L3Laws.Valid(fine) && Refinement.OutOfTurn(fine, m)
    ensures Taken(m).Some?
    ensures var r := L3.Applied(fine, m).1;
            && r.FifoViolation? && r.expected == Taken(m).value.0
            && r.got in L3Laws.Seniors(fine, r.expected) && L3Laws.Seniors(fine, r.got) == {}
  {
    L3Laws.FifoViolationIff(fine, Taken(m).value.0);
    hide L3Laws.Valid, L3Laws.Seniors, L3.Executed;
  }

  /** What the manager answers, whatever the other symbols did: a refusal with the shares that were
      left when a message takes more than its order has; a violation naming the order and the one
      first in line when a full execution is out of turn; and otherwise success. */
  lemma ManagerAnswers(ms: seq<Message>, m: Message)
    requires Refinement.Good(m.locate, Manager.Addressed(ms, m.locate))
    ensures var own := Manager.Addressed(ms, m.locate);
            var fine := L3.AppliedAll(L3.Empty(m.locate), own);
            var r := Manager.Applied(Manager.AppliedAll(ms), m).1;
            if TooMany(m.locate, own, m) then
              r == OverExecution(Taken(m).value.0, Taken(m).value.1,
                                 History(m.locate, Taken(m).value.0, own).value.shares)
            else if Refinement.OutOfTurn(fine, m) then
              Taken(m).Some? && r.FifoViolation? && r.expected == Taken(m).value.0
              && r.got in L3Laws.Seniors(fine, r.expected) && L3Laws.Seniors(fine, r.got) == {}
            else r == Done
  {
    var own := Manager.Addressed(ms, m.locate);
    var fine := L3.AppliedAll(L3.Empty(m.locate), own);
    hide Refinement.Good, Refinement.OutOfTurn, TooMany, L2.Applied, L3.Applied;
    hide L2.AppliedAll, L3.AppliedAll, L3Laws.Valid, L3Laws.Seniors, Refinement.Related, Manager.Addressed, History;
    Manager.RoutesCoarse(ms, m.locate);
    Manager.RoutesFine(ms, m.locate);
    CoarseAnswer(m.locate, own, m);
    Refinement.SameOutcome(m.locate, own, m);
    Refinement.StaysRelated(m.locate, own);
    if Refinement.OutOfTurn(fine, m) {
      OutOfTurnAnswer(fine, m);
    }
  }
}
