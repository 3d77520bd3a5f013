/** The multi-symbol manager, which routes every message to the books of its stock locate. */
module BookManager {
  import opened Wire
  import opened Book
  import L2 = L2Book
  import L2Laws = L2BookLaws
  import L3 = L3Book
  import L3Laws = L3BookLaws
  import Refinement = BookRefinement

  datatype State = State(directory: map<nat, nat>, l2: map<nat, L2.State>, l3: map<nat, L3.State>, lastSeq: nat)

  const EMPTY := State(map[], map[], map[], 0)

  /** The book of a symbol; one that was never touched is empty. */
  function Coarse(s: State, locate: nat): L2.State {
    if locate in s.l2 then s.l2[locate] else L2.Empty(locate)
  }

  function Fine(s: State, locate: nat): L3.State {
    if locate in s.l3 then s.l3[locate] else L3.Empty(locate)
  }

  function Applied(s: State, m: Message): (State, Outcome) {
    var k := m.locate;
    var (coarse, refused) := L2.Applied(Coarse(s, k), m);
    var t := s.(lastSeq := AddU64(s.lastSeq, 1),
                directory := if m.StockDirectory? then s.directory[k := m.stock] else s.directory,
                l2 := s.l2[k := coarse]);
    if refused != Done then (t, refused)
    else
      var (fine, outcome) := L3.Applied(Fine(s, k), m);
      (t.(l3 := s.l3[k := fine]), outcome)
  }

  function AppliedAll(ms: seq<Message>): State {
    if ms == [] then EMPTY else Applied(AppliedAll(ms[..|ms| - 1]), ms[|ms| - 1]).0
  }

  class BookManager {
    var directory: map<nat, nat>
    var l2: map<nat, L2.State>
    var l3: map<nat, L3.State>
    var lastSeq: nat

    function Model(): State
      reads this
    {
      State(directory, l2, l3, lastSeq)
    }

    constructor ()
      ensures Model() == EMPTY
    {
      directory, l2, l3, lastSeq := map[], map[], map[], 0;
    }

    method Apply(m: Message) returns (r: Outcome)
      modifies this
      ensures (Model(), r) == Applied(old(Model()), m)
    {
      lastSeq := AddU64(lastSeq, 1);
      if m.StockDirectory? {
        directory := directory[m.locate := m.stock];
      }
      var locate := m.locate;
      var book := if locate in l2 then l2[locate] else L2.Empty(locate);
      var (coarse, refused) := L2.Applied(book, m);
      l2 := l2[locate := coarse];
      if refused != Done {
        return refused;
      }
      var queues := if locate in l3 then l3[locate] else L3.Empty(locate);
      var (fine, outcome) := L3.Applied(queues, m);
      l3 := l3[locate := fine];
      return outcome;
    }
  }

  // ----- Routing -----

  /** The messages addressed to one symbol. */
  function Addressed(ms: seq<Message>, locate: nat): seq<Message> {
    if ms == [] then []
    else
      var rest := Addressed(ms[..|ms| - 1], locate);
      if ms[|ms| - 1].locate == locate then rest + [ms[|ms| - 1]] else rest
  }

  /** Message `i` is the last Stock Directory message of its symbol. */
  predicate LastEntry(ms: seq<Message>, i: nat)
    requires i < |ms|
  {
    ms[i].StockDirectory? && forall j :: i < j < |ms| && ms[j].StockDirectory? ==> ms[j].locate != ms[i].locate
  }

  /** Every message counts, the refused ones included, and the directory has the last entry of each symbol. */
  lemma {:induction false} CountsEveryMessage(ms: seq<Message>)
    requires |ms| <= U64_MAX
    ensures AppliedAll(ms).lastSeq == |ms|
    ensures forall i :: 0 <= i < |ms| && LastEntry(ms, i) ==>
              ms[i].locate in AppliedAll(ms).directory && AppliedAll(ms).directory[ms[i].locate] == ms[i].stock
  {
    hide L2.Applied, L3.Applied;
    if ms != [] {
      var n := |ms| - 1;
      CountsEveryMessage(ms[..n]);
      assert forall j :: 0 <= j < n && LastEntry(ms, j) ==> LastEntry(ms[..n], j) && ms[..n][j] == ms[j];
    }
  }

  /** A symbol is in the directory if and only if a Stock Directory message named it. */
  lemma {:induction false} ListedIff(ms: seq<Message>, locate: nat)
    ensures locate in AppliedAll(ms).directory
            <==> exists i :: 0 <= i < |ms| && ms[i].StockDirectory? && ms[i].locate == locate
  {
    hide L2.Applied, L3.Applied;
    if ms != [] {
      var n := |ms| - 1;
      ListedIff(ms[..n], locate);
      assert forall i :: 0 <= i < n ==> ms[..n][i] == ms[i];
    }
  }

  /** A price-level book under the manager sees exactly the messages addressed to its symbol. */
  lemma {:induction false} RoutesCoarse(ms: seq<Message>, locate: nat)
    ensures Coarse(AppliedAll(ms), locate) == L2.AppliedAll(L2.Empty(locate), Addressed(ms, locate))
  {
    hide L2.Applied, L3.Applied;
    if ms != [] {
      RoutesCoarse(ms[..|ms| - 1], locate);
      var rest := Addressed(ms[..|ms| - 1], locate);
      assert (rest + [ms[|ms| - 1]])[..|rest|] == rest;
    }
  }

  lemma GoodPrefix(locate: nat, ms: seq<Message>)
    requires ms != [] && Refinement.Good(locate, ms)
    ensures Refinement.Good(locate, ms[..|ms| - 1])
  {
  }

  /** A queue book sees them too: what the price-level book refuses, it would refuse unchanged. */
  lemma {:induction false} RoutesFine(ms: seq<Message>, locate: nat)
    requires Refinement.Good(locate, Addressed(ms, locate))
    ensures Fine(AppliedAll(ms), locate) == L3.AppliedAll(L3.Empty(locate), Addressed(ms, locate))
  {
    if ms != [] {
      var n := |ms| - 1;
      var rest := Addressed(ms[..n], locate);
      assert (rest + [ms[n]])[..|rest|] == rest;
      if ms[n].locate == locate {
        GoodPrefix(locate, Addressed(ms, locate));
        Refinement.SameOutcome(locate, rest, ms[n]);
        RefusedUnchanged(L3.AppliedAll(L3.Empty(locate), rest), ms[n]);
      }
      RoutesCoarse(ms[..n], locate);
      RoutesFine(ms[..n], locate);
      hide L2.Applied, L3.Applied, Refinement.Good;
    }
  }

  lemma RefusedUnchanged(b: L3.State, m: Message)
    ensures L3.Applied(b, m).1.OverExecution? ==> L3.Applied(b, m).0 == b
  {
  }

  /** The two books the manager keeps for a symbol never disagree. */
  lemma BooksAgree(ms: seq<Message>, locate: nat)
    requires Refinement.Good(locate, Addressed(ms, locate))
    ensures var fine := Fine(AppliedAll(ms), locate);
            L2Laws.BookOf(locate, L3.Pinned(fine, fine.orders.Keys)) == Coarse(AppliedAll(ms), locate)
  {
    RoutesCoarse(ms, locate);
    RoutesFine(ms, locate);
    Refinement.SummaryRefines(locate, Addressed(ms, locate));
  }

  // ----- Against a book of its own -----

  /** The message finds nothing to change: no live order, no shares, a refusal, or a replace by itself. */
  predicate Inert(b: L2.State, m: Message) {
    match m
    case OrderExecuted(_, ref, shares) => ref in b.orders ==> shares == 0 || shares > b.orders[ref].shares
    case OrderExecutedWithPrice(_, ref, shares, _) => ref in b.orders ==> shares == 0 || shares > b.orders[ref].shares
    case OrderCancel(_, ref, shares) => ref in b.orders ==> shares == 0 || shares > b.orders[ref].shares
    case OrderDelete(_, ref) => ref !in b.orders
    case OrderReplace(_, original, ref, shares, price) =>
      original in b.orders ==> ref == original && shares == b.orders[ref].shares && price == b.orders[ref].price
    case _ => true
  }

  predicate Sound(b: L2.State) {
    L2Laws.Live(b) && L2Laws.Small(b) && forall r :: r in b.orders ==> b.orders[r].locate == b.locate
  }

  lemma ExecuteInert(b: L2.State, ref: nat, shares: nat)
    requires L2Laws.Live(b)
    ensures L2.Executed(b, ref, shares).0 == b <==> (ref in b.orders ==> shares == 0 || shares > b.orders[ref].shares)
  {
    if ref in b.orders && 0 < shares <= b.orders[ref].shares {
      var c := L2.Executed(b, ref, shares).0;
      assert ref !in c.orders || c.orders[ref].shares != b.orders[ref].shares;
    }
  }

  /** Replacing an order by itself restores its level. */
  lemma ReplaceBySelf(b: L2.State, ref: nat)
    requires L2Laws.Exact(b) && Sound(b) && ref in b.orders
    ensures L2.Replaced(b, ref, ref, b.orders[ref].shares, b.orders[ref].price) == b
  {
    var e := b.orders[ref];
    var c := L2.Replaced(b, ref, ref, e.shares, e.price);
    assert e.shares > 0 && c.orders == b.orders && c.locate == b.locate;
    assert L2.Applied(b, OrderReplace(0, ref, ref, e.shares, e.price)).0 == c;
    hide L2Laws.Exact, L2Laws.Live, L2Laws.Small, L2.Replaced, L2.Applied, L2Laws.BookOf;
    L2Laws.ReplaceFits(b, ref, ref, e.shares, e.price);
    L2Laws.AppliedLive(b, OrderReplace(0, ref, ref, e.shares, e.price));
    L2Laws.BookIsCanonical(b);
    L2Laws.BookIsCanonical(c);
  }

  lemma ReplaceInert(b: L2.State, original: nat, ref: nat, shares: nat, price: nat)
    requires L2Laws.Exact(b) && Sound(b) && 0 < shares <= U32_MAX
    requires original in b.orders ==> ref == original || ref !in b.orders
    ensures L2.Replaced(b, original, ref, shares, price) == b <==>
            (original in b.orders ==> ref == original && shares == b.orders[ref].shares && price == b.orders[ref].price)
  {
    if original in b.orders {
      var c := L2.Replaced(b, original, ref, shares, price);
      var e := b.orders[original];
      if ref == original && shares == e.shares && price == e.price {
        ReplaceBySelf(b, original);
      } else if ref == original {
        assert c.orders[original] != e;
      } else {
        assert original !in c.orders;
      }
    }
  }

  /** A message for another symbol leaves a lone book alone exactly when it is inert there. */
  lemma InertIff(b: L2.State, m: Message)
    requires L2Laws.Exact(b) && Sound(b) && m.locate != b.locate
    requires Typed(m) && PositiveSize(m) && Fresh(b.locate, b.orders.Keys, m)
    ensures L2.Applied(b, m).0 == b <==> Inert(b, m)
  {
    match m
    case OrderExecuted(_, ref, shares) => ExecuteInert(b, ref, shares);
    case OrderExecutedWithPrice(_, ref, shares, _) => ExecuteInert(b, ref, shares);
    case OrderCancel(_, ref, shares) => ExecuteInert(b, ref, shares);
    case OrderDelete(_, ref) => assert ref in b.orders ==> ref !in L2.Deleted(b, ref).orders;
    case OrderReplace(_, original, ref, shares, price) => ReplaceInert(b, original, ref, shares, price);
    case _ =>
  }

  lemma {:induction false} StaysPinned(locate: nat, ms: seq<Message>)
    ensures var b := L2.AppliedAll(L2.Empty(locate), ms);
            b.locate == locate && forall r :: r in b.orders ==> b.orders[r].locate == locate
  {
    if ms != [] {
      StaysPinned(locate, ms[..|ms| - 1]);
      var b := L2.AppliedAll(L2.Empty(locate), ms[..|ms| - 1]);
      hide L2.AppliedAll;
      PinnedStep(b, ms[|ms| - 1]);
    }
  }

  lemma PinnedStep(b: L2.State, m: Message)
    requires forall r :: r in b.orders ==> b.orders[r].locate == b.locate
    ensures var c := L2.Applied(b, m).0;
            c.locate == b.locate && forall r :: r in c.orders ==> c.orders[r].locate == b.locate
  {
  }

  predicate SameBook(locate: nat, ms: seq<Message>) {
    Coarse(AppliedAll(ms), locate) == L2.AppliedAll(L2.Empty(locate), ms)
  }

  predicate AlwaysSameBook(locate: nat, ms: seq<Message>) {
    SameBook(locate, ms) && (ms != [] ==> AlwaysSameBook(locate, ms[..|ms| - 1]))
  }

  /** Whatever changes an order of the symbol is addressed to the symbol. */
  predicate WellAddressed(locate: nat, ms: seq<Message>) {
    ms == [] ||
    (var n := |ms| - 1;
     && WellAddressed(locate, ms[..n])
     && (ms[n].locate == locate || Inert(L2.AppliedAll(L2.Empty(locate), ms[..n]), ms[n])))
  }

  lemma SameBookStep(locate: nat, ms: seq<Message>)
    requires ms != [] && L2Laws.GoodStream(L2.Empty(locate), ms) && L2Laws.AllPositive(ms)
    requires SameBook(locate, ms[..|ms| - 1])
    ensures var n := |ms| - 1;
            SameBook(locate, ms) <==>
            ms[n].locate == locate || Inert(L2.AppliedAll(L2.Empty(locate), ms[..n]), ms[n])
  {
    var n := |ms| - 1;
    var b := L2.AppliedAll(L2.Empty(locate), ms[..n]);
    if ms[n].locate != locate {
      StaysPinned(locate, ms[..n]);
      L2Laws.LevelsAreExact(locate, ms[..n]);
      L2Laws.StaysLive(locate, ms[..n]);
      InertIff(b, ms[n]);
    }
    hide L2.Applied, L3.Applied, Inert;
  }

  /**
   * The manager keeps a symbol's book as a book pinned to that symbol and fed the whole
   * stream would, at every moment, exactly when the stream is well addressed.
   */
  lemma {:induction false} LoneBook(locate: nat, ms: seq<Message>)
    requires L2Laws.GoodStream(L2.Empty(locate), ms) && L2Laws.AllPositive(ms)
    ensures AlwaysSameBook(locate, ms) <==> WellAddressed(locate, ms)
  {
    if ms != [] {
      LoneBook(locate, ms[..|ms| - 1]);
      if SameBook(locate, ms[..|ms| - 1]) {
        SameBookStep(locate, ms);
      }
      hide SameBook, Inert;
    }
  }

  // ----- The same for the queue book -----

  /** As `Inert`, except that a replace of an order by itself still costs it its place in line. */
  predicate InertFine(b: L3.State, m: Message) {
    match m
    case OrderExecuted(_, ref, shares) => ref in b.orders ==> shares == 0 || shares > b.orders[ref].shares
    case OrderExecutedWithPrice(_, ref, shares, _) => ref in b.orders ==> shares == 0 || shares > b.orders[ref].shares
    case OrderCancel(_, ref, shares) => ref in b.orders ==> shares == 0 || shares > b.orders[ref].shares
    case OrderDelete(_, ref) => ref !in b.orders
    case OrderReplace(_, original, _, _, _) => original !in b.orders
    case _ => true
  }

  predicate AllOpen(b: L3.State) {
    forall r :: r in b.orders ==> b.orders[r].shares > 0
  }

  lemma ReduceInertFine(b: L3.State, ref: nat, shares: nat)
    requires AllOpen(b)
    ensures L3.Executed(b, ref, shares).0 == b <==> (ref in b.orders ==> shares == 0 || shares > b.orders[ref].shares)
    ensures L3.Cancelled(b, ref, shares).0 == b <==> (ref in b.orders ==> shares == 0 || shares > b.orders[ref].shares)
  {
    if ref in b.orders && shares == 0 {
      assert b.orders[ref := b.orders[ref]] == b.orders;
    } else if ref in b.orders && shares <= b.orders[ref].shares {
      var c, d := L3.Executed(b, ref, shares).0, L3.Cancelled(b, ref, shares).0;
      assert ref !in c.orders || c.orders[ref].shares != b.orders[ref].shares;
      assert ref !in d.orders || d.orders[ref].shares != b.orders[ref].shares;
    }
  }

  /** A message for another symbol leaves a lone queue book alone exactly when it is inert there. */
  lemma InertFineIff(b: L3.State, m: Message)
    requires AllOpen(b) && m.locate != b.locate
    ensures L3.Applied(b, m).0 == b <==> InertFine(b, m)
  {
    match m
    case OrderExecuted(_, ref, shares) => ReduceInertFine(b, ref, shares);
    case OrderExecutedWithPrice(_, ref, shares, _) => ReduceInertFine(b, ref, shares);
    case OrderCancel(_, ref, shares) => ReduceInertFine(b, ref, shares);
    case OrderDelete(_, ref) => assert ref in b.orders ==> ref !in L3.Deleted(b, ref).orders;
    case OrderReplace(_, original, ref, shares, price) =>
      assert original in b.orders ==> L3.Replaced(b, original, ref, shares, price).arrival == b.arrival + 1;
    case _ =>
  }

  predicate SameQueues(locate: nat, ms: seq<Message>) {
    Fine(AppliedAll(ms), locate) == L3.AppliedAll(L3.Empty(locate), ms)
  }

  predicate AlwaysSameQueues(locate: nat, ms: seq<Message>) {
    SameQueues(locate, ms) && (ms != [] ==> AlwaysSameQueues(locate, ms[..|ms| - 1]))
  }

  predicate WellAddressedFine(locate: nat, ms: seq<Message>) {
    ms == [] ||
    (var n := |ms| - 1;
     && WellAddressedFine(locate, ms[..n])
     && (ms[n].locate == locate || InertFine(L3.AppliedAll(L3.Empty(locate), ms[..n]), ms[n])))
  }

  lemma OpenLone(locate: nat, ms: seq<Message>)
    requires Refinement.Good(locate, ms)
    ensures AllOpen(L3.AppliedAll(L3.Empty(locate), ms)) && L3.AppliedAll(L3.Empty(locate), ms).locate == locate
  {
    Refinement.StaysRelated(locate, ms);
    L2Laws.StaysLive(locate, ms);
    var fine, coarse := L3.AppliedAll(L3.Empty(locate), ms), L2.AppliedAll(L2.Empty(locate), ms);
    hide L3Laws.Valid, Refinement.Good;
    forall r | r in fine.orders
      ensures fine.orders[r].shares > 0
    {
      assert r in coarse.orders && coarse.orders[r].shares == fine.orders[r].shares;
    }
  }

  lemma InertFineIsInert(locate: nat, ms: seq<Message>, m: Message)
    requires Refinement.Good(locate, ms) && InertFine(L3.AppliedAll(L3.Empty(locate), ms), m)
    ensures Inert(L2.AppliedAll(L2.Empty(locate), ms), m)
  {
    Refinement.StaysRelated(locate, ms);
    hide L3Laws.Valid, Refinement.Good;
  }

  lemma {:induction false} FineIsCoarse(locate: nat, ms: seq<Message>)
    requires Refinement.Good(locate, ms) && WellAddressedFine(locate, ms)
    ensures WellAddressed(locate, ms)
  {
    if ms != [] {
      var n := |ms| - 1;
      GoodPrefix(locate, ms);
      hide Refinement.Good, InertFine, Inert;
      FineIsCoarse(locate, ms[..n]);
      if ms[n].locate != locate {
        InertFineIsInert(locate, ms[..n], ms[n]);
      }
    }
  }

  lemma SameQueuesStep(locate: nat, ms: seq<Message>)
    requires ms != [] && Refinement.Good(locate, ms)
    requires SameQueues(locate, ms[..|ms| - 1]) && SameBook(locate, ms[..|ms| - 1])
    ensures var n := |ms| - 1;
            SameQueues(locate, ms) <==>
            ms[n].locate == locate || InertFine(L3.AppliedAll(L3.Empty(locate), ms[..n]), ms[n])
  {
    var n := |ms| - 1;
    var b := L3.AppliedAll(L3.Empty(locate), ms[..n]);
    GoodPrefix(locate, ms);
    OpenLone(locate, ms[..n]);
    if ms[n].locate == locate {
      Refinement.SameOutcome(locate, ms[..n], ms[n]);
      RefusedUnchanged(b, ms[n]);
      hide L2.Applied, L3.Applied, InertFine, AllOpen;
    } else {
      InertFineIff(b, ms[n]);
      hide L2.Applied, L3.Applied, InertFine, AllOpen;
    }
  }

  /**
   * The manager keeps a symbol's queues as a queue book pinned to that symbol and fed the whole
   * stream would, at every moment, exactly when the stream is well addressed.
   */
  lemma {:induction false} LoneQueueBook(locate: nat, ms: seq<Message>)
    requires Refinement.Good(locate, ms)
    ensures AlwaysSameQueues(locate, ms) <==> WellAddressedFine(locate, ms)
  {
    if ms != [] {
      var n := |ms| - 1;
      GoodPrefix(locate, ms);
      LoneQueueBook(locate, ms[..n]);
      if AlwaysSameQueues(locate, ms[..n]) {
        FineIsCoarse(locate, ms[..n]);
        LoneBook(locate, ms[..n]);
        hide Refinement.Good, SameBook, SameQueues, InertFine, WellAddressed;
        SameQueuesStep(locate, ms);
      }
      hide SameQueues, InertFine, Refinement.Good;
    }
  }

  /** An execution addressed elsewhere reaches a lone book and misses the manager's. */
  lemma MisaddressedExecution()
    ensures var ms := [AddOrder(1, 7, Buy, 100, 50), OrderExecuted(2, 7, 100)];
            && Coarse(AppliedAll(ms), 1).bids == map[50 := 100]
            && L2.AppliedAll(L2.Empty(1), ms).bids == map[]
  {
    var m0, m1 := AddOrder(1, 7, Buy, 100, 50), OrderExecuted(2, 7, 100);
    assert [m0, m1][..1] == [m0] && [m0][..0] == [];
    assert L2.AppliedAll(L2.Empty(1), [m0]) == L2.Added(L2.Empty(1), 7, Buy, 100, 50);
    assert Coarse(AppliedAll([m0]), 1) == L2.Added(L2.Empty(1), 7, Buy, 100, 50);
  }
}
