/** A service order row and every operation that changes it. */
module OrderSpec {
  import opened Wrappers

  datatype Status = Draft | Requested | RfqSent | Quoted | Confirmed | InProgress | Completed | Cancelled

  /** The columns the operations decide on; the rest are only overwritten by the plain update. */
  datatype Order = Order(
    status: Status, vendor: Option<string>, quoted: Option<real>, final: Option<real>,
    confirmedDate: Option<int>, completedDate: Option<int>)

  datatype Input = Input(status: Option<Status>, vendor: Option<string>, quoted: Option<real>, final: Option<real>)

  datatype Op =
    | Update(input: Input)
    | Confirm(vendorId: string, price: real, at: int)
    | Complete(finalPrice: Option<real>, at: int)
    | AssignVendor(vendorId: string)
    | StartWork
    | Cancel

  const NO_INPUT := Input(None, None, None, None)
  const NEW_ORDER := Order(Draft, None, None, None, None, None)

  function Allowed(from: Status): seq<Status> {
    match from
    case Draft => [Requested, Cancelled]
    case Requested => [RfqSent, Quoted, Confirmed, Cancelled]
    case RfqSent => [Quoted, Cancelled]
    case Quoted => [Confirmed, Cancelled]
    case Confirmed => [InProgress, Cancelled]
    case InProgress => [Completed, Cancelled]
    case Completed => []
    case Cancelled => []
  }

  predicate Legal(from: Status, to: Status) {
    to in Allowed(from)
  }

  const CONFIRMABLE := [Draft, Requested, Quoted, RfqSent]

  function Or<T>(given: Option<T>, prev: Option<T>): Option<T> {
    if given.Some? then given else prev
  }

  function Overlay(o: Order, i: Input): Order {
    o.(status := if i.status.Some? then i.status.value else o.status,
       vendor := Or(i.vendor, o.vendor), quoted := Or(i.quoted, o.quoted), final := Or(i.final, o.final))
  }

  /** Whether an operation is accepted on an order. */
  predicate Accepts(o: Order, op: Op) {
    match op
    case Update(i) => i.status.None? || Legal(o.status, i.status.value)
    case Confirm(v, p, _) => o.status in CONFIRMABLE && v != "" && p > 0.0
    case Complete(_, _) => o.status.Confirmed? || o.status.InProgress?
    case AssignVendor(_) => !o.status.Confirmed? && !o.status.InProgress? && !o.status.Completed?
    case StartWork => o.status.Confirmed?
    case Cancel => !o.status.Completed? && !o.status.Cancelled?
  }

  /** The row an accepted operation leaves. */
  function Written(o: Order, op: Op): Order {
    match op
    case Update(i) => Overlay(o, i)
    case Confirm(v, p, at) => o.(status := Confirmed, vendor := Some(v), quoted := Some(p), confirmedDate := Some(at))
    case Complete(fp, at) =>
      o.(status := Completed, final := if fp.Some? then fp else o.quoted, completedDate := Some(at))
    case AssignVendor(v) => o.(vendor := Some(v))
    case StartWork => o.(status := InProgress)
    case Cancel => o.(status := Cancelled)
  }

  function Do(o: Order, op: Op): Order {
    if Accepts(o, op) then Written(o, op) else o
  }

  function After(o: Order, ops: seq<Op>): Order {
    if ops == [] then o else Do(After(o, ops[..|ops| - 1]), ops[|ops| - 1])
  }

  /** How many operations of a run changed the status. */
  function Changes(o: Order, ops: seq<Op>): nat {
    if ops == [] then 0
    else
      var init := ops[..|ops| - 1];
      Changes(o, init) + if After(o, ops).status != After(o, init).status then 1 else 0
  }

  function Rank(s: Status): nat {
    match s
    case Draft => 0
    case Requested => 1
    case RfqSent => 2
    case Quoted => 3
    case Confirmed => 4
    case InProgress => 5
    case Completed => 6
    case Cancelled => 6
  }

  // ---- every entry point together ---------------------------------------------------------

  lemma StatusRises(o: Order, op: Op)
    ensures Do(o, op).status != o.status ==> Rank(o.status) < Rank(Do(o, op).status)
  {
    if op.Update? && op.input.status.Some? && Accepts(o, op) {
      assert op.input.status.value in Allowed(o.status);
    }
  }

  /** The status changes of a run raise a rank that is at most six, so no run has more than six of them,
      and a completed or cancelled order never changes status again. */
  lemma {:induction false} AtMostSixChanges(o: Order, ops: seq<Op>)
    ensures Changes(o, ops) + Rank(o.status) <= Rank(After(o, ops).status) <= 6
    ensures o.status.Completed? || o.status.Cancelled? ==> After(o, ops).status == o.status
  {
    if ops != [] {
      AtMostSixChanges(o, ops[..|ops| - 1]);
      StatusRises(After(o, ops[..|ops| - 1]), ops[|ops| - 1]);
    }
  }

  /** The edges an order can take: those of the transition table, and three that only the dedicated
      confirm and complete operations allow. */
  predicate Edge(from: Status, to: Status) {
    || Legal(from, to)
    || (from.Draft? && to.Confirmed?) || (from.RfqSent? && to.Confirmed?) || (from.Confirmed? && to.Completed?)
  }

  lemma EdgesAreExact(o: Order, to: Status)
    requires o.status != to
    ensures Edge(o.status, to) <==> exists op :: Do(o, op).status == to
  {
    if Legal(o.status, to) {
      assert Do(o, Update(NO_INPUT.(status := Some(to)))).status == to;
    } else if to.Confirmed? && Edge(o.status, to) {
      assert Do(o, Confirm("v", 1.0, 0)).status == to;
    } else if to.Completed? && Edge(o.status, to) {
      assert Do(o, Complete(None, 0)).status == to;
    }
  }

  /** What holds of every order in every run. */
  ghost predicate Inv(o: Order) {
    && (o.completedDate.Some? ==> o.status.Completed?)
    && (o.confirmedDate.Some? ==> o.vendor.Some? && o.quoted.Some? && Rank(o.status) >= 4)
    && (o.confirmedDate.Some? && o.completedDate.Some? ==> o.final.Some?)
  }

  lemma StepKeepsInv(o: Order, op: Op)
    requires Inv(o)
    ensures Inv(Do(o, op))
  {
    StatusRises(o, op);
  }

  /** A completed date means the order is completed; a confirmed date means the vendor and the quoted price are
      present; and with both dates, that is confirmed and completed by the dedicated operations, a final price is. */
  lemma {:induction false} EveryOrder(ops: seq<Op>)
    ensures Inv(After(NEW_ORDER, ops))
  {
    if ops != [] {
      EveryOrder(ops[..|ops| - 1]);
      StepKeepsInv(After(NEW_ORDER, ops[..|ops| - 1]), ops[|ops| - 1]);
    }
  }

  /** The n-th operation of a run is an accepted confirm, or an accepted complete. */
  ghost predicate ConfirmsAt(ops: seq<Op>, n: int) {
    0 <= n < |ops| && ops[n].Confirm? && Accepts(After(NEW_ORDER, ops[..n]), ops[n])
  }

  ghost predicate CompletesAt(ops: seq<Op>, n: int) {
    0 <= n < |ops| && ops[n].Complete? && Accepts(After(NEW_ORDER, ops[..n]), ops[n])
  }

  /** The dates record exactly the accepted confirm and complete calls of a run. */
  lemma {:induction false} ConfirmedDateRecords(ops: seq<Op>)
    ensures After(NEW_ORDER, ops).confirmedDate.Some? <==> exists n :: ConfirmsAt(ops, n)
  {
    if ops != [] {
      var init, last := ops[..|ops| - 1], |ops| - 1;
      ConfirmedDateRecords(init);
      if ConfirmsAt(ops, last) {
      } else if n :| ConfirmsAt(init, n) {
        assert init[..n] == ops[..n];
        assert ConfirmsAt(ops, n);
      } else {
        forall n ensures !ConfirmsAt(ops, n) {
          assert 0 <= n < last ==> init[..n] == ops[..n] && !ConfirmsAt(init, n);
        }
      }
    }
  }

  lemma {:induction false} CompletedDateRecords(ops: seq<Op>)
    ensures After(NEW_ORDER, ops).completedDate.Some? <==> exists n :: CompletesAt(ops, n)
  {
    if ops != [] {
      var init, last := ops[..|ops| - 1], |ops| - 1;
      CompletedDateRecords(init);
      if CompletesAt(ops, last) {
      } else if n :| CompletesAt(init, n) {
        assert init[..n] == ops[..n];
        assert CompletesAt(ops, n);
      } else {
        forall n ensures !CompletesAt(ops, n) {
          assert 0 <= n < last ==> init[..n] == ops[..n] && !CompletesAt(init, n);
        }
      }
    }
  }

  /** Each date is written at most once: once set it keeps its value. */
  lemma {:induction false} DatesAreWrittenOnce(ops: seq<Op>, n: nat)
    requires n <= |ops|
    ensures var early, late := After(NEW_ORDER, ops[..n]), After(NEW_ORDER, ops);
      && (early.confirmedDate.Some? ==> late.confirmedDate == early.confirmedDate)
      && (early.completedDate.Some? ==> late.completedDate == early.completedDate)
    decreases |ops|
  {
    if n < |ops| {
      var init := ops[..|ops| - 1];
      DatesAreWrittenOnce(init, n);
      EveryOrder(init);
      assert init[..n] == ops[..n];
    } else {
      assert ops[..n] == ops;
    }
  }

  /** A run that confirms and completes through the dedicated operations ends completed and with a final
      price, whatever else it does before, between and after. */
  lemma ConfirmedThenCompletedIsPriced(ops: seq<Op>, i: int, j: int)
    requires ConfirmsAt(ops, i) && CompletesAt(ops, j)
    ensures After(NEW_ORDER, ops).final.Some? && After(NEW_ORDER, ops).status.Completed?
  {
    ConfirmedDateRecords(ops);
    CompletedDateRecords(ops);
    EveryOrder(ops);
  }

  predicate Prices(o: Order, op: Op) {
    && Accepts(o, op)
    && ((op.Update? && op.input.final.Some?) || (op.Complete? && (op.finalPrice.Some? || o.quoted.Some?)))
  }

  /** A completion with no price given and none quoted: it writes the absent quoted price over the final one. */
  predicate Erases(o: Order, op: Op) {
    Accepts(o, op) && op.Complete? && op.finalPrice.None? && o.quoted.None?
  }

  ghost predicate PricesAt(ops: seq<Op>, n: int) {
    0 <= n < |ops| && Prices(After(NEW_ORDER, ops[..n]), ops[n])
  }

  ghost predicate ErasesAt(ops: seq<Op>, n: int) {
    0 <= n < |ops| && Erases(After(NEW_ORDER, ops[..n]), ops[n])
  }

  /** Priced by the n-th operation, and not erased since. */
  ghost predicate PricedSince(ops: seq<Op>, n: int) {
    PricesAt(ops, n) && forall m :: m > n ==> !ErasesAt(ops, m)
  }

  lemma EarlierSame(ops: seq<Op>, n: int)
    requires ops != [] && n < |ops| - 1
    ensures PricesAt(ops, n) == PricesAt(ops[..|ops| - 1], n) && ErasesAt(ops, n) == ErasesAt(ops[..|ops| - 1], n)
  {
    if 0 <= n {
      assert ops[..|ops| - 1][..n] == ops[..n];
    }
  }

  /** One more operation leaves an earlier price alone unless it erases it. */
  lemma PricedSinceSnoc(ops: seq<Op>, n: int)
    requires ops != [] && n < |ops| - 1
    ensures PricedSince(ops, n) <==> PricedSince(ops[..|ops| - 1], n) && !ErasesAt(ops, |ops| - 1)
  {
    var init, last := ops[..|ops| - 1], |ops| - 1;
    forall m | m < last ensures PricesAt(ops, m) == PricesAt(init, m) && ErasesAt(ops, m) == ErasesAt(init, m) {
      EarlierSame(ops, m);
    }
    assert forall m :: ErasesAt(ops, m) ==> m <= last;
    assert forall m :: ErasesAt(init, m) ==> m < last;
  }

  lemma LastPrices(ops: seq<Op>)
    requires ops != []
    ensures PricedSince(ops, |ops| - 1) <==> PricesAt(ops, |ops| - 1)
  {
    assert forall m :: ErasesAt(ops, m) ==> m < |ops|;
  }

  /** An order has a final price exactly when some accepted update or completion of the run supplied one and no
      completion without a price has come since. */
  lemma {:induction false} FinalPriceIff(ops: seq<Op>)
    ensures After(NEW_ORDER, ops).final.Some? <==> exists n :: PricedSince(ops, n)
  {
    if ops != [] {
      var init, last := ops[..|ops| - 1], |ops| - 1;
      FinalPriceIff(init);
      LastPrices(ops);
      if !PricesAt(ops, last) {
        forall n ensures PricedSince(ops, n) <==> PricedSince(init, n) && !ErasesAt(ops, last) {
          if n < last {
            PricedSinceSnoc(ops, n);
          }
        }
      }
    }
  }

  lemma AfterSnoc(o: Order, ops: seq<Op>, op: Op)
    ensures After(o, ops + [op]) == Do(After(o, ops), op)
  {
    assert (ops + [op])[..|ops|] == ops;
  }

  /** The plain update reaches completed with no vendor, no price and no dates at all. */
  lemma CompletedWithoutPrice()
    ensures var a, b := Update(NO_INPUT.(status := Some(Requested))), Update(NO_INPUT.(status := Some(Confirmed)));
      var d := Update(NO_INPUT.(status := Some(Completed)));
      After(NEW_ORDER, [a, b, StartWork, d]) == NEW_ORDER.(status := Completed)
  {
    var a, b := Update(NO_INPUT.(status := Some(Requested))), Update(NO_INPUT.(status := Some(Confirmed)));
    var d := Update(NO_INPUT.(status := Some(Completed)));
    AfterSnoc(NEW_ORDER, [], a);
    AfterSnoc(NEW_ORDER, [a], b);
    AfterSnoc(NEW_ORDER, [a, b], StartWork);
    AfterSnoc(NEW_ORDER, [a, b, StartWork], d);
    assert [] + [a] == [a] && [a] + [b] == [a, b] && [a, b] + [StartWork] == [a, b, StartWork];
    assert [a, b, StartWork] + [d] == [a, b, StartWork, d];
  }

  /** Completing without a price takes away one that was set, when none was quoted. */
  lemma CompletionErasesPrice()
    ensures var a := Update(NO_INPUT.(status := Some(Requested)));
      var b := Update(NO_INPUT.(status := Some(Confirmed), final := Some(5.0)));
      && After(NEW_ORDER, [a, b]).final == Some(5.0)
      && After(NEW_ORDER, [a, b, Complete(None, 0)]).status.Completed?
      && After(NEW_ORDER, [a, b, Complete(None, 0)]).final == None
  {
    var a := Update(NO_INPUT.(status := Some(Requested)));
    var b := Update(NO_INPUT.(status := Some(Confirmed), final := Some(5.0)));
    AfterSnoc(NEW_ORDER, [], a);
    AfterSnoc(NEW_ORDER, [a], b);
    AfterSnoc(NEW_ORDER, [a, b], Complete(None, 0));
    assert [] + [a] == [a] && [a] + [b] == [a, b] && [a, b] + [Complete(None, 0)] == [a, b, Complete(None, 0)];
  }

  // ---- statistics -------------------------------------------------------------------------

  function CountStatus(orders: seq<Order>, s: Status): nat {
    if orders == [] then 0
    else CountStatus(orders[..|orders| - 1], s) + if orders[|orders| - 1].status == s then 1 else 0
  }

  function SumOf(prices: seq<Option<real>>): real {
    if prices == [] then 0.0
    else SumOf(prices[..|prices| - 1]) + if prices[|prices| - 1].Some? then prices[|prices| - 1].value else 0.0
  }

  function QuotedOf(orders: seq<Order>): (ps: seq<Option<real>>) {
    seq(|orders|, i requires 0 <= i < |orders| => orders[i].quoted)
  }

  function FinalOf(orders: seq<Order>): (ps: seq<Option<real>>) {
    seq(|orders|, i requires 0 <= i < |orders| => orders[i].final)
  }

  lemma {:induction false} StatusCountsAddUp(orders: seq<Order>)
    ensures CountStatus(orders, Draft) + CountStatus(orders, Requested) + CountStatus(orders, RfqSent)
          + CountStatus(orders, Quoted) + CountStatus(orders, Confirmed) + CountStatus(orders, InProgress)
          + CountStatus(orders, Completed) + CountStatus(orders, Cancelled) == |orders|
  {
    if orders != [] {
      StatusCountsAddUp(orders[..|orders| - 1]);
    }
  }
}
