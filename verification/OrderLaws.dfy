/** What each service order operation accepts and writes, in the row's own columns, and which value a run leaves in
    them. */
module OrderLaws {
  import opened Wrappers
  import opened OrderSpec

  /** The edges of the transition table. */
  lemma TableLaw(a: Status, b: Status)
    ensures Legal(a, b) <==> (a, b) in {
      (Draft, Requested), (Requested, RfqSent), (Requested, Quoted), (Requested, Confirmed), (RfqSent, Quoted),
      (Quoted, Confirmed), (Confirmed, InProgress), (InProgress, Completed), (Draft, Cancelled),
      (Requested, Cancelled), (RfqSent, Cancelled), (Quoted, Cancelled), (Confirmed, Cancelled),
      (InProgress, Cancelled)}
  {
  }

  predicate Replaced<T(==)>(now: Option<T>, was: Option<T>, given: Option<T>) {
    (given.Some? ==> now == given) && (given.None? ==> now == was)
  }

  /** A plain update writes exactly the columns given, and never a date. */
  lemma UpdateLaw(o: Order, i: Input)
    ensures var t := Do(o, Update(i));
      && (Accepts(o, Update(i)) <==> i.status == None || Legal(o.status, i.status.value))
      && (!Accepts(o, Update(i)) ==> t == o)
      && (Accepts(o, Update(i)) ==>
            && t.status == (if i.status.Some? then i.status.value else o.status)
            && Replaced(t.vendor, o.vendor, i.vendor) && Replaced(t.quoted, o.quoted, i.quoted)
            && Replaced(t.final, o.final, i.final)
            && t.confirmedDate == o.confirmedDate && t.completedDate == o.completedDate)
  {
  }

  /** A confirmation stores its vendor, its price as the quoted one, and its time; not a final price. */
  lemma ConfirmLaw(o: Order, vendor: string, price: real, at: int)
    ensures var op := Confirm(vendor, price, at); var t := Do(o, op);
      && (Accepts(o, op) <==> o.status in {Draft, Requested, RfqSent, Quoted} && vendor != "" && price > 0.0)
      && t == if Accepts(o, op)
              then Order(Confirmed, Some(vendor), Some(price), o.final, Some(at), o.completedDate) else o
  {
  }

  /** A completion stores its time and its price, or when it has none whatever is quoted. */
  lemma CompleteLaw(o: Order, price: Option<real>, at: int)
    ensures var op := Complete(price, at); var t := Do(o, op);
      && (Accepts(o, op) <==> o.status in {Confirmed, InProgress})
      && (!Accepts(o, op) ==> t == o)
      && (Accepts(o, op) && price.Some? ==>
            t == Order(Completed, o.vendor, o.quoted, price, o.confirmedDate, Some(at)))
      && (Accepts(o, op) && price.None? ==>
            t == Order(Completed, o.vendor, o.quoted, o.quoted, o.confirmedDate, Some(at)))
  {
  }

  lemma AssignLaw(o: Order, vendor: string)
    ensures var op := AssignVendor(vendor); var t := Do(o, op);
      && (Accepts(o, op) <==> o.status in {Draft, Requested, RfqSent, Quoted, Cancelled})
      && t == if Accepts(o, op)
              then Order(o.status, Some(vendor), o.quoted, o.final, o.confirmedDate, o.completedDate) else o
  {
  }

  lemma StartLaw(o: Order)
    ensures var t := Do(o, StartWork);
      && (Accepts(o, StartWork) <==> o.status == Confirmed)
      && t == if o.status == Confirmed
              then Order(InProgress, o.vendor, o.quoted, o.final, o.confirmedDate, o.completedDate) else o
  {
  }

  lemma CancelLaw(o: Order)
    ensures var t := Do(o, Cancel);
      && (Accepts(o, Cancel) <==> o.status in {Draft, Requested, RfqSent, Quoted, Confirmed, InProgress})
      && t == if Accepts(o, Cancel)
              then Order(Cancelled, o.vendor, o.quoted, o.final, o.confirmedDate, o.completedDate) else o
  {
  }

  // ---- runs -------------------------------------------------------------------------------

  datatype Column = StatusOf | VendorOf | QuotedPrice | FinalPrice | ConfirmedAt | CompletedAt

  datatype Cell = Stage(status: Status) | Text(text: string) | Price(price: real) | Time(time: int)

  function TextCell(v: Option<string>): Option<Cell> {
    if v.Some? then Some(Text(v.value)) else None
  }

  function PriceCell(v: Option<real>): Option<Cell> {
    if v.Some? then Some(Price(v.value)) else None
  }

  function TimeCell(v: Option<int>): Option<Cell> {
    if v.Some? then Some(Time(v.value)) else None
  }

  /** What an order has in a column. */
  function Held(o: Order, c: Column): Option<Cell> {
    match c
    case StatusOf => Some(Stage(o.status))
    case VendorOf => TextCell(o.vendor)
    case QuotedPrice => PriceCell(o.quoted)
    case FinalPrice => PriceCell(o.final)
    case ConfirmedAt => TimeCell(o.confirmedDate)
    case CompletedAt => TimeCell(o.completedDate)
  }

  /** What an operation puts there, if anything: a completion puts an absent final price when it knows of none. */
  function Given(o: Order, op: Op, c: Column): Option<Option<Cell>> {
    if !Accepts(o, op) then None
    else match op
      case Update(i) =>
        var cell := match c {
          case StatusOf => if i.status.Some? then Some(Stage(i.status.value)) else None
          case VendorOf => TextCell(i.vendor)
          case QuotedPrice => PriceCell(i.quoted)
          case FinalPrice => PriceCell(i.final)
          case _ => None
        };
        if cell.Some? then Some(cell) else None
      case Confirm(vendor, price, at) =>
        (match c
         case StatusOf => Some(Some(Stage(Confirmed)))
         case VendorOf => Some(Some(Text(vendor)))
         case QuotedPrice => Some(Some(Price(price)))
         case ConfirmedAt => Some(Some(Time(at)))
         case _ => None)
      case Complete(price, at) =>
        (match c
         case StatusOf => Some(Some(Stage(Completed)))
         case FinalPrice => Some(PriceCell(if price.Some? then price else o.quoted))
         case CompletedAt => Some(Some(Time(at)))
         case _ => None)
      case AssignVendor(vendor) => if c.VendorOf? then Some(Some(Text(vendor))) else None
      case StartWork => if c.StatusOf? then Some(Some(Stage(InProgress))) else None
      case Cancel => if c.StatusOf? then Some(Some(Stage(Cancelled))) else None
  }

  lemma GivenIsHeld(o: Order, op: Op, c: Column)
    ensures Held(Do(o, op), c) == if Given(o, op, c).Some? then Given(o, op, c).value else Held(o, c)
  {
  }

  /** No operation from the n-th on puts anything in the column. */
  ghost predicate NoneFrom(ops: seq<Op>, n: nat, c: Column) {
    forall m :: n <= m < |ops| ==> Given(After(NEW_ORDER, ops[..m]), ops[m], c) == None
  }

  lemma NoneBefore(ops: seq<Op>, n: nat, c: Column)
    requires n < |ops| && NoneFrom(ops, n, c)
    ensures NoneFrom(ops[..|ops| - 1], n, c)
    ensures Given(After(NEW_ORDER, ops[..|ops| - 1]), ops[|ops| - 1], c) == None
  {
    var init := ops[..|ops| - 1];
    forall m | n <= m < |init| ensures Given(After(NEW_ORDER, init[..m]), init[m], c) == None {
      assert init[..m] == ops[..m] && init[m] == ops[m];
    }
  }

  lemma {:induction false} NoneFromKeeps(ops: seq<Op>, n: nat, c: Column)
    requires n <= |ops| && NoneFrom(ops, n, c)
    ensures Held(After(NEW_ORDER, ops), c) == Held(After(NEW_ORDER, ops[..n]), c)
  {
    if n == |ops| {
      assert ops[..n] == ops;
    } else {
      var init, last := ops[..|ops| - 1], ops[|ops| - 1];
      NoneBefore(ops, n, c);
      NoneFromKeeps(init, n, c);
      GivenIsHeld(After(NEW_ORDER, init), last, c);
      assert init[..n] == ops[..n];
    }
  }

  /** The n-th operation gives the column this. */
  ghost predicate GivenAt(ops: seq<Op>, n: nat, c: Column, cell: Option<Cell>) {
    n < |ops| && Given(After(NEW_ORDER, ops[..n]), ops[n], c) == Some(cell)
  }

  lemma HeldAfter(ops: seq<Op>, n: nat, c: Column, cell: Option<Cell>)
    requires GivenAt(ops, n, c, cell)
    ensures Held(After(NEW_ORDER, ops[..n + 1]), c) == cell
  {
    GivenIsHeld(After(NEW_ORDER, ops[..n]), ops[n], c);
    assert ops[..n + 1][..n] == ops[..n];
  }

  /** Every column of an order holds what the last accepted operation that writes it gave. */
  lemma ColumnIsLastGiven(ops: seq<Op>, n: nat, c: Column, cell: Option<Cell>)
    requires GivenAt(ops, n, c, cell) && NoneFrom(ops, n + 1, c)
    ensures Held(After(NEW_ORDER, ops), c) == cell
  {
    HeldAfter(ops, n, c, cell);
    NoneFromKeeps(ops, n + 1, c);
  }

  /** A column no operation writes keeps its initial value: a draft's status, and otherwise nothing. */
  lemma NeverGivenIsInitial(ops: seq<Op>, c: Column)
    requires NoneFrom(ops, 0, c)
    ensures Held(After(NEW_ORDER, ops), c) == if c == StatusOf then Some(Stage(Draft)) else None
  {
    NoneFromKeeps(ops, 0, c);
  }

  // ---- statistics -------------------------------------------------------------------------

  ghost function Having(orders: seq<Order>, s: Status): set<int> {
    set i | 0 <= i < |orders| && orders[i].status == s
  }

  lemma HavingSnoc(orders: seq<Order>, s: Status, i: int)
    requires orders != []
    ensures var n := |orders| - 1;
      i in Having(orders, s) <==> i in Having(orders[..n], s) || (i == n && orders[n].status == s)
  {
  }

  lemma OneMoreHaving(orders: seq<Order>, s: Status)
    requires orders != []
    ensures var n := |orders| - 1;
      |Having(orders, s)| == |Having(orders[..n], s)| + if orders[n].status == s then 1 else 0
  {
    var n := |orders| - 1;
    var all, before, last := Having(orders, s), Having(orders[..n], s), orders[n].status == s;
    assert n !in before;
    assert all == if last then before + {n} else before by {
      forall i ensures i in all <==> i in before || (i == n && last) {
        HavingSnoc(orders, s, i);
      }
    }
  }

  /** Counting by status counts the orders that have it. */
  lemma {:induction false} CountLaw(orders: seq<Order>, s: Status)
    ensures CountStatus(orders, s) == |set i | 0 <= i < |orders| && orders[i].status == s|
  {
    assert CountStatus(orders, s) == |Having(orders, s)| by {
      if orders != [] {
        CountLaw(orders[..|orders| - 1], s);
        OneMoreHaving(orders, s);
      } else {
        assert Having(orders, s) == {};
      }
    }
  }

  /** A sum of prices is additive, and takes an absent price for nothing. */
  lemma {:induction false} SumLaw(a: seq<Option<real>>, b: seq<Option<real>>, price: real)
    ensures SumOf(a + b) == SumOf(a) + SumOf(b)
    ensures SumOf([Some(price)]) == price && SumOf([None]) == 0.0 && SumOf([]) == 0.0
  {
    if b == [] {
      assert a + b == a;
    } else {
      assert (a + b)[..|a + b| - 1] == a + b[..|b| - 1];
      SumLaw(a, b[..|b| - 1], price);
    }
    var none: seq<Option<real>> := [None];
    assert [Some(price)][..0] == [] && none[..0] == [];
  }
}
