/** The service order service on one row, updated in place, and its per-port-call statistics. */
module ServiceOrders {
  import opened Wrappers
  import opened OrderSpec

  class OrderService {
    var row: Order

    ghost predicate Valid()
      reads this
    {
      Inv(row)
    }

    constructor ()
      ensures Valid() && row == NEW_ORDER
    {
      row := NEW_ORDER;
    }

    static method ValidateStatusTransition(from: Status, to: Status) returns (ok: bool)
      ensures ok == Legal(from, to)
    {
      var allowed := Allowed(from);
      for i := 0 to |allowed|
        invariant to !in allowed[..i]
      {
        if allowed[i] == to {
          return true;
        }
      }
      ok := false;
    }

    /** The repository's update: it writes the given columns whatever the status. */
    method Write(i: Input)
      modifies this
      ensures row == Overlay(old(row), i)
    {
      if i.status.Some? {
        row := row.(status := i.status.value);
      }
      if i.vendor.Some? {
        row := row.(vendor := i.vendor);
      }
      if i.quoted.Some? {
        row := row.(quoted := i.quoted);
      }
      if i.final.Some? {
        row := row.(final := i.final);
      }
    }

    method UpdateOrder(i: Input) returns (ok: bool)
      requires Valid()
      modifies this
      ensures Valid()
      ensures ok == Accepts(old(row), Update(i)) && row == Do(old(row), Update(i))
    {
      StepKeepsInv(row, Update(i));
      if i.status.Some? {
        ok := ValidateStatusTransition(row.status, i.status.value);
        if !ok {
          return false;
        }
      }
      Write(i);
      ok := true;
    }

    method ConfirmOrder(vendorId: string, price: real, now: int) returns (ok: bool)
      requires Valid()
      modifies this
      ensures Valid()
      ensures ok == Accepts(old(row), Confirm(vendorId, price, now)) &&
        row == Do(old(row), Confirm(vendorId, price, now))
    {
      StepKeepsInv(row, Confirm(vendorId, price, now));
      var isValid := false;
      for i := 0 to |CONFIRMABLE|
        invariant row == old(row) && !isValid && row.status !in CONFIRMABLE[..i]
      {
        if CONFIRMABLE[i] == row.status {
          isValid := true;
          break;
        }
      }
      if !isValid || vendorId == "" || price <= 0.0 {
        return false;
      }
      row := row.(status := Confirmed, vendor := Some(vendorId), quoted := Some(price), confirmedDate := Some(now));
      ok := true;
    }

    method CompleteOrder(finalPrice: Option<real>, now: int) returns (ok: bool)
      requires Valid()
      modifies this
      ensures Valid()
      ensures ok == Accepts(old(row), Complete(finalPrice, now)) && row == Do(old(row), Complete(finalPrice, now))
    {
      StepKeepsInv(row, Complete(finalPrice, now));
      if row.status != Confirmed && row.status != InProgress {
        return false;
      }
      if finalPrice.Some? {
        row := row.(status := Completed, final := finalPrice, completedDate := Some(now));
      } else {
        row := row.(status := Completed, final := row.quoted, completedDate := Some(now));
      }
      ok := true;
    }

    method AssignVendorTo(vendorId: string) returns (ok: bool)
      requires Valid()
      modifies this
      ensures Valid()
      ensures ok == Accepts(old(row), AssignVendor(vendorId)) && row == Do(old(row), AssignVendor(vendorId))
    {
      StepKeepsInv(row, AssignVendor(vendorId));
      if row.status == Confirmed || row.status == InProgress || row.status == Completed {
        return false;
      }
      Write(NO_INPUT.(vendor := Some(vendorId)));
      ok := true;
    }

    method StartWorkOn() returns (ok: bool)
      requires Valid()
      modifies this
      ensures Valid()
      ensures ok == Accepts(old(row), StartWork) && row == Do(old(row), StartWork)
    {
      StepKeepsInv(row, StartWork);
      if row.status != Confirmed {
        return false;
      }
      Write(NO_INPUT.(status := Some(InProgress)));
      ok := true;
    }

    method CancelOrder() returns (ok: bool)
      requires Valid()
      modifies this
      ensures Valid()
      ensures ok == Accepts(old(row), Cancel) && row == Do(old(row), Cancel)
    {
      StepKeepsInv(row, Cancel);
      if row.status == Completed || row.status == Cancelled {
        return false;
      }
      Write(NO_INPUT.(status := Some(Cancelled)));
      ok := true;
    }
  }

  datatype Stats = Stats(total: nat, byStatus: map<Status, nat>, totalQuoted: real, totalFinal: real)

  const STATS_PAGE := 1000

  function NewestThousand(orders: seq<Order>): seq<Order> {
    if |orders| <= STATS_PAGE then orders else orders[..STATS_PAGE]
  }

  /** Statistics over a port call's orders, newest first: they cover the newest thousand, so the total is the
      number of orders exactly when there are no more than that. */
  method GetStats(orders: seq<Order>) returns (st: Stats)
    ensures st.total == |NewestThousand(orders)| && (st.total == |orders| <==> |orders| <= 1000)
    ensures forall s :: s in st.byStatus <==> CountStatus(NewestThousand(orders), s) > 0
    ensures forall s :: s in st.byStatus ==> st.byStatus[s] == CountStatus(NewestThousand(orders), s)
    ensures st.totalQuoted == SumOf(QuotedOf(NewestThousand(orders))) &&
      st.totalFinal == SumOf(FinalOf(NewestThousand(orders)))
  {
    var page := NewestThousand(orders);
    var byStatus: map<Status, nat> := map[];
    var quoted, final := 0.0, 0.0;
    for i := 0 to |page|
      invariant Counted(page[..i], byStatus)
      invariant quoted == SumOf(QuotedOf(page[..i])) && final == SumOf(FinalOf(page[..i]))
    {
      var o := page[i];
      var soFar := if o.status in byStatus then byStatus[o.status] else 0;
      CountedSnoc(page, i, byStatus);
      byStatus := byStatus[o.status := soFar + 1];
      if o.quoted.Some? {
        quoted := quoted + o.quoted.value;
      }
      if o.final.Some? {
        final := final + o.final.value;
      }
      StatsSnoc(page, i);
    }
    assert page[..|page|] == page;
    st := Stats(|page|, byStatus, quoted, final);
  }

  /** The map counts exactly the statuses that occur. */
  ghost predicate Counted(orders: seq<Order>, byStatus: map<Status, nat>) {
    && (forall s :: s in byStatus <==> CountStatus(orders, s) > 0)
    && (forall s :: s in byStatus ==> byStatus[s] == CountStatus(orders, s))
  }

  lemma CountedSnoc(page: seq<Order>, i: nat, byStatus: map<Status, nat>)
    requires i < |page| && Counted(page[..i], byStatus)
    ensures var s := page[i].status;
      Counted(page[..i + 1], byStatus[s := (if s in byStatus then byStatus[s] else 0) + 1])
  {
    assert page[..i + 1][..i] == page[..i];
    forall s ensures CountStatus(page[..i + 1], s) == CountStatus(page[..i], s) + if page[i].status == s then 1 else 0 {
    }
  }

  lemma StatsSnoc(page: seq<Order>, i: nat)
    requires i < |page|
    ensures page[..i + 1][..i] == page[..i]
    ensures QuotedOf(page[..i + 1])[..i] == QuotedOf(page[..i])
    ensures FinalOf(page[..i + 1])[..i] == FinalOf(page[..i])
  {
  }
}
