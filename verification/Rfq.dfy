/** The RFQ service over its two tables, updated in place row by row. Each operation is proved
    against RfqSpec.Do; the journal records the separate row writes an award performs. */
module Rfq {
  import opened Wrappers
  import opened RfqSpec

  lemma {:induction false} RejectionsSnoc(db: Db, quoteId: string, order: seq<string>, q: string)
    requires q in db.quotes && forall k :: k in order ==> k in db.quotes
    ensures Rejections(db, quoteId, order + [q]) == Rejections(db, quoteId, order)
      + (if q != quoteId && db.quotes[q].status.Submitted? then [MarkQuote(q, Rejected)] else [])
  {
    if order == [] {
      assert order + [q] == [q] && [q][1..] == [];
    } else {
      assert (order + [q])[1..] == order[1..] + [q];
      RejectionsSnoc(db, quoteId, order[1..], q);
    }
  }

  function Sum(xs: seq<real>): real {
    if xs == [] then 0.0 else Sum(xs[..|xs| - 1]) + xs[|xs| - 1]
  }

  /** The average of a comparison lies between its lowest and highest price. */
  lemma {:induction false} SumBetween(xs: seq<real>, lo: real, hi: real)
    requires forall i :: 0 <= i < |xs| ==> lo <= xs[i] <= hi
    ensures lo * |xs| as real <= Sum(xs) <= hi * |xs| as real
  {
    if xs != [] {
      var n := |xs| - 1;
      SumBetween(xs[..n], lo, hi);
      assert lo * |xs| as real == lo * n as real + lo && hi * |xs| as real == hi * n as real + hi;
    }
  }

  class RfqService {
    var rfqs: map<string, RfqSpec.Rfq>
    var quotes: map<string, Quote>
    ghost var journal: seq<Write>

    function View(): Db
      reads this`rfqs, this`quotes
    {
      Db(rfqs, quotes)
    }

    ghost predicate Valid()
      reads this`rfqs, this`quotes
    {
      Inv(View())
    }

    constructor ()
      ensures Valid() && View() == EMPTY_DB && journal == []
    {
      rfqs, quotes, journal := map[], map[], [];
    }

    method CreateRfq(id: string, serviceType: string, portCall: string, due: Option<int>, invitees: seq<string>,
        now: int)
      returns (error: Option<Error>)
      requires Valid()
      requires Enabled(View(), Create(id, serviceType, portCall, due, invitees, now))
      modifies this`rfqs
      ensures Valid()
      ensures (View(), error) == Do(old(View()), Create(id, serviceType, portCall, due, invitees, now))
    {
      StepKeepsInv(View(), Create(id, serviceType, portCall, due, invitees, now));
      if serviceType == "" {
        return Some(MissingField);
      }
      if portCall == "" {
        return Some(MissingField);
      }
      if due.None? {
        return Some(MissingField);
      }
      if due.value < now {
        return Some(DeadlinePassed);
      }
      rfqs := rfqs[id := Rfq(Draft, due.value, invitees, None)];
      error := None;
    }

    method UpdateRfq(id: string, deadline: Option<int>, invited: Option<seq<string>>) returns (error: Option<Error>)
      requires Valid()
      modifies this`rfqs
      ensures Valid()
      ensures (View(), error) == Do(old(View()), Update(id, deadline, invited))
    {
      StepKeepsInv(View(), Update(id, deadline, invited));
      if id !in rfqs {
        return Some(RfqNotFound);
      }
      if rfqs[id].status != Draft {
        return Some(WrongStatus);
      }
      var row := rfqs[id];
      if deadline.Some? {
        row := row.(deadline := deadline.value);
      }
      if invited.Some? {
        row := row.(invited := invited.value);
      }
      rfqs := rfqs[id := row];
      error := None;
    }

    method UpdateStatus(id: string, status: RfqStatus)
      modifies this`rfqs
      ensures View() == SetStatus(old(View()), id, status)
    {
      if id in rfqs {
        rfqs := rfqs[id := rfqs[id].(status := status)];
      }
    }

    method PublishRfq(id: string, now: int) returns (error: Option<Error>)
      requires Valid()
      modifies this`rfqs
      ensures Valid()
      ensures (View(), error) == Do(old(View()), Publish(id, now))
    {
      StepKeepsInv(View(), Publish(id, now));
      if id !in rfqs {
        return Some(RfqNotFound);
      }
      if rfqs[id].status != Draft {
        return Some(WrongStatus);
      }
      if |rfqs[id].invited| == 0 {
        return Some(NoVendors);
      }
      if rfqs[id].deadline < now {
        return Some(DeadlinePassed);
      }
      UpdateStatus(id, Open);
      error := None;
    }

    method CloseRfq(id: string) returns (error: Option<Error>)
      requires Valid()
      modifies this`rfqs
      ensures Valid()
      ensures (View(), error) == Do(old(View()), Close(id))
    {
      StepKeepsInv(View(), Close(id));
      if id !in rfqs {
        return Some(RfqNotFound);
      }
      if rfqs[id].status != Open {
        return Some(WrongStatus);
      }
      UpdateStatus(id, Closed);
      error := None;
    }

    method CancelRfq(id: string) returns (error: Option<Error>)
      requires Valid()
      modifies this`rfqs
      ensures Valid()
      ensures (View(), error) == Do(old(View()), Cancel(id))
    {
      StepKeepsInv(View(), Cancel(id));
      if id !in rfqs {
        return Some(RfqNotFound);
      }
      if rfqs[id].status == Awarded || rfqs[id].status == Cancelled {
        return Some(WrongStatus);
      }
      UpdateStatus(id, Cancelled);
      error := None;
    }

    method SubmitQuote(quoteId: string, id: string, vendor: string, unit: real, total: real, currency: string, now: int)
      returns (error: Option<Error>)
      requires Valid()
      requires quoteId !in quotes
      modifies this`quotes
      ensures Valid()
      ensures (View(), error) == Do(old(View()), Submit(quoteId, id, vendor, unit, total, currency, now))
    {
      StepKeepsInv(View(), Submit(quoteId, id, vendor, unit, total, currency, now));
      if id !in rfqs {
        return Some(RfqNotFound);
      }
      var rfq := rfqs[id];
      if rfq.status != Open {
        return Some(WrongStatus);
      }
      if rfq.deadline < now {
        return Some(DeadlinePassed);
      }
      var isInvited := false;
      for i := 0 to |rfq.invited|
        invariant isInvited <==> vendor in rfq.invited[..i]
      {
        if rfq.invited[i] == vendor {
          isInvited := true;
          break;
        }
      }
      if !isInvited {
        return Some(NotInvited);
      }
      if HasQuoted(View(), id, vendor) {
        return Some(AlreadyQuoted);
      }
      if unit <= 0.0 {
        return Some(BadPrice);
      }
      if total <= 0.0 {
        return Some(BadPrice);
      }
      var cur := currency;
      if cur == "" {
        cur := "USD";
      }
      quotes := quotes[quoteId := Quote(id, vendor, Submitted, unit, total, cur, now)];
      error := None;
    }

    method UpdateQuoteStatus(quoteId: string, status: QuoteStatus)
      modifies this`quotes, this`journal
      ensures View() == SetQuote(old(View()), quoteId, status)
      ensures journal == old(journal) + [MarkQuote(quoteId, status)]
    {
      if quoteId in quotes {
        quotes := quotes[quoteId := quotes[quoteId].(status := status)];
      }
      journal := journal + [MarkQuote(quoteId, status)];
    }

    /** The award: accept the quote, reject the other submitted ones in listing order, mark the
        RFQ. It makes exactly the writes of AwardWrites, in that order. */
    method AwardQuote(id: string, quoteId: string, listing: seq<string>) returns (error: Option<Error>)
      requires Valid()
      requires Lists(View(), id, listing)
      modifies this
      ensures Valid()
      ensures (View(), error) == Do(old(View()), Award(id, quoteId))
      ensures journal == old(journal)
        + (if error == None then AwardWrites(old(View()), id, quoteId, listing) else [])
    {
      StepKeepsInv(View(), Award(id, quoteId));
      if id !in rfqs {
        return Some(RfqNotFound);
      }
      if rfqs[id].status != Open && rfqs[id].status != Closed {
        return Some(WrongStatus);
      }
      if quoteId !in quotes {
        return Some(QuoteNotFound);
      }
      if quotes[quoteId].rfq != id {
        return Some(WrongRfq);
      }
      PerformAward(id, quoteId, listing);
      error := None;
    }

    /** The writes of an award that passed its checks. */
    method PerformAward(id: string, quoteId: string, listing: seq<string>)
      requires CanAward(View(), id, quoteId) == None && Lists(View(), id, listing)
      modifies this
      ensures View() == AwardAll(old(View()), id, quoteId)
      ensures journal == old(journal) + AwardWrites(old(View()), id, quoteId, listing)
    {
      ghost var db := View();
      AwardInWrites(db, id, quoteId, listing);
      UpdateQuoteStatus(quoteId, Accepted);
      ghost var rejections := Rejections(View(), quoteId, listing);
      RejectOthers(quoteId, listing);
      MarkRfqAwarded(id, quoteId);
      assert journal == old(journal) + [MarkQuote(quoteId, Accepted)] + rejections + [MarkAwarded(id, quoteId)];
      assert AwardWrites(db, id, quoteId, listing) ==
        [MarkQuote(quoteId, Accepted)] + rejections + [MarkAwarded(id, quoteId)];
    }

    method MarkRfqAwarded(id: string, quoteId: string)
      modifies this`rfqs, this`journal
      ensures View() == ApplyWrite(old(View()), MarkAwarded(id, quoteId))
      ensures journal == old(journal) + [MarkAwarded(id, quoteId)]
    {
      if id in rfqs {
        rfqs := rfqs[id := rfqs[id].(status := Awarded, awarded := Some(quoteId))];
      }
      journal := journal + [MarkAwarded(id, quoteId)];
    }

    /** The three stages of an award, written one after the other, are the atomic award. */
    static lemma AwardInWrites(db: Db, id: string, quoteId: string, listing: seq<string>)
      requires CanAward(db, id, quoteId) == None && Lists(db, id, listing)
      ensures var accepted := SetQuote(db, quoteId, Accepted);
        ApplyWrite(ApplyWrites(accepted, Rejections(accepted, quoteId, listing)), MarkAwarded(id, quoteId))
        == AwardAll(db, id, quoteId)
    {
      var accepted := SetQuote(db, quoteId, Accepted);
      var rejections := Rejections(accepted, quoteId, listing);
      ApplyWritesAppend(db, [MarkQuote(quoteId, Accepted)] + rejections, [MarkAwarded(id, quoteId)]);
      ApplyWritesAppend(db, [MarkQuote(quoteId, Accepted)], rejections);
      SingleWrite(db, MarkQuote(quoteId, Accepted));
      SingleWrite(ApplyWrites(accepted, rejections), MarkAwarded(id, quoteId));
      AwardWritesComplete(db, id, quoteId, listing);
    }

    static lemma SingleWrite(db: Db, w: Write)
      ensures ApplyWrites(db, [w]) == ApplyWrite(db, w)
    {
      assert ApplyWrites(ApplyWrite(db, w), [w][1..]) == ApplyWrite(db, w);
    }

    /** The reject loop over the quotes read after the acceptance. */
    method RejectOthers(quoteId: string, listing: seq<string>)
      requires forall q :: q in listing ==> q in quotes
      requires forall i, j :: 0 <= i < j < |listing| ==> listing[i] != listing[j]
      modifies this`quotes, this`journal
      ensures View() == ApplyWrites(old(View()), Rejections(old(View()), quoteId, listing))
      ensures journal == old(journal) + Rejections(old(View()), quoteId, listing)
    {
      var snapshot := quotes;
      ghost var before := View();
      for i := 0 to |listing|
        invariant quotes.Keys == snapshot.Keys && rfqs == old(rfqs)
        invariant forall q :: q in listing[..i] ==> q in before.quotes
        invariant View() == ApplyWrites(before, Rejections(before, quoteId, listing[..i]))
        invariant journal == old(journal) + Rejections(before, quoteId, listing[..i])
      {
        var q := listing[i];
        assert listing[..i + 1] == listing[..i] + [q];
        RejectionsSnoc(before, quoteId, listing[..i], q);
        if q != quoteId && snapshot[q].status == Submitted {
          UpdateQuoteStatus(q, Rejected);
          ApplyWritesAppend(before, Rejections(before, quoteId, listing[..i]), [MarkQuote(q, Rejected)]);
          SingleWrite(ApplyWrites(before, Rejections(before, quoteId, listing[..i])), MarkQuote(q, Rejected));
        } else {
          assert Rejections(before, quoteId, listing[..i]) + [] == Rejections(before, quoteId, listing[..i]);
        }
      }
      assert listing[..|listing|] == listing;
    }

    method WithdrawQuote(quoteId: string) returns (error: Option<Error>)
      requires Valid()
      modifies this`quotes, this`journal
      ensures Valid()
      ensures (View(), error) == Do(old(View()), Withdraw(quoteId))
    {
      StepKeepsInv(View(), Withdraw(quoteId));
      if quoteId !in quotes {
        return Some(QuoteNotFound);
      }
      if quotes[quoteId].status != Submitted {
        return Some(WrongStatus);
      }
      if quotes[quoteId].rfq !in rfqs {
        return Some(RfqNotFound);
      }
      if rfqs[quotes[quoteId].rfq].status != Open {
        return Some(WrongStatus);
      }
      UpdateQuoteStatus(quoteId, Withdrawn);
      error := None;
    }

    /** The expiry job over the page of open RFQs it read; returns how many it expired. */
    method CheckExpiredRfqs(page: seq<string>, now: int) returns (expired: nat)
      requires Valid()
      requires FirstPage(View(), page)
      modifies this`rfqs
      ensures Valid()
      ensures View() == Do(old(View()), Expire(page, now)).0
      ensures var due := |set r | r in old(rfqs) && old(rfqs)[r].status == Open && old(rfqs)[r].deadline < now|;
        expired == if due <= 1000 then due else 1000
    {
      StepKeepsInv(View(), Expire(page, now));
      ExpiryPass(View(), page, now);
      ExpirySplits(View(), page, now);
      assert Overdue(View(), now) == set r | r in rfqs && rfqs[r].status == Open && rfqs[r].deadline < now;
      expired := ExpirePage(page, now);
    }

    /** The loop of the expiry job. */
    method ExpirePage(page: seq<string>, now: int) returns (expired: nat)
      requires forall i, j :: 0 <= i < j < |page| ==> page[i] != page[j]
      requires forall r :: r in page ==> r in rfqs
      modifies this`rfqs
      ensures View() == ExpireAll(old(View()), page, now)
      ensures expired == |ExpiredBy(old(View()), page, now)|
    {
      expired := 0;
      ghost var before := View();
      for i := 0 to |page|
        invariant View() == ExpireAll(before, page[..i], now)
        invariant expired == |ExpiredBy(before, page[..i], now)|
      {
        var r := page[i];
        assert page[..i + 1] == page[..i] + [r];
        assert r in page && r !in page[..i];
        ExpireOneMore(before, page[..i], r, now);
        if rfqs[r].deadline < now {
          UpdateStatus(r, Expired);
          expired := expired + 1;
        }
      }
      assert page[..|page|] == page;
    }

    /** Lowest, highest and average total price of a list of quotes; zeros when there are none. */
    method CompareQuotes(prices: seq<real>) returns (lowest: real, highest: real, average: real)
      ensures prices == [] ==> lowest == highest == average == 0.0
      ensures prices != [] ==> lowest in prices && highest in prices && average * |prices| as real == Sum(prices)
      ensures prices != [] ==> forall p :: p in prices ==> lowest <= p <= highest
      ensures lowest <= average <= highest
    {
      if |prices| == 0 {
        return 0.0, 0.0, 0.0;
      }
      var total;
      lowest, highest, total := Accumulate(prices);
      average := total / |prices| as real;
      SumBetween(prices, lowest, highest);
      AverageBetween(lowest, highest, total, |prices| as real);
    }

    /** The accumulating loop of the comparison. */
    static method Accumulate(prices: seq<real>) returns (lowest: real, highest: real, total: real)
      requires prices != []
      ensures total == Sum(prices) && lowest in prices && highest in prices
      ensures forall k :: 0 <= k < |prices| ==> lowest <= prices[k] <= highest
    {
      lowest, highest, total := prices[0], prices[0], 0.0;
      for i := 0 to |prices|
        invariant total == Sum(prices[..i])
        invariant lowest in prices && highest in prices
        invariant forall k :: 0 <= k < i ==> lowest <= prices[k] <= highest
        invariant lowest <= prices[0] <= highest
      {
        assert prices[..i + 1][..i] == prices[..i];
        total := total + prices[i];
        if prices[i] < lowest {
          lowest := prices[i];
        }
        if prices[i] > highest {
          highest := prices[i];
        }
      }
      assert prices[..|prices|] == prices;
    }

    static lemma AverageBetween(lo: real, hi: real, total: real, n: real)
      requires n > 0.0 && lo * n <= total <= hi * n
      ensures lo <= total / n <= hi && total / n * n == total
    {
      var average := total / n;
      assert average * n == total;
      MulCancel(lo, average, n);
      MulCancel(average, hi, n);
    }

    static lemma MulCancel(a: real, b: real, n: real)
      requires n > 0.0 && a * n <= b * n
      ensures a <= b
    {
    }
  }
}
