/** Requests for quotes and the operations on their two tables. */
module RfqSpec {
  // Every service operation is a function from table state to table state. `Do` runs one operation
  // atomically; `AwardWrites` spells out the separate writes an award really performs, so that a crash
  // between them can be stated.

  import opened Wrappers

  datatype RfqStatus = Draft | Open | Closed | Awarded | Cancelled | Expired
  datatype QuoteStatus = Submitted | Accepted | Rejected | Withdrawn

  datatype Rfq = Rfq(status: RfqStatus, deadline: int, invited: seq<string>, awarded: Option<string>)
  datatype Quote = Quote(rfq: string, vendor: string, status: QuoteStatus, unitPrice: real, totalPrice: real,
                         currency: string, submittedAt: int)

  datatype Db = Db(rfqs: map<string, Rfq>, quotes: map<string, Quote>)

  const EMPTY_DB := Db(map[], map[])

  datatype Error =
    | MissingField | DeadlinePassed | RfqNotFound | WrongStatus | NoVendors | NotInvited
    | AlreadyQuoted | BadPrice | QuoteNotFound | WrongRfq

  /** Operations with the clock reading each makes; `id`/`quoteId` of a creation is a fresh key. */
  datatype Op =
    | Create(id: string, serviceType: string, portCall: string, due: Option<int>, invitees: seq<string>, at: int)
    | Update(id: string, newDeadline: Option<int>, newInvited: Option<seq<string>>)
    | Publish(id: string, at: int)
    | Close(id: string)
    | Cancel(id: string)
    | Submit(quoteId: string, id: string, vendor: string, unit: real, total: real, cur: string, at: int)
    | Award(id: string, quoteId: string)
    | Withdraw(quoteId: string)
    | Expire(batch: seq<string>, at: int)

  // ---- one atomic operation ---------------------------------------------------------------

  function SetStatus(db: Db, id: string, status: RfqStatus): Db {
    if id in db.rfqs then db.(rfqs := db.rfqs[id := db.rfqs[id].(status := status)]) else db
  }

  function SetQuote(db: Db, id: string, status: QuoteStatus): Db {
    if id in db.quotes then db.(quotes := db.quotes[id := db.quotes[id].(status := status)]) else db
  }

  predicate HasQuoted(db: Db, rfq: string, vendor: string) {
    exists q :: q in db.quotes && db.quotes[q].rfq == rfq && db.quotes[q].vendor == vendor
  }

  function CanCreate(op: Op): Option<Error>
    requires op.Create?
  {
    if op.serviceType == "" || op.portCall == "" || op.due == None then Some(MissingField)
    else if op.due.value < op.at then Some(DeadlinePassed)
    else None
  }

  function CanPublish(db: Db, id: string, at: int): Option<Error> {
    if id !in db.rfqs then Some(RfqNotFound)
    else if !db.rfqs[id].status.Draft? then Some(WrongStatus)
    else if db.rfqs[id].invited == [] then Some(NoVendors)
    else if db.rfqs[id].deadline < at then Some(DeadlinePassed)
    else None
  }

  function CanSubmit(db: Db, op: Op): Option<Error>
    requires op.Submit?
  {
    if op.id !in db.rfqs then Some(RfqNotFound)
    else if !db.rfqs[op.id].status.Open? then Some(WrongStatus)
    else if db.rfqs[op.id].deadline < op.at then Some(DeadlinePassed)
    else if op.vendor !in db.rfqs[op.id].invited then Some(NotInvited)
    else if HasQuoted(db, op.id, op.vendor) then Some(AlreadyQuoted)
    else if op.unit <= 0.0 || op.total <= 0.0 then Some(BadPrice)
    else None
  }

  function CanAward(db: Db, id: string, quoteId: string): Option<Error> {
    if id !in db.rfqs then Some(RfqNotFound)
    else if !db.rfqs[id].status.Open? && !db.rfqs[id].status.Closed? then Some(WrongStatus)
    else if quoteId !in db.quotes then Some(QuoteNotFound)
    else if db.quotes[quoteId].rfq != id then Some(WrongRfq)
    else None
  }

  function CanWithdraw(db: Db, quoteId: string): Option<Error> {
    if quoteId !in db.quotes then Some(QuoteNotFound)
    else if !db.quotes[quoteId].status.Submitted? then Some(WrongStatus)
    else if db.quotes[quoteId].rfq !in db.rfqs then Some(RfqNotFound)
    else if !db.rfqs[db.quotes[quoteId].rfq].status.Open? then Some(WrongStatus)
    else None
  }

  /** An uninterrupted award: the quote accepted, the RFQ's other submitted quotes rejected. */
  function AwardAll(db: Db, id: string, quoteId: string): Db
    requires id in db.rfqs
  {
    Db(db.rfqs[id := db.rfqs[id].(status := Awarded, awarded := Some(quoteId))],
       map q | q in db.quotes ::
         if q == quoteId then db.quotes[q].(status := Accepted)
         else if db.quotes[q].rfq == id && db.quotes[q].status.Submitted? then db.quotes[q].(status := Rejected)
         else db.quotes[q])
  }

  function ExpireAll(db: Db, batch: seq<string>, at: int): Db {
    db.(rfqs := map r | r in db.rfqs ::
      if r in batch && db.rfqs[r].deadline < at then db.rfqs[r].(status := Expired) else db.rfqs[r])
  }

  /** Fresh keys for creations; the expiry job sees a page of open RFQs. */
  predicate Enabled(db: Db, op: Op) {
    match op
    case Create(id, _, _, _, _, _) => id !in db.rfqs
    case Submit(q, _, _, _, _, _, _) => q !in db.quotes
    case Expire(batch, _) => forall r :: r in batch ==> r in db.rfqs && db.rfqs[r].status.Open?
    case _ => true
  }

  /** The new tables, and the error when the operation is refused. */
  function Do(db: Db, op: Op): (Db, Option<Error>)
    requires Enabled(db, op)
  {
    match op
    case Create(id, _, _, due, invitees, _) =>
      var e := CanCreate(op);
      if e.Some? then (db, e)
      else (db.(rfqs := db.rfqs[id := Rfq(Draft, due.value, invitees, None)]), None)
    case Update(id, deadline, invited) =>
      if id !in db.rfqs then (db, Some(RfqNotFound))
      else if !db.rfqs[id].status.Draft? then (db, Some(WrongStatus))
      else
        var r := db.rfqs[id];
        (db.(rfqs := db.rfqs[id := r.(
           deadline := if deadline.Some? then deadline.value else r.deadline,
           invited := if invited.Some? then invited.value else r.invited)]), None)
    case Publish(id, at) =>
      var e := CanPublish(db, id, at);
      if e.Some? then (db, e) else (SetStatus(db, id, Open), None)
    case Close(id) =>
      if id !in db.rfqs then (db, Some(RfqNotFound))
      else if !db.rfqs[id].status.Open? then (db, Some(WrongStatus))
      else (SetStatus(db, id, Closed), None)
    case Cancel(id) =>
      if id !in db.rfqs then (db, Some(RfqNotFound))
      else if db.rfqs[id].status.Awarded? || db.rfqs[id].status.Cancelled? then (db, Some(WrongStatus))
      else (SetStatus(db, id, Cancelled), None)
    case Submit(q, id, vendor, unit, total, cur, at) =>
      var e := CanSubmit(db, op);
      if e.Some? then (db, e)
      else
        var quote := Quote(id, vendor, Submitted, unit, total, if cur == "" then "USD" else cur, at);
        (db.(quotes := db.quotes[q := quote]), None)
    case Award(id, q) =>
      var e := CanAward(db, id, q);
      if e.Some? then (db, e) else (AwardAll(db, id, q), None)
    case Withdraw(q) =>
      var e := CanWithdraw(db, q);
      if e.Some? then (db, e) else (SetQuote(db, q, Withdrawn), None)
    case Expire(batch, at) => (ExpireAll(db, batch, at), None)
  }

  predicate Runs(db: Db, ops: seq<Op>)
    decreases |ops|
  {
    ops == [] || (Enabled(db, ops[0]) && Runs(Do(db, ops[0]).0, ops[1..]))
  }

  function After(db: Db, ops: seq<Op>): Db
    requires Runs(db, ops)
    decreases |ops|
  {
    if ops == [] then db else After(Do(db, ops[0]).0, ops[1..])
  }

  // ---- the invariant over runs ------------------------------------------------------------

  /** A quote belongs to a published RFQ that invited its vendor, and came in by the deadline. */
  predicate QuoteOk(db: Db, q: string)
    requires q in db.quotes
  {
    var k := db.quotes[q];
    && k.rfq in db.rfqs && !db.rfqs[k.rfq].status.Draft?
    && k.vendor in db.rfqs[k.rfq].invited
    && k.submittedAt <= db.rfqs[k.rfq].deadline
  }

  /** Awarded iff a quote is named; then that quote is the one accepted and none is still open;
      otherwise no quote has been decided. */
  ghost predicate AwardOk(db: Db, r: string)
    requires r in db.rfqs
  {
    && (db.rfqs[r].status.Awarded? <==> db.rfqs[r].awarded.Some?)
    && (db.rfqs[r].status.Awarded? ==>
          var w := db.rfqs[r].awarded.value;
          && w in db.quotes && db.quotes[w].rfq == r && db.quotes[w].status.Accepted?
          && forall q :: q in db.quotes && db.quotes[q].rfq == r ==>
               !db.quotes[q].status.Submitted? && (db.quotes[q].status.Accepted? ==> q == w))
    && (!db.rfqs[r].status.Awarded? ==>
          forall q :: q in db.quotes && db.quotes[q].rfq == r ==>
            db.quotes[q].status.Submitted? || db.quotes[q].status.Withdrawn?)
  }

  ghost predicate OneQuoteEach(db: Db) {
    forall p, q :: p in db.quotes && q in db.quotes && SameVendor(db.quotes[p], db.quotes[q]) ==> p == q
  }

  predicate SameVendor(j: Quote, k: Quote) {
    j.rfq == k.rfq && j.vendor == k.vendor
  }

  ghost predicate Inv(db: Db) {
    && (forall q :: q in db.quotes ==> QuoteOk(db, q))
    && (forall r :: r in db.rfqs ==> AwardOk(db, r))
    && OneQuoteEach(db)
  }

  /** The quote clauses look only at what a quote and its RFQ were created with. */
  lemma QuoteClausesKept(db: Db, t: Db)
    requires Inv(db) && t.rfqs.Keys == db.rfqs.Keys && t.quotes.Keys == db.quotes.Keys
    requires forall q :: q in db.quotes ==>
      SameVendor(t.quotes[q], db.quotes[q]) && t.quotes[q].submittedAt == db.quotes[q].submittedAt
    requires forall r :: r in db.rfqs ==>
      && t.rfqs[r].invited == db.rfqs[r].invited && t.rfqs[r].deadline == db.rfqs[r].deadline
      && (t.rfqs[r].status.Draft? ==> db.rfqs[r].status.Draft?)
    ensures (forall q :: q in t.quotes ==> QuoteOk(t, q)) && OneQuoteEach(t)
  {
    forall q | q in t.quotes ensures QuoteOk(t, q) {
      assert QuoteOk(db, q);
    }
    forall p, q | p in t.quotes && q in t.quotes && SameVendor(t.quotes[p], t.quotes[q]) ensures p == q {
      assert SameVendor(db.quotes[p], db.quotes[q]);
    }
  }

  lemma StatusKeepsInv(db: Db, id: string, status: RfqStatus)
    requires Inv(db) && id in db.rfqs && !db.rfqs[id].status.Awarded? && !status.Awarded? && !status.Draft?
    ensures Inv(SetStatus(db, id, status))
  {
    var t := SetStatus(db, id, status);
    QuoteClausesKept(db, t);
    forall r | r in t.rfqs ensures AwardOk(t, r) {
      assert AwardOk(db, r);
    }
  }

  lemma AwardSettlesRfq(db: Db, id: string, quoteId: string)
    requires Inv(db) && CanAward(db, id, quoteId) == None
    ensures AwardOk(AwardAll(db, id, quoteId), id)
  {
    assert AwardOk(db, id);
  }

  lemma AwardLeavesOthers(db: Db, id: string, quoteId: string, r: string)
    requires Inv(db) && CanAward(db, id, quoteId) == None && r in db.rfqs && r != id
    ensures AwardOk(AwardAll(db, id, quoteId), r)
  {
    assert AwardOk(db, r);
    var t := AwardAll(db, id, quoteId);
    assert forall q :: q in t.quotes && t.quotes[q].rfq == r ==> t.quotes[q] == db.quotes[q];
  }

  lemma AwardKeepsInv(db: Db, id: string, quoteId: string)
    requires Inv(db) && CanAward(db, id, quoteId) == None
    ensures Inv(AwardAll(db, id, quoteId))
  {
    var t := AwardAll(db, id, quoteId);
    forall r | r in t.rfqs ensures AwardOk(t, r) {
      if r == id {
        AwardSettlesRfq(db, id, quoteId);
      } else {
        AwardLeavesOthers(db, id, quoteId, r);
      }
    }
    QuoteClausesKept(db, t);
  }

  lemma SubmitKeepsInv(db: Db, op: Op)
    requires Inv(db) && op.Submit? && Enabled(db, op) && CanSubmit(db, op) == None
    ensures Inv(Do(db, op).0)
  {
    var t := Do(db, op).0;
    forall r | r in t.rfqs ensures AwardOk(t, r) {
      assert AwardOk(db, r);
    }
    forall q | q in t.quotes ensures QuoteOk(t, q) {
      if q != op.quoteId {
        assert QuoteOk(db, q);
      }
    }
  }

  lemma WithdrawKeepsInv(db: Db, quoteId: string)
    requires Inv(db) && CanWithdraw(db, quoteId) == None
    ensures Inv(SetQuote(db, quoteId, Withdrawn))
  {
    var t := SetQuote(db, quoteId, Withdrawn);
    forall r | r in t.rfqs ensures AwardOk(t, r) {
      assert AwardOk(db, r);
    }
    QuoteClausesKept(db, t);
  }

  lemma DraftEditKeepsInv(db: Db, id: string, r: Rfq)
    requires Inv(db) && r.status.Draft? && r.awarded == None
    requires id in db.rfqs ==> db.rfqs[id].status.Draft?
    ensures Inv(db.(rfqs := db.rfqs[id := r]))
  {
    var t := db.(rfqs := db.rfqs[id := r]);
    forall q | q in t.quotes ensures QuoteOk(t, q) {
      assert QuoteOk(db, q);
    }
    forall s | s in t.rfqs ensures AwardOk(t, s) {
      assert s in db.rfqs ==> AwardOk(db, s);
      forall q | q in t.quotes && t.quotes[q].rfq == s ensures s != id {
        assert QuoteOk(db, q);
      }
    }
  }

  lemma ExpireKeepsInv(db: Db, op: Op)
    requires Inv(db) && op.Expire? && Enabled(db, op)
    ensures Inv(Do(db, op).0)
  {
    var t := Do(db, op).0;
    forall r | r in t.rfqs ensures AwardOk(t, r) {
      assert AwardOk(db, r);
    }
    QuoteClausesKept(db, t);
  }

  lemma StepKeepsInv(db: Db, op: Op)
    requires Inv(db) && Enabled(db, op)
    ensures Inv(Do(db, op).0)
  {
    match op
    case Create(id, _, _, due, invitees, _) =>
      if CanCreate(op) == None {
        DraftEditKeepsInv(db, id, Rfq(Draft, due.value, invitees, None));
      }
    case Update(id, _, _) =>
      if Do(db, op).1 == None {
        assert AwardOk(db, id);
        DraftEditKeepsInv(db, id, Do(db, op).0.rfqs[id]);
      }
    case Publish(id, at) => if CanPublish(db, id, at) == None { StatusKeepsInv(db, id, Open); }
    case Close(id) => if Do(db, op).1 == None { StatusKeepsInv(db, id, Closed); }
    case Cancel(id) => if Do(db, op).1 == None { StatusKeepsInv(db, id, Cancelled); }
    case Submit(_, _, _, _, _, _, _) => if CanSubmit(db, op) == None { SubmitKeepsInv(db, op); }
    case Award(id, q) => if CanAward(db, id, q) == None { AwardKeepsInv(db, id, q); }
    case Withdraw(q) => if CanWithdraw(db, q) == None { WithdrawKeepsInv(db, q); }
    case Expire(_, _) => ExpireKeepsInv(db, op);
  }

  /** Over every run of atomic operations the award and quote clauses hold. */
  lemma {:induction false} RunKeepsInv(db: Db, ops: seq<Op>)
    requires Inv(db) && Runs(db, ops)
    ensures Inv(After(db, ops))
    decreases |ops|
  {
    if ops != [] {
      StepKeepsInv(db, ops[0]);
      RunKeepsInv(Do(db, ops[0]).0, ops[1..]);
    }
  }

  /** The same, clause by clause, for every table state reachable from the empty tables. */
  lemma EveryReachableDb(ops: seq<Op>)
    requires Runs(EMPTY_DB, ops)
    ensures var db := After(EMPTY_DB, ops);
      && (forall r :: r in db.rfqs ==>
            && (db.rfqs[r].status.Awarded? <==> db.rfqs[r].awarded.Some?)
            && (db.rfqs[r].awarded.Some? ==>
                  db.rfqs[r].awarded.value in db.quotes && db.quotes[db.rfqs[r].awarded.value].rfq == r)
            && forall q :: q in db.quotes && db.quotes[q].rfq == r ==>
                 && (db.quotes[q].status.Accepted? <==> db.rfqs[r].awarded == Some(q))
                 && (db.rfqs[r].status.Awarded? ==> !db.quotes[q].status.Submitted?)
                 && (!db.rfqs[r].status.Awarded? ==> !db.quotes[q].status.Rejected?))
      && (forall q :: q in db.quotes ==>
            var k := db.quotes[q];
            && k.rfq in db.rfqs && k.vendor in db.rfqs[k.rfq].invited && k.submittedAt <= db.rfqs[k.rfq].deadline)
      && (forall p, q :: p in db.quotes && q in db.quotes && SameVendor(db.quotes[p], db.quotes[q]) ==> p == q)
  {
    RunKeepsInv(EMPTY_DB, ops);
    var db := After(EMPTY_DB, ops);
    forall r | r in db.rfqs
      ensures db.rfqs[r].status.Awarded? <==> db.rfqs[r].awarded.Some?
      ensures db.rfqs[r].awarded.Some? ==>
        db.rfqs[r].awarded.value in db.quotes && db.quotes[db.rfqs[r].awarded.value].rfq == r
      ensures forall q :: q in db.quotes && db.quotes[q].rfq == r ==>
        && (db.quotes[q].status.Accepted? <==> db.rfqs[r].awarded == Some(q))
        && (db.rfqs[r].status.Awarded? ==> !db.quotes[q].status.Submitted?)
        && (!db.rfqs[r].status.Awarded? ==> !db.quotes[q].status.Rejected?)
    {
      assert AwardOk(db, r);
    }
    forall q | q in db.quotes ensures QuoteOk(db, q) {
    }
  }

  // ---- status rank ------------------------------------------------------------------------

  function Rank(status: RfqStatus): nat {
    match status
    case Draft => 0
    case Open => 1
    case Closed => 2
    case Expired => 2
    case Awarded => 3
    case Cancelled => 3
  }

  lemma StepRaisesRank(db: Db, op: Op, r: string)
    requires Enabled(db, op) && r in db.rfqs
    ensures var t := Do(db, op).0;
      r in t.rfqs && (t.rfqs[r].status == db.rfqs[r].status || Rank(t.rfqs[r].status) > Rank(db.rfqs[r].status))
  {
  }

  /** The number of operations of a run that change the status of RFQ r. */
  function Transitions(db: Db, ops: seq<Op>, r: string): nat
    requires Runs(db, ops) && r in db.rfqs
    decreases |ops|
  {
    if ops == [] then 0
    else
      StepRaisesRank(db, ops[0], r);
      var t := Do(db, ops[0]).0;
      (if t.rfqs[r].status != db.rfqs[r].status then 1 else 0) + Transitions(t, ops[1..], r)
  }

  /** Each change of status climbs the rank, so an RFQ changes status at most three times. */
  lemma {:induction false} AtMostThreeTransitions(db: Db, ops: seq<Op>, r: string)
    requires Runs(db, ops) && r in db.rfqs
    ensures r in After(db, ops).rfqs
    ensures Rank(db.rfqs[r].status) + Transitions(db, ops, r) <= Rank(After(db, ops).rfqs[r].status) <= 3
    decreases |ops|
  {
    if ops != [] {
      StepRaisesRank(db, ops[0], r);
      AtMostThreeTransitions(Do(db, ops[0]).0, ops[1..], r);
    }
  }

  lemma RunCons(db: Db, op: Op, rest: seq<Op>)
    requires Enabled(db, op) && Runs(Do(db, op).0, rest)
    ensures Runs(db, [op] + rest) && After(db, [op] + rest) == After(Do(db, op).0, rest)
  {
    assert ([op] + rest)[1..] == rest && ([op] + rest)[0] == op;
  }

  /** A withdrawn quote can be accepted: the award does not look at the quote's status. */
  lemma WithdrawnQuoteCanBeAccepted()
    ensures exists ops: seq<Op>, q: string ::
      && Runs(EMPTY_DB, ops) && q in After(EMPTY_DB, ops).quotes && After(EMPTY_DB, ops).quotes[q].status.Withdrawn?
      && Enabled(After(EMPTY_DB, ops), Award("r", q)) && Do(After(EMPTY_DB, ops), Award("r", q)).1 == None
      && Do(After(EMPTY_DB, ops), Award("r", q)).0.quotes[q].status.Accepted?
  {
    var a, b := Create("r", "s", "p", Some(9), ["v"], 0), Publish("r", 1);
    var c, d := Submit("q", "r", "v", 1.0, 1.0, "", 2), Withdraw("q");
    var open := Db(map["r" := Rfq(Open, 9, ["v"], None)], map[]);
    var quote := Quote("r", "v", Submitted, 1.0, 1.0, "USD", 2);
    var s1 := Do(EMPTY_DB, a).0;
    assert Do(s1, b).0 == open;
    assert "v" in ["v"];
    assert Do(open, c).0 == open.(quotes := map["q" := quote]);
    assert Do(Do(open, c).0, d).0 == open.(quotes := map["q" := quote.(status := Withdrawn)]);
    RunCons(Do(open, c).0, d, []);
    RunCons(open, c, [d]);
    RunCons(s1, b, [c, d]);
    RunCons(EMPTY_DB, a, [b, c, d]);
    assert [d] + [] == [d] && [c] + [d] == [c, d] && [b] + [c, d] == [b, c, d] && [a] + [b, c, d] == [a, b, c, d];
    assert Do(After(EMPTY_DB, [a, b, c, d]), Award("r", "q")).1 == None;
  }

  /** So an award leaves every withdrawn quote withdrawn exactly when the quote it names is still submitted,
      which the service never looks at. */
  lemma AwardHonoursWithdrawalIff(db: Db, id: string, quoteId: string)
    requires Inv(db) && CanAward(db, id, quoteId) == None
    ensures (forall q :: q in db.quotes && db.quotes[q].status.Withdrawn? ==>
              AwardAll(db, id, quoteId).quotes[q].status.Withdrawn?)
        <==> db.quotes[quoteId].status.Submitted?
  {
    assert AwardOk(db, id);
    assert AwardAll(db, id, quoteId).quotes[quoteId].status.Accepted?;
  }

  // ---- an interrupted award ---------------------------------------------------------------

  datatype Write = MarkQuote(quote: string, to: QuoteStatus) | MarkAwarded(rfq: string, winner: string)

  function ApplyWrite(db: Db, w: Write): Db {
    match w
    case MarkQuote(q, s) => SetQuote(db, q, s)
    case MarkAwarded(r, q) =>
      if r in db.rfqs then db.(rfqs := db.rfqs[r := db.rfqs[r].(status := Awarded, awarded := Some(q))]) else db
  }

  function ApplyWrites(db: Db, ws: seq<Write>): Db
    decreases |ws|
  {
    if ws == [] then db else ApplyWrites(ApplyWrite(db, ws[0]), ws[1..])
  }

  /** A listing of one RFQ's quotes, in whatever order the query returns them. */
  ghost predicate Lists(db: Db, id: string, order: seq<string>) {
    && (forall i, j :: 0 <= i < j < |order| ==> order[i] != order[j])
    && (forall q :: q in order <==> q in db.quotes && db.quotes[q].rfq == id)
  }

  /** The rejections the loop issues for a listing read after the acceptance. */
  function Rejections(db: Db, quoteId: string, order: seq<string>): seq<Write>
    requires forall q :: q in order ==> q in db.quotes
  {
    if order == [] then []
    else
      (if order[0] != quoteId && db.quotes[order[0]].status.Submitted? then [MarkQuote(order[0], Rejected)] else [])
      + Rejections(db, quoteId, order[1..])
  }

  /** All writes of an award but the last. */
  function Marks(db: Db, id: string, quoteId: string, order: seq<string>): seq<Write>
    requires forall q :: q in order ==> q in db.quotes
  {
    [MarkQuote(quoteId, Accepted)] + Rejections(SetQuote(db, quoteId, Accepted), quoteId, order)
  }

  /** The writes of one award, in order: accept, reject each other submitted quote, mark the RFQ. */
  function AwardWrites(db: Db, id: string, quoteId: string, order: seq<string>): seq<Write>
    requires forall q :: q in order ==> q in db.quotes
  {
    Marks(db, id, quoteId, order) + [MarkAwarded(id, quoteId)]
  }

  lemma {:induction false} ApplyWritesAppend(db: Db, a: seq<Write>, b: seq<Write>)
    ensures ApplyWrites(db, a + b) == ApplyWrites(ApplyWrites(db, a), b)
    decreases |a|
  {
    if a == [] {
      assert a + b == b;
    } else {
      assert (a + b)[1..] == a[1..] + b;
      ApplyWritesAppend(ApplyWrite(db, a[0]), a[1..], b);
    }
  }

  /** A write that only brings a quote of the RFQ to where the award would leave it. */
  predicate Advances(db: Db, id: string, quoteId: string, w: Write) {
    && w.MarkQuote? && w.quote in db.quotes && db.quotes[w.quote].rfq == id
    && (if w.quote == quoteId then w.to.Accepted?
        else w.to.Rejected? && (db.quotes[w.quote].status.Submitted? || db.quotes[w.quote].status.Rejected?))
  }

  lemma AdvanceKeepsGoal(db: Db, id: string, quoteId: string, w: Write)
    requires id in db.rfqs && Advances(db, id, quoteId, w)
    ensures AwardAll(ApplyWrite(db, w), id, quoteId) == AwardAll(db, id, quoteId)
    ensures ApplyWrite(db, w).rfqs == db.rfqs && ApplyWrite(db, w).quotes.Keys == db.quotes.Keys
    ensures forall v :: Advances(db, id, quoteId, v) ==> Advances(ApplyWrite(db, w), id, quoteId, v)
    ensures forall q :: q in db.quotes && db.quotes[q].rfq != id ==> ApplyWrite(db, w).quotes[q] == db.quotes[q]
    ensures forall q :: q in db.quotes ==> ApplyWrite(db, w).quotes[q].rfq == db.quotes[q].rfq
    ensures forall q :: q in db.quotes && ApplyWrite(db, w).quotes[q].status.Submitted? ==>
      ApplyWrite(db, w).quotes[q] == db.quotes[q]
  {
    var t := ApplyWrite(db, w);
    assert AwardAll(t, id, quoteId).quotes == AwardAll(db, id, quoteId).quotes;
  }

  lemma {:induction false} AdvancesKeepGoal(db: Db, id: string, quoteId: string, ws: seq<Write>)
    requires id in db.rfqs && forall w :: w in ws ==> Advances(db, id, quoteId, w)
    ensures var t := ApplyWrites(db, ws);
      && t.rfqs == db.rfqs && t.quotes.Keys == db.quotes.Keys
      && AwardAll(t, id, quoteId) == AwardAll(db, id, quoteId)
      && (forall q :: q in db.quotes && db.quotes[q].rfq != id ==> t.quotes[q] == db.quotes[q])
      && (forall q :: q in db.quotes ==> t.quotes[q].rfq == db.quotes[q].rfq)
      && (forall q :: q in db.quotes && t.quotes[q].status.Submitted? ==> t.quotes[q] == db.quotes[q])
    decreases |ws|
  {
    if ws != [] {
      assert ws[0] in ws;
      AdvanceKeepsGoal(db, id, quoteId, ws[0]);
      AdvancesKeepGoal(ApplyWrite(db, ws[0]), id, quoteId, ws[1..]);
    }
  }

  lemma {:induction false} RejectionsAdvance(db: Db, id: string, quoteId: string, order: seq<string>)
    requires forall q :: q in order ==> q in db.quotes && db.quotes[q].rfq == id
    ensures forall w :: w in Rejections(db, quoteId, order) ==>
      w.MarkQuote? && w.quote in order && w.quote != quoteId && Advances(db, id, quoteId, w)
    ensures forall q :: q in order && q != quoteId && db.quotes[q].status.Submitted? ==>
      MarkQuote(q, Rejected) in Rejections(db, quoteId, order)
  {
    if order != [] {
      RejectionsAdvance(db, id, quoteId, order[1..]);
    }
  }

  /** Every write of an award but the last advances the award's own goal. */
  lemma WritesAdvance(db: Db, id: string, quoteId: string, order: seq<string>)
    requires CanAward(db, id, quoteId) == None && Lists(db, id, order)
    ensures var ws := AwardWrites(db, id, quoteId, order);
      forall i :: 0 <= i < |ws| - 1 ==> Advances(db, id, quoteId, ws[i])
  {
    var accepted := SetQuote(db, quoteId, Accepted);
    RejectionsAdvance(accepted, id, quoteId, order);
    var ws := AwardWrites(db, id, quoteId, order);
    var rs := Rejections(accepted, quoteId, order);
    forall i | 0 <= i < |ws| - 1 ensures Advances(db, id, quoteId, ws[i]) {
      if i > 0 {
        assert ws[i] == rs[i - 1] && rs[i - 1] in rs;
      }
    }
  }

  /** Once written, a mark stays: later marks of the same award never undo it. */
  lemma {:induction false} MarksStick(db: Db, id: string, quoteId: string, ws: seq<Write>, w: Write)
    requires id in db.rfqs && forall v :: v in ws ==> Advances(db, id, quoteId, v)
    requires Advances(db, id, quoteId, w)
    requires w in ws || db.quotes[w.quote].status == w.to
    ensures w.quote in ApplyWrites(db, ws).quotes && ApplyWrites(db, ws).quotes[w.quote].status == w.to
    decreases |ws|
  {
    if ws != [] {
      assert ws[0] in ws;
      AdvanceKeepsGoal(db, id, quoteId, ws[0]);
      MarksStick(ApplyWrite(db, ws[0]), id, quoteId, ws[1..], w);
    }
  }

  lemma MarksAdvance(db: Db, id: string, quoteId: string, order: seq<string>)
    requires CanAward(db, id, quoteId) == None && Lists(db, id, order)
    ensures forall w :: w in Marks(db, id, quoteId, order) ==> Advances(db, id, quoteId, w)
  {
    RejectionsAdvance(SetQuote(db, quoteId, Accepted), id, quoteId, order);
  }

  /** After the marks each quote is where the award leaves it. */
  lemma MarkedQuote(db: Db, id: string, quoteId: string, order: seq<string>, q: string)
    requires CanAward(db, id, quoteId) == None && Lists(db, id, order) && q in db.quotes
    ensures var t := ApplyWrites(db, Marks(db, id, quoteId, order));
      q in t.quotes && t.quotes[q] == AwardAll(db, id, quoteId).quotes[q]
  {
    var marks := Marks(db, id, quoteId, order);
    MarksAdvance(db, id, quoteId, order);
    AdvancesKeepGoal(db, id, quoteId, marks);
    if q == quoteId {
      MarksStick(db, id, quoteId, marks, MarkQuote(quoteId, Accepted));
    } else if db.quotes[q].rfq == id && db.quotes[q].status.Submitted? {
      RejectionsAdvance(SetQuote(db, quoteId, Accepted), id, quoteId, order);
      assert MarkQuote(q, Rejected) in marks;
      MarksStick(db, id, quoteId, marks, MarkQuote(q, Rejected));
    }
    var t := ApplyWrites(db, marks);
    assert t.quotes[q] == AwardAll(t, id, quoteId).quotes[q];
  }

  /** Run to its end, the write sequence is the atomic award. */
  lemma AwardWritesComplete(db: Db, id: string, quoteId: string, order: seq<string>)
    requires CanAward(db, id, quoteId) == None && Lists(db, id, order)
    ensures ApplyWrites(db, AwardWrites(db, id, quoteId, order)) == AwardAll(db, id, quoteId)
  {
    var marks := Marks(db, id, quoteId, order);
    MarksAdvance(db, id, quoteId, order);
    AdvancesKeepGoal(db, id, quoteId, marks);
    var t := ApplyWrites(db, marks);
    forall q | q in db.quotes ensures q in t.quotes && t.quotes[q] == AwardAll(db, id, quoteId).quotes[q] {
      MarkedQuote(db, id, quoteId, order, q);
    }
    assert t.quotes == AwardAll(db, id, quoteId).quotes;
    ApplyWritesAppend(db, marks, [MarkAwarded(id, quoteId)]);
    assert ApplyWrites(t, [MarkAwarded(id, quoteId)]) == ApplyWrite(t, MarkAwarded(id, quoteId));
  }

  /** The tables a crash leaves after the first n writes of an award. */
  function Interrupted(db: Db, id: string, quoteId: string, order: seq<string>, n: nat): Db
    requires forall q :: q in order ==> q in db.quotes
    requires n <= |AwardWrites(db, id, quoteId, order)|
  {
    ApplyWrites(db, AwardWrites(db, id, quoteId, order)[..n])
  }

  lemma InterruptedStaysAwardable(db: Db, id: string, quoteId: string, order: seq<string>, n: nat)
    requires CanAward(db, id, quoteId) == None && Lists(db, id, order)
    requires n < |AwardWrites(db, id, quoteId, order)|
    ensures var t := Interrupted(db, id, quoteId, order, n);
      && CanAward(t, id, quoteId) == None && AwardAll(t, id, quoteId) == AwardAll(db, id, quoteId)
      && t.rfqs == db.rfqs && t.quotes.Keys == db.quotes.Keys
      && (forall q :: q in db.quotes ==> t.quotes[q].rfq == db.quotes[q].rfq)
      && (forall q :: q in db.quotes && db.quotes[q].rfq != id ==> t.quotes[q] == db.quotes[q])
  {
    var ws := AwardWrites(db, id, quoteId, order);
    WritesAdvance(db, id, quoteId, order);
    forall w | w in ws[..n] ensures Advances(db, id, quoteId, w) {
      var i :| 0 <= i < n && ws[..n][i] == w;
      assert ws[i] == w;
    }
    AdvancesKeepGoal(db, id, quoteId, ws[..n]);
  }

  /** An award cut off after any number of its writes and retried with the same quote ends in the
      tables an uninterrupted award gives; a retry after the last write is refused and changes
      nothing. Neither ever touches a quote of another RFQ or another RFQ. */
  lemma InterruptedAwardConverges(db: Db, id: string, quoteId: string, order: seq<string>, n: nat, again: seq<string>)
    requires CanAward(db, id, quoteId) == None && Lists(db, id, order)
    requires n <= |AwardWrites(db, id, quoteId, order)|
    requires Lists(Interrupted(db, id, quoteId, order, n), id, again)
    ensures var t := Interrupted(db, id, quoteId, order, n);
      if n < |AwardWrites(db, id, quoteId, order)| then
        && CanAward(t, id, quoteId) == None
        && ApplyWrites(t, AwardWrites(t, id, quoteId, again)) == AwardAll(db, id, quoteId)
      else CanAward(t, id, quoteId) == Some(WrongStatus) && t == AwardAll(db, id, quoteId)
    ensures var t := Interrupted(db, id, quoteId, order, n);
      && (forall q :: q in db.quotes && db.quotes[q].rfq != id ==> q in t.quotes && t.quotes[q] == db.quotes[q])
      && (forall r :: r in db.rfqs && r != id ==> r in t.rfqs && t.rfqs[r] == db.rfqs[r])
  {
    var ws := AwardWrites(db, id, quoteId, order);
    if n < |ws| {
      InterruptedStaysAwardable(db, id, quoteId, order, n);
      AwardWritesComplete(Interrupted(db, id, quoteId, order, n), id, quoteId, again);
    } else {
      assert ws[..n] == ws;
      AwardWritesComplete(db, id, quoteId, order);
    }
  }

  // ---- interrupted again and again, with other RFQs moving on ------------------------------

  /** What may happen before an award is carried through: another attempt at it, cut off after n of its writes,
      or an operation on another RFQ. */
  datatype Meanwhile = Retry(order: seq<string>, n: nat) | Other(op: Op)

  predicate OnOther(db: Db, op: Op, id: string) {
    match op
    case Withdraw(q) => q !in db.quotes || db.quotes[q].rfq != id
    case Expire(batch, _) => id !in batch
    case _ => op.id != id
  }

  ghost predicate Plays(db: Db, id: string, quoteId: string, es: seq<Meanwhile>)
    decreases |es|
  {
    es == [] ||
    match es[0]
    case Retry(order, n) =>
      && Lists(db, id, order) && n < |AwardWrites(db, id, quoteId, order)|
      && Plays(Interrupted(db, id, quoteId, order, n), id, quoteId, es[1..])
    case Other(op) => Enabled(db, op) && OnOther(db, op, id) && Plays(Do(db, op).0, id, quoteId, es[1..])
  }

  ghost function Played(db: Db, id: string, quoteId: string, es: seq<Meanwhile>): Db
    requires Plays(db, id, quoteId, es)
    decreases |es|
  {
    if es == [] then db
    else match es[0]
      case Retry(order, n) => Played(Interrupted(db, id, quoteId, order, n), id, quoteId, es[1..])
      case Other(op) => Played(Do(db, op).0, id, quoteId, es[1..])
  }

  /** The operations on other RFQs among them. */
  function OtherOps(es: seq<Meanwhile>): seq<Op> {
    if es == [] then [] else (if es[0].Other? then [es[0].op] else []) + OtherOps(es[1..])
  }

  /** Tables on their way from db to its award: each quote of the RFQ is where it was or where the award puts it. */
  predicate Halfway(a: Db, db: Db, id: string, quoteId: string)
    requires id in db.rfqs
  {
    && a.rfqs == db.rfqs && a.quotes.Keys == db.quotes.Keys
    && forall k :: k in db.quotes ==>
         a.quotes[k] == db.quotes[k] || (db.quotes[k].rfq == id && a.quotes[k] == AwardAll(db, id, quoteId).quotes[k])
  }

  lemma HalfwaySameAward(a: Db, db: Db, id: string, quoteId: string)
    requires CanAward(db, id, quoteId) == None && Halfway(a, db, id, quoteId)
    ensures CanAward(a, id, quoteId) == None && AwardAll(a, id, quoteId) == AwardAll(db, id, quoteId)
  {
    assert AwardAll(a, id, quoteId).quotes == AwardAll(db, id, quoteId).quotes;
  }

  lemma MarkKeepsHalfway(a: Db, db: Db, id: string, quoteId: string, w: Write)
    requires CanAward(db, id, quoteId) == None && Halfway(a, db, id, quoteId) && Advances(a, id, quoteId, w)
    ensures Halfway(ApplyWrite(a, w), db, id, quoteId)
  {
  }

  lemma {:induction false} MarksKeepHalfway(a: Db, db: Db, id: string, quoteId: string, ws: seq<Write>)
    requires CanAward(db, id, quoteId) == None && Halfway(a, db, id, quoteId)
    requires forall w :: w in ws ==> Advances(a, id, quoteId, w)
    ensures Halfway(ApplyWrites(a, ws), db, id, quoteId)
    decreases |ws|
  {
    if ws != [] {
      assert ws[0] in ws;
      MarkKeepsHalfway(a, db, id, quoteId, ws[0]);
      AdvanceKeepsGoal(a, id, quoteId, ws[0]);
      MarksKeepHalfway(ApplyWrite(a, ws[0]), db, id, quoteId, ws[1..]);
    }
  }

  lemma RetryKeepsHalfway(a: Db, db: Db, id: string, quoteId: string, order: seq<string>, n: nat)
    requires CanAward(db, id, quoteId) == None && Halfway(a, db, id, quoteId)
    requires Lists(a, id, order) && n < |AwardWrites(a, id, quoteId, order)|
    ensures Halfway(Interrupted(a, id, quoteId, order, n), db, id, quoteId)
  {
    HalfwaySameAward(a, db, id, quoteId);
    var ws := AwardWrites(a, id, quoteId, order);
    WritesAdvance(a, id, quoteId, order);
    forall w | w in ws[..n] ensures Advances(a, id, quoteId, w) {
      var i :| 0 <= i < n && ws[..n][i] == w;
      assert ws[i] == w;
    }
    MarksKeepHalfway(a, db, id, quoteId, ws[..n]);
  }

  /** An operation on another RFQ does not see how far the award has got, and leaves it where it is. */
  lemma OtherKeepsHalfway(a: Db, db: Db, id: string, quoteId: string, op: Op)
    requires CanAward(db, id, quoteId) == None && Halfway(a, db, id, quoteId) && Enabled(a, op) && OnOther(a, op, id)
    ensures Enabled(db, op) && Do(a, op).1 == Do(db, op).1
    ensures CanAward(Do(db, op).0, id, quoteId) == None && Halfway(Do(a, op).0, Do(db, op).0, id, quoteId)
  {
    match op
    case Submit(_, _, _, _, _, _, _) => OtherSubmitKeepsHalfway(a, db, id, quoteId, op);
    case Award(_, _) => OtherAwardKeepsHalfway(a, db, id, quoteId, op);
    case _ =>
  }

  lemma OtherSubmitKeepsHalfway(a: Db, db: Db, id: string, quoteId: string, op: Op)
    requires CanAward(db, id, quoteId) == None && Halfway(a, db, id, quoteId)
    requires op.Submit? && Enabled(a, op) && OnOther(a, op, id)
    ensures Do(a, op).1 == Do(db, op).1
    ensures CanAward(Do(db, op).0, id, quoteId) == None && Halfway(Do(a, op).0, Do(db, op).0, id, quoteId)
  {
    assert forall k :: k in db.quotes ==> SameVendor(a.quotes[k], db.quotes[k]);
    assert HasQuoted(a, op.id, op.vendor) == HasQuoted(db, op.id, op.vendor);
  }

  lemma OtherAwardKeepsHalfway(a: Db, db: Db, id: string, quoteId: string, op: Op)
    requires CanAward(db, id, quoteId) == None && Halfway(a, db, id, quoteId) && op.Award? && op.id != id
    ensures Do(a, op).1 == Do(db, op).1
    ensures CanAward(Do(db, op).0, id, quoteId) == None && Halfway(Do(a, op).0, Do(db, op).0, id, quoteId)
  {
    assert forall k :: k in db.quotes ==> SameVendor(a.quotes[k], db.quotes[k]);
    if CanAward(db, op.id, op.quoteId) == None {
      assert forall k :: k in db.quotes && db.quotes[k].rfq == id ==>
        Do(a, op).0.quotes[k] == a.quotes[k] && Do(db, op).0.quotes[k] == db.quotes[k];
    }
  }

  lemma {:induction false} PlayedHalfway(a: Db, db: Db, id: string, quoteId: string, es: seq<Meanwhile>)
    requires CanAward(db, id, quoteId) == None && Halfway(a, db, id, quoteId) && Plays(a, id, quoteId, es)
    ensures Runs(db, OtherOps(es))
    ensures var d := After(db, OtherOps(es));
      CanAward(d, id, quoteId) == None && Halfway(Played(a, id, quoteId, es), d, id, quoteId)
    decreases |es|
  {
    if es != [] {
      match es[0] {
        case Retry(order, n) =>
          RetryKeepsHalfway(a, db, id, quoteId, order, n);
          PlayedHalfway(Interrupted(a, id, quoteId, order, n), db, id, quoteId, es[1..]);
          assert OtherOps(es) == OtherOps(es[1..]);
        case Other(op) =>
          OtherKeepsHalfway(a, db, id, quoteId, op);
          PlayedHalfway(Do(a, op).0, Do(db, op).0, id, quoteId, es[1..]);
          assert OtherOps(es)[1..] == OtherOps(es[1..]);
      }
    }
  }

  /** An award cut off and retried with the same quote any number of times, each retry itself cut off anywhere
      before its last write, with any operations on other RFQs in between, ends once carried through in the
      tables an uninterrupted award gives after those operations alone. */
  lemma ResumedAwardConverges(db: Db, id: string, quoteId: string, es: seq<Meanwhile>, again: seq<string>)
    requires CanAward(db, id, quoteId) == None && Plays(db, id, quoteId, es)
    requires Lists(Played(db, id, quoteId, es), id, again)
    ensures Runs(db, OtherOps(es))
    ensures var t, d := Played(db, id, quoteId, es), After(db, OtherOps(es));
      && CanAward(t, id, quoteId) == None && CanAward(d, id, quoteId) == None
      && ApplyWrites(t, AwardWrites(t, id, quoteId, again)) == AwardAll(d, id, quoteId)
  {
    PlayedHalfway(db, db, id, quoteId, es);
    HalfwaySameAward(Played(db, id, quoteId, es), After(db, OtherOps(es)), id, quoteId);
    AwardWritesComplete(Played(db, id, quoteId, es), id, quoteId, again);
  }

  /** Past its first write an interrupted award has accepted its own quote and no other. */
  lemma InterruptedAcceptsOne(db: Db, id: string, q: string, order: seq<string>, n: nat)
    requires Inv(db) && CanAward(db, id, q) == None && Lists(db, id, order)
    requires 1 <= n < |AwardWrites(db, id, q, order)|
    ensures var t := Interrupted(db, id, q, order, n);
      forall k :: k in t.quotes && t.quotes[k].rfq == id ==> (t.quotes[k].status.Accepted? <==> k == q)
  {
    var ws := AwardWrites(db, id, q, order);
    var t := Interrupted(db, id, q, order, n);
    InterruptedStaysAwardable(db, id, q, order, n);
    WritesAdvance(db, id, q, order);
    forall w | w in ws[..n] ensures Advances(db, id, q, w) {
      var i :| 0 <= i < n && ws[..n][i] == w;
      assert ws[i] == w;
    }
    assert ws[..n][0] == MarkQuote(q, Accepted);
    MarksStick(db, id, q, ws[..n], MarkQuote(q, Accepted));
    assert AwardOk(db, id);
    forall k | k in t.quotes && t.quotes[k].rfq == id && k != q ensures !t.quotes[k].status.Accepted? {
      assert AwardAll(t, id, q).quotes[k] == AwardAll(db, id, q).quotes[k];
    }
  }

  /** Retrying with another quote is different: after a crash past the first write, awarding p
      leaves every quote accepted by either award, so the RFQ has a single accepted quote iff the
      two awards name the same one. */
  lemma OtherRetryAcceptsBoth(db: Db, id: string, q: string, p: string, order: seq<string>, n: nat)
    requires Inv(db) && CanAward(db, id, q) == None && CanAward(db, id, p) == None && Lists(db, id, order)
    requires 1 <= n < |AwardWrites(db, id, q, order)|
    ensures var t := Interrupted(db, id, q, order, n);
      && CanAward(t, id, p) == None
      && (forall k :: k in t.quotes && t.quotes[k].rfq == id ==>
            (AwardAll(t, id, p).quotes[k].status.Accepted? <==> k == p || k == q))
  {
    InterruptedStaysAwardable(db, id, q, order, n);
    InterruptedAcceptsOne(db, id, q, order, n);
  }

  // ---- the expiry job ---------------------------------------------------------------------

  const EXPIRY_PAGE := 1000

  function OpenRfqs(db: Db): set<string> {
    set r | r in db.rfqs && db.rfqs[r].status.Open?
  }

  function Overdue(db: Db, at: int): set<string> {
    set r | r in db.rfqs && db.rfqs[r].status.Open? && db.rfqs[r].deadline < at
  }

  /** The first page of open RFQs, earliest deadlines first. */
  ghost predicate FirstPage(db: Db, batch: seq<string>) {
    && (forall i, j :: 0 <= i < j < |batch| ==> batch[i] != batch[j])
    && (forall r :: r in batch ==> r in OpenRfqs(db))
    && |batch| <= EXPIRY_PAGE
    && (|batch| < EXPIRY_PAGE ==> forall r :: r in OpenRfqs(db) ==> r in batch)
    && (forall r, b :: r in OpenRfqs(db) && r !in batch && b in batch ==> db.rfqs[b].deadline <= db.rfqs[r].deadline)
  }

  lemma {:induction false} SizeOfDistinct(xs: seq<string>)
    requires forall i, j :: 0 <= i < j < |xs| ==> xs[i] != xs[j]
    ensures |set x | x in xs| == |xs|
  {
    if xs != [] {
      var n := |xs| - 1;
      SizeOfDistinct(xs[..n]);
      assert (set x | x in xs) == (set x | x in xs[..n]) + {xs[n]} by {
        assert xs == xs[..n] + [xs[n]];
      }
      assert xs[n] !in xs[..n];
    }
  }

  lemma SubsetSize(a: set<string>, b: set<string>)
    requires a <= b
    ensures |a| <= |b| && |b - a| == |b| - |a|
  {
    assert b == a + (b - a);
  }

  /** One pass expires exactly the overdue RFQs up to the page size: what is left overdue is the
      excess over a page, so the pass is complete iff at most a page was overdue. */
  lemma ExpiryPass(db: Db, batch: seq<string>, at: int)
    requires FirstPage(db, batch)
    ensures var t := ExpireAll(db, batch, at); var due := |Overdue(db, at)|;
      && |Overdue(t, at)| == (if due <= 1000 then 0 else due - 1000)
      && Overdue(t, at) <= Overdue(db, at)
      && (forall r :: r in db.rfqs && r !in Overdue(db, at) ==> t.rfqs[r] == db.rfqs[r])
  {
    var t, page := ExpireAll(db, batch, at), set r | r in batch;
    SizeOfDistinct(batch);
    assert Overdue(t, at) == Overdue(db, at) - page;
    if Overdue(db, at) - page == {} {
      forall r | r in Overdue(db, at) ensures r in page {
        assert r !in Overdue(db, at) - page;
      }
      SubsetSize(Overdue(db, at), page);
    } else {
      var r :| r in Overdue(db, at) - page;
      assert r in OpenRfqs(db);
      assert page <= Overdue(db, at) by {
        forall b | b in page ensures b in Overdue(db, at) {
          assert b in batch && b in OpenRfqs(db);
        }
      }
      SubsetSize(page, Overdue(db, at));
    }
  }

  /** The RFQs of a page that a pass expires. */
  function ExpiredBy(db: Db, page: seq<string>, at: int): set<string> {
    set r | r in db.rfqs && r in page && db.rfqs[r].deadline < at
  }

  lemma ExpireOneMore(db: Db, page: seq<string>, r: string, at: int)
    requires r in db.rfqs && r !in page
    ensures ExpireAll(db, page + [r], at) ==
      if db.rfqs[r].deadline < at then SetStatus(ExpireAll(db, page, at), r, Expired) else ExpireAll(db, page, at)
    ensures |ExpiredBy(db, page + [r], at)| == |ExpiredBy(db, page, at)| + if db.rfqs[r].deadline < at then 1 else 0
  {
    if db.rfqs[r].deadline < at {
      assert ExpiredBy(db, page + [r], at) == ExpiredBy(db, page, at) + {r};
      assert ExpireAll(db, page + [r], at).rfqs == SetStatus(ExpireAll(db, page, at), r, Expired).rfqs;
    } else {
      assert ExpiredBy(db, page + [r], at) == ExpiredBy(db, page, at);
      assert ExpireAll(db, page + [r], at).rfqs == ExpireAll(db, page, at).rfqs;
    }
  }

  /** A pass splits the overdue RFQs into those it expires and those it leaves. */
  lemma ExpirySplits(db: Db, page: seq<string>, at: int)
    requires forall r :: r in page ==> r in OpenRfqs(db)
    ensures |Overdue(db, at)| == |ExpiredBy(db, page, at)| + |Overdue(ExpireAll(db, page, at), at)|
  {
    var marked, left := ExpiredBy(db, page, at), Overdue(ExpireAll(db, page, at), at);
    assert Overdue(db, at) == marked + left;
    assert marked !! left;
  }
}
