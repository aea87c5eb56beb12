/** What each RFQ operation accepts and writes, in the rows' own fields, and what a run leaves of an RFQ's life. */
module RfqLaws {
  import opened Wrappers
  import opened RfqSpec

  // ---- one operation ----------------------------------------------------------------------

  lemma CreateLaw(db: Db, id: string, service: string, call: string, due: Option<int>, invited: seq<string>, at: int)
    requires id !in db.rfqs
    ensures var (t, e) := Do(db, Create(id, service, call, due, invited, at));
      && (e == None <==> service != "" && call != "" && due.Some? && at <= due.value)
      && (e == Some(DeadlinePassed) <==> service != "" && call != "" && due.Some? && due.value < at)
      && (e == None || e == Some(DeadlinePassed) || e == Some(MissingField))
      && t.quotes == db.quotes
      && t.rfqs == if e == None then db.rfqs[id := Rfq(Draft, due.value, invited, None)] else db.rfqs
  {
  }

  /** Only a draft is edited, and only in the fields given. */
  lemma UpdateLaw(db: Db, id: string, deadline: Option<int>, invited: Option<seq<string>>)
    ensures var (t, e) := Do(db, Update(id, deadline, invited));
      && (e == None <==> id in db.rfqs && db.rfqs[id].status == Draft)
      && (e != None ==> t == db)
      && (e == None ==>
            && t.quotes == db.quotes && t.rfqs == db.rfqs[id := t.rfqs[id]]
            && t.rfqs[id].status == Draft && t.rfqs[id].awarded == db.rfqs[id].awarded
            && (deadline.Some? ==> t.rfqs[id].deadline == deadline.value)
            && (deadline.None? ==> t.rfqs[id].deadline == db.rfqs[id].deadline)
            && (invited.Some? ==> t.rfqs[id].invited == invited.value)
            && (invited.None? ==> t.rfqs[id].invited == db.rfqs[id].invited))
  {
  }

  /** A row's status alone changes. */
  predicate OnlyStatus(db: Db, t: Db, id: string, status: RfqStatus) {
    && t.quotes == db.quotes && id in db.rfqs
    && t.rfqs == db.rfqs[id := Rfq(status, db.rfqs[id].deadline, db.rfqs[id].invited, db.rfqs[id].awarded)]
  }

  lemma PublishLaw(db: Db, id: string, at: int)
    ensures var (t, e) := Do(db, Publish(id, at));
      && (e == None <==>
            id in db.rfqs && db.rfqs[id].status == Draft && |db.rfqs[id].invited| > 0 && at <= db.rfqs[id].deadline)
      && (if e == None then OnlyStatus(db, t, id, Open) else t == db)
  {
  }

  lemma CloseLaw(db: Db, id: string)
    ensures var (t, e) := Do(db, Close(id));
      && (e == None <==> id in db.rfqs && db.rfqs[id].status == Open)
      && (if e == None then OnlyStatus(db, t, id, Closed) else t == db)
  {
  }

  lemma CancelLaw(db: Db, id: string)
    ensures var (t, e) := Do(db, Cancel(id));
      && (e == None <==> id in db.rfqs && db.rfqs[id].status in {Draft, Open, Closed, Expired})
      && (if e == None then OnlyStatus(db, t, id, Cancelled) else t == db)
  {
  }

  /** A quote is taken exactly from an invited vendor that has none on the RFQ yet, while it is open and not past its
      deadline, with both prices positive; a missing currency becomes dollars. */
  lemma SubmitLaw(db: Db, q: string, id: string, vendor: string, unit: real, total: real, cur: string, at: int)
    requires q !in db.quotes
    ensures var (t, e) := Do(db, Submit(q, id, vendor, unit, total, cur, at));
      && (e == None <==>
            && id in db.rfqs && db.rfqs[id].status == Open && at <= db.rfqs[id].deadline
            && vendor in db.rfqs[id].invited && unit > 0.0 && total > 0.0
            && forall k :: k in db.quotes ==> !(db.quotes[k].rfq == id && db.quotes[k].vendor == vendor))
      && (e != None ==> t == db)
      && (e == None ==>
            && t.rfqs == db.rfqs && t.quotes == db.quotes[q := t.quotes[q]]
            && t.quotes[q].rfq == id && t.quotes[q].vendor == vendor && t.quotes[q].status == Submitted
            && t.quotes[q].unitPrice == unit && t.quotes[q].totalPrice == total && t.quotes[q].submittedAt == at
            && (cur == "" ==> t.quotes[q].currency == "USD") && (cur != "" ==> t.quotes[q].currency == cur))
  {
  }

  /** Which check refuses a quote when several would: they come in this order. */
  lemma SubmitRefusal(db: Db, q: string, id: string, vendor: string, unit: real, total: real, cur: string, at: int)
    requires q !in db.quotes
    ensures var e := Do(db, Submit(q, id, vendor, unit, total, cur, at)).1;
      && (e == Some(RfqNotFound) <==> id !in db.rfqs)
      && (e == Some(WrongStatus) <==> id in db.rfqs && db.rfqs[id].status != Open)
      && (e == Some(DeadlinePassed) <==> id in db.rfqs && db.rfqs[id].status == Open && db.rfqs[id].deadline < at)
      && (e == Some(NotInvited) ==> vendor !in db.rfqs[id].invited)
      && (e == Some(AlreadyQuoted) ==>
            exists k :: k in db.quotes && db.quotes[k].rfq == id && db.quotes[k].vendor == vendor)
      && (e == Some(BadPrice) ==> unit <= 0.0 || total <= 0.0)
  {
  }

  /** An RFQ is awarded exactly while open or closed, to any quote of its own; the quote is accepted, the RFQ's other
      submitted quotes are rejected, and nothing else changes. */
  lemma AwardLaw(db: Db, id: string, q: string)
    ensures var (t, e) := Do(db, Award(id, q));
      && (e == None <==>
            id in db.rfqs && db.rfqs[id].status in {Open, Closed} && q in db.quotes && db.quotes[q].rfq == id)
      && (e != None ==> t == db)
      && (e == None ==>
            && t.rfqs == db.rfqs[id := Rfq(Awarded, db.rfqs[id].deadline, db.rfqs[id].invited, Some(q))]
            && t.quotes.Keys == db.quotes.Keys && t.quotes[q].status == Accepted
            && forall k :: k in db.quotes ==>
                 && t.quotes[k] == db.quotes[k].(status := t.quotes[k].status)
                 && (k != q && db.quotes[k].rfq == id && db.quotes[k].status == Submitted ==>
                       t.quotes[k].status == Rejected)
                 && (k != q && !(db.quotes[k].rfq == id && db.quotes[k].status == Submitted) ==>
                       t.quotes[k].status == db.quotes[k].status))
  {
  }

  lemma AwardRefusal(db: Db, id: string, q: string)
    ensures var e := Do(db, Award(id, q)).1;
      && (e == Some(RfqNotFound) <==> id !in db.rfqs)
      && (e == Some(WrongStatus) <==> id in db.rfqs && db.rfqs[id].status !in {Open, Closed})
      && (e == Some(QuoteNotFound) <==> id in db.rfqs && db.rfqs[id].status in {Open, Closed} && q !in db.quotes)
      && (e == Some(WrongRfq) <==>
            id in db.rfqs && db.rfqs[id].status in {Open, Closed} && q in db.quotes && db.quotes[q].rfq != id)
  {
  }

  lemma WithdrawLaw(db: Db, q: string)
    ensures var (t, e) := Do(db, Withdraw(q));
      && (e == None <==>
            && q in db.quotes && db.quotes[q].status == Submitted
            && db.quotes[q].rfq in db.rfqs && db.rfqs[db.quotes[q].rfq].status == Open)
      && (e != None ==> t == db)
      && (e == None ==> t.rfqs == db.rfqs && t.quotes == db.quotes[q := db.quotes[q].(status := Withdrawn)])
  {
  }

  /** The expiry job expires exactly the RFQs of its page that are past their deadline. */
  lemma ExpireLaw(db: Db, batch: seq<string>, at: int)
    requires Enabled(db, Expire(batch, at))
    ensures var (t, e) := Do(db, Expire(batch, at));
      && e == None && t.quotes == db.quotes && t.rfqs.Keys == db.rfqs.Keys
      && forall r :: r in db.rfqs ==>
           t.rfqs[r] == if r in batch && db.rfqs[r].deadline < at
                        then Rfq(Expired, db.rfqs[r].deadline, db.rfqs[r].invited, db.rfqs[r].awarded) else db.rfqs[r]
  {
  }

  // ---- runs -------------------------------------------------------------------------------

  lemma RunCons(db: Db, op: Op, rest: seq<Op>)
    requires Enabled(db, op) && Runs(Do(db, op).0, rest)
    ensures Runs(db, [op] + rest) && After(db, [op] + rest) == After(Do(db, op).0, rest)
  {
    assert ([op] + rest)[1..] == rest && ([op] + rest)[0] == op;
  }

  function Life(r: string, q: string, vendor: string, service: string, call: string, deadline: int, unit: real,
      total: real, cur: string, at: int, closed: bool): seq<Op>
  {
    [Create(r, service, call, Some(deadline), [vendor], at)] + ([Publish(r, at)]
      + ([Submit(q, r, vendor, unit, total, cur, at)] + ((if closed then [Close(r)] else []) + [Award(r, q)])))
  }

  /** Created, published and quoted in time, an RFQ is awarded to the quote, whether it was closed first or not: for
      every vendor, deadline and pair of positive prices, whatever the tables hold otherwise. */
  lemma LifeEndsAwarded(db: Db, r: string, q: string, vendor: string, service: string, call: string, deadline: int,
      unit: real, total: real, cur: string, at: int, closed: bool)
    requires Inv(db) && r !in db.rfqs && q !in db.quotes
    requires service != "" && call != "" && at <= deadline && unit > 0.0 && total > 0.0
    ensures var ops := Life(r, q, vendor, service, call, deadline, unit, total, cur, at, closed);
      && Runs(db, ops)
      && var t := After(db, ops);
      && r in t.rfqs && t.rfqs[r].status == Awarded && t.rfqs[r].awarded == Some(q)
      && q in t.quotes && t.quotes[q].status == Accepted && t.quotes[q].totalPrice == total
  {
    forall k | k in db.quotes ensures db.quotes[k].rfq != r {
      assert QuoteOk(db, k);
    }
    var create, publish := Create(r, service, call, Some(deadline), [vendor], at), Publish(r, at);
    var submit, award := Submit(q, r, vendor, unit, total, cur, at), Award(r, q);
    CreateLaw(db, r, service, call, Some(deadline), [vendor], at);
    var a := Do(db, create).0;
    PublishLaw(a, r, at);
    var b := Do(a, publish).0;
    SubmitLaw(b, q, r, vendor, unit, total, cur, at);
    var c := Do(b, submit).0;
    CloseLaw(c, r);
    var d := if closed then Do(c, Close(r)).0 else c;
    AwardLaw(d, r, q);
    RunCons(d, award, []);
    assert [award] + [] == [award] && [] + [award] == [award];
    if closed {
      RunCons(c, Close(r), [award]);
    }
    var rest := (if closed then [Close(r)] else []) + [award];
    assert Runs(c, rest) && After(c, rest) == Do(d, award).0;
    RunCons(b, submit, rest);
    RunCons(a, publish, [submit] + rest);
    RunCons(db, create, [publish] + ([submit] + rest));
  }

  /** The status an operation gives an RFQ, when it is accepted and touches it. */
  function Given(db: Db, op: Op, r: string): Option<RfqStatus>
    requires Enabled(db, op)
  {
    if Do(db, op).1 != None then None
    else match op
      case Create(id, _, _, _, _, _) => if id == r then Some(Draft) else None
      case Publish(id, _) => if id == r then Some(Open) else None
      case Close(id) => if id == r then Some(Closed) else None
      case Cancel(id) => if id == r then Some(Cancelled) else None
      case Award(id, _) => if id == r then Some(Awarded) else None
      case Expire(batch, at) =>
        if r in batch && r in db.rfqs && db.rfqs[r].deadline < at then Some(Expired) else None
      case _ => None
  }

  /** The last status given to it in a run. */
  function LastGiven(db: Db, ops: seq<Op>, r: string): Option<RfqStatus>
    requires Runs(db, ops)
    decreases |ops|
  {
    if ops == [] then None
    else
      var later := LastGiven(Do(db, ops[0]).0, ops[1..], r);
      if later.Some? then later else Given(db, ops[0], r)
  }

  lemma StepGivesStatus(db: Db, op: Op, r: string)
    requires Enabled(db, op)
    ensures var t := Do(db, op).0; var given := Given(db, op, r);
      && (r in t.rfqs <==> r in db.rfqs || given.Some?)
      && (given.Some? ==> t.rfqs[r].status == given.value)
      && (given.None? && r in db.rfqs ==> t.rfqs[r].status == db.rfqs[r].status)
  {
  }

  /** An RFQ has the status the last accepted operation on it gives, and none before it was created. */
  lemma {:induction false} StatusIsLastGiven(db: Db, ops: seq<Op>, r: string)
    requires Runs(db, ops)
    ensures var t, last := After(db, ops), LastGiven(db, ops, r);
      && (r in t.rfqs <==> r in db.rfqs || last.Some?)
      && (r in t.rfqs ==> t.rfqs[r].status == if last.Some? then last.value else db.rfqs[r].status)
    decreases |ops|
  {
    if ops != [] {
      StepGivesStatus(db, ops[0], r);
      StatusIsLastGiven(Do(db, ops[0]).0, ops[1..], r);
    }
  }
}
