/** The dynamic SQL builders: a clause is a list of conditions or assignments that name their
    argument by placeholder number, next to the argument list. A missing column is NULL. */
module Sql {
  import opened Wrappers
  import Like
  import Paging

  datatype Value = Str(s: string) | Bool(b: bool) | Num(n: int)

  type Row = map<string, Value>

  datatype Operator = Eq | AtLeast | AtMost | ILike

  datatype Condition =
    | Compare(column: string, op: Operator, placeholder: nat)
    | Literal(column: string, value: Value)

  datatype Assignment = Set(column: string, placeholder: nat)

  /** A count or list statement; limit and offset are placeholders of the list statement. */
  datatype Select = Select(joined: bool, where: seq<Condition>, limit: Option<nat>, offset: Option<nat>,
      args: seq<Value>)

  datatype Update = Update(sets: seq<Assignment>, key: nat, args: seq<Value>)

  // ---- meaning ----------------------------------------------------------------------------

  function Arg(args: seq<Value>, placeholder: nat): Option<Value> {
    if 1 <= placeholder <= |args| then Some(args[placeholder - 1]) else None
  }

  predicate Holds(op: Operator, left: Value, right: Value) {
    match op
    case Eq => left == right
    case AtLeast => left.Num? && right.Num? && left.n >= right.n
    case AtMost => left.Num? && right.Num? && left.n <= right.n
    case ILike => left.Str? && right.Str? && Like.ILike(right.s, left.s)
  }

  predicate Has(row: Row, column: string, op: Operator, v: Value) {
    column in row && Holds(op, row[column], v)
  }

  predicate Eval(c: Condition, args: seq<Value>, row: Row) {
    match c
    case Compare(column, op, k) => Arg(args, k).Some? && Has(row, column, op, Arg(args, k).value)
    case Literal(column, v) => Has(row, column, Eq, v)
  }

  predicate Where(cs: seq<Condition>, args: seq<Value>, row: Row) {
    forall i :: 0 <= i < |cs| ==> Eval(cs[i], args, row)
  }

  function Filter(rows: seq<Row>, p: Row -> bool): seq<Row> {
    if rows == [] then [] else (if p(rows[0]) then [rows[0]] else []) + Filter(rows[1..], p)
  }

  lemma {:induction false} FilterSame(rows: seq<Row>, p: Row -> bool, q: Row -> bool)
    requires forall row :: p(row) == q(row)
    ensures Filter(rows, p) == Filter(rows, q)
  {
    if rows != [] {
      FilterSame(rows[1..], p, q);
    }
  }

  function RunCount(q: Select, rows: seq<Row>): nat {
    |Filter(rows, row => Where(q.where, q.args, row))|
  }

  /** The rows a list statement returns, given its table (joined or not) in its order. */
  function RunList(q: Select, rows: seq<Row>): Option<seq<Row>> {
    if q.limit.None? || q.offset.None? then None
    else
      var limit, offset := Arg(q.args, q.limit.value), Arg(q.args, q.offset.value);
      if limit.Some? && offset.Some? && limit.value.Num? && offset.value.Num? && limit.value.n >= 0 &&
        offset.value.n >= 0
      then Some(Paging.Slice(Filter(rows, row => Where(q.where, q.args, row)), limit.value.n, offset.value.n))
      else None
  }

  // ---- numbering --------------------------------------------------------------------------

  /** The placeholders of a clause in order of appearance. */
  function Placeholders(cs: seq<Condition>): seq<nat> {
    if cs == [] then []
    else Placeholders(cs[..|cs| - 1]) + (if cs[|cs| - 1].Compare? then [cs[|cs| - 1].placeholder] else [])
  }

  /** $1 to $n, each once and in order, and nothing else. */
  predicate Numbered(cs: seq<Condition>, args: seq<Value>) {
    && Placeholders(cs) == seq(|args|, i requires 0 <= i => i + 1)
    && forall i :: 0 <= i < |cs| && cs[i].Compare? ==> 1 <= cs[i].placeholder <= |args|
  }

  /** Appending one numbered condition with its argument adds exactly that condition. */
  lemma AddCompare(cs: seq<Condition>, args: seq<Value>, column: string, op: Operator, v: Value)
    requires Numbered(cs, args)
    ensures var ds, brgs := cs + [Compare(column, op, |args| + 1)], args + [v];
      Numbered(ds, brgs) && forall row :: Where(ds, brgs, row) <==> Where(cs, args, row) && Has(row, column, op, v)
  {
    var ds, brgs := cs + [Compare(column, op, |args| + 1)], args + [v];
    assert ds[..|cs|] == cs;
    assert Placeholders(ds) == Placeholders(cs) + [|args| + 1];
    forall row ensures Where(ds, brgs, row) <==> Where(cs, args, row) && Has(row, column, op, v) {
      assert ds[|cs|] == Compare(column, op, |args| + 1);
      assert Eval(ds[|cs|], brgs, row) <==> Has(row, column, op, v);
      assert forall i :: 0 <= i < |cs| ==> ds[i] == cs[i] && (Eval(cs[i], brgs, row) <==> Eval(cs[i], args, row));
    }
  }

  lemma AddLiteral(cs: seq<Condition>, args: seq<Value>, column: string, v: Value)
    requires Numbered(cs, args)
    ensures var ds := cs + [Literal(column, v)];
      Numbered(ds, args) && forall row :: Where(ds, args, row) <==> Where(cs, args, row) && Has(row, column, Eq, v)
  {
    var ds := cs + [Literal(column, v)];
    assert ds[..|cs|] == cs;
    forall row ensures Where(ds, args, row) <==> Where(cs, args, row) && Has(row, column, Eq, v) {
      assert ds[|cs|] == Literal(column, v);
      assert forall i :: 0 <= i < |cs| ==> ds[i] == cs[i];
    }
  }

  /** Arguments appended after the clause do not change its meaning. */
  lemma LaterArgs(cs: seq<Condition>, args: seq<Value>, more: seq<Value>)
    requires Numbered(cs, args)
    ensures forall row :: Where(cs, args + more, row) <==> Where(cs, args, row)
  {
    forall row ensures Where(cs, args + more, row) <==> Where(cs, args, row) {
      assert forall i :: 0 <= i < |cs| ==> (Eval(cs[i], args + more, row) <==> Eval(cs[i], args, row));
    }
  }

  /** A list statement built by appending page size and offset reads the page it is asked for. */
  lemma ListReadsPage(joined: bool, cs: seq<Condition>, args: seq<Value>, matches: Row -> bool, page: int,
      perPage: int, rows: seq<Row>)
    requires Numbered(cs, args) && page >= 1 && perPage >= 1
    requires forall row :: Where(cs, args, row) <==> matches(row)
    ensures RunCount(Select(joined, cs, None, None, args), rows) == |Filter(rows, matches)|
    ensures RunList(Select(joined, cs, Some(|args| + 1), Some(|args| + 2),
      args + [Num(perPage), Num((page - 1) * perPage)]), rows)
      == Some(Paging.Page(Filter(rows, matches), page, perPage))
  {
    var all := args + [Num(perPage), Num((page - 1) * perPage)];
    LaterArgs(cs, args, [Num(perPage), Num((page - 1) * perPage)]);
    FilterSame(rows, row => Where(cs, args, row), matches);
    FilterSame(rows, row => Where(cs, all, row), matches);
    Paging.OffsetNonNegative(page, perPage);
    assert all[|args|] == Num(perPage) && all[|args| + 1] == Num((page - 1) * perPage);
  }

  function TextArg(v: Option<string>): Option<Value> {
    if v.Some? then Some(Str(v.value)) else None
  }

  function TimeArg(v: Option<int>): Option<Value> {
    if v.Some? then Some(Num(v.value)) else None
  }

  function FlagArg(v: Option<bool>): Option<Value> {
    if v.Some? then Some(Bool(v.value)) else None
  }

  /** One optional filter: the block each builder repeats with its own column. */
  method AddFilter(conditions: seq<Condition>, args: seq<Value>, argNum: nat, column: string, op: Operator,
      v: Option<Value>)
    returns (newConditions: seq<Condition>, newArgs: seq<Value>, newArgNum: nat)
    requires Numbered(conditions, args) && argNum == |args| + 1
    ensures newArgNum == |newArgs| + 1 && Numbered(newConditions, newArgs)
    ensures forall row :: Where(newConditions, newArgs, row) <==>
      Where(conditions, args, row) && (v.Some? ==> Has(row, column, op, v.value))
  {
    newConditions, newArgs, newArgNum := conditions, args, argNum;
    if v.Some? {
      AddCompare(conditions, args, column, op, v.value);
      newConditions := newConditions + [Compare(column, op, newArgNum)];
      newArgs := newArgs + [v.value];
      newArgNum := newArgNum + 1;
    }
  }

  // ---- vendors ----------------------------------------------------------------------------

  datatype VendorFilter = VendorFilter(
    operatorOrg: Option<string>, status: Option<string>, isVerified: Option<bool>, isCertified: Option<bool>,
    search: Option<string>, page: int, perPage: int)

  /** A vendor row (joined to an operator's list entry when an operator is given) passes the filter. */
  predicate VendorMatches(f: VendorFilter, row: Row) {
    && (f.operatorOrg.Some? ==>
          Has(row, "ovl.operator_org_id", Eq, Str(f.operatorOrg.value)) && Has(row, "ovl.status", Eq, Str("active")))
    && (f.status.Some? ==> Has(row, "v.status", Eq, Str(f.status.value)))
    && (f.isVerified.Some? ==> Has(row, "v.is_verified", Eq, Bool(f.isVerified.value)))
    && (f.isCertified.Some? ==> Has(row, "v.is_certified", Eq, Bool(f.isCertified.value)))
    && (f.search.Some? && f.search.value != "" ==> Has(row, "v.name", ILike, Str("%" + f.search.value + "%")))
  }

  method BuildVendorWhere(f: VendorFilter) returns (conditions: seq<Condition>, args: seq<Value>, argIndex: nat)
    ensures argIndex == |args| + 1 && Numbered(conditions, args)
    ensures forall row :: Where(conditions, args, row) <==> VendorMatches(f, row)
  {
    conditions, args, argIndex := [], [], 1;
    if f.operatorOrg.Some? {
      conditions, args, argIndex := AddFilter(conditions, args, argIndex, "ovl.operator_org_id", Eq,
        TextArg(f.operatorOrg));
      AddLiteral(conditions, args, "ovl.status", Str("active"));
      conditions := conditions + [Literal("ovl.status", Str("active"))];
    }
    conditions, args, argIndex := AddFilter(conditions, args, argIndex, "v.status", Eq, TextArg(f.status));
    conditions, args, argIndex := AddFilter(conditions, args, argIndex, "v.is_verified", Eq, FlagArg(f.isVerified));
    conditions, args, argIndex := AddFilter(conditions, args, argIndex, "v.is_certified", Eq, FlagArg(f.isCertified));
    var pattern := if f.search.Some? && f.search.value != "" then Some(Str("%" + f.search.value + "%")) else None;
    conditions, args, argIndex := AddFilter(conditions, args, argIndex, "v.name", ILike, pattern);
  }

  /** The vendor listing: its count statement counts the matching rows and its list statement
      returns page `page` of them, for every table, with the clamped page and page size. */
  method ListVendors(f: VendorFilter) returns (count: Select, list: Select, page: int, perPage: int)
    ensures count.joined == list.joined == f.operatorOrg.Some?
    ensures page == (if f.page < 1 then 1 else f.page) && 1 <= perPage <= 100
    ensures perPage == (if 1 <= f.perPage <= 100 then f.perPage else 20)
    ensures forall rows :: RunCount(count, rows) == |Filter(rows, row => VendorMatches(f, row))|
    ensures forall rows ::
      RunList(list, rows) == Some(Paging.Page(Filter(rows, row => VendorMatches(f, row)), page, perPage))
  {
    var conditions, args, argIndex := BuildVendorWhere(f);
    count := Select(f.operatorOrg.Some?, conditions, None, None, args);
    page, perPage := f.page, f.perPage;
    if page < 1 {
      page := 1;
    }
    if perPage < 1 || perPage > 100 {
      perPage := 20;
    }
    var offset := (page - 1) * perPage;
    list := Select(f.operatorOrg.Some?, conditions, Some(argIndex), Some(argIndex + 1),
      args + [Num(perPage), Num(offset)]);
    forall rows: seq<Row>
      ensures RunCount(count, rows) == |Filter(rows, row => VendorMatches(f, row))|
      ensures RunList(list, rows) == Some(Paging.Page(Filter(rows, row => VendorMatches(f, row)), page, perPage))
    {
      ListReadsPage(f.operatorOrg.Some?, conditions, args, row => VendorMatches(f, row), page, perPage, rows);
    }
  }

  // ---- port calls -------------------------------------------------------------------------

  datatype PortCallFilter = PortCallFilter(
    workspace: Option<string>, vessel: Option<string>, port: Option<string>, status: Option<string>,
    etaFrom: Option<int>, etaTo: Option<int>, page: int, perPage: int)

  predicate PortCallMatches(f: PortCallFilter, row: Row) {
    && (f.workspace.Some? ==> Has(row, "pc.workspace_id", Eq, Str(f.workspace.value)))
    && (f.vessel.Some? ==> Has(row, "pc.vessel_id", Eq, Str(f.vessel.value)))
    && (f.port.Some? ==> Has(row, "pc.port_id", Eq, Str(f.port.value)))
    && (f.status.Some? ==> Has(row, "pc.status", Eq, Str(f.status.value)))
    && (f.etaFrom.Some? ==> Has(row, "pc.eta", AtLeast, Num(f.etaFrom.value)))
    && (f.etaTo.Some? ==> Has(row, "pc.eta", AtMost, Num(f.etaTo.value)))
  }

  method BuildPortCallWhere(f: PortCallFilter) returns (conditions: seq<Condition>, args: seq<Value>, argNum: nat)
    ensures argNum == |args| + 1 && Numbered(conditions, args)
    ensures forall row :: Where(conditions, args, row) <==> PortCallMatches(f, row)
  {
    conditions, args, argNum := [], [], 1;
    conditions, args, argNum := AddFilter(conditions, args, argNum, "pc.workspace_id", Eq, TextArg(f.workspace));
    conditions, args, argNum := AddFilter(conditions, args, argNum, "pc.vessel_id", Eq, TextArg(f.vessel));
    conditions, args, argNum := AddFilter(conditions, args, argNum, "pc.port_id", Eq, TextArg(f.port));
    conditions, args, argNum := AddFilter(conditions, args, argNum, "pc.status", Eq, TextArg(f.status));
    conditions, args, argNum := AddFilter(conditions, args, argNum, "pc.eta", AtLeast, TimeArg(f.etaFrom));
    conditions, args, argNum := AddFilter(conditions, args, argNum, "pc.eta", AtMost, TimeArg(f.etaTo));
  }

  /** The port call listing; unlike the vendor one it has no upper clamp on the page size, and it
      reports the caller's own paging numbers, which are the ones used iff both are positive. */
  method ListPortCalls(f: PortCallFilter)
    returns (count: Select, list: Select, page: int, perPage: int, reportedPage: int, reportedPerPage: int)
    ensures reportedPage == page && reportedPerPage == perPage <==> f.page > 0 && f.perPage > 0
    ensures page == (if f.page <= 0 then 1 else f.page) && perPage == (if f.perPage <= 0 then 20 else f.perPage)
    ensures forall rows :: RunCount(count, rows) == |Filter(rows, row => PortCallMatches(f, row))|
    ensures forall rows ::
      RunList(list, rows) == Some(Paging.Page(Filter(rows, row => PortCallMatches(f, row)), page, perPage))
  {
    var conditions, args, argNum := BuildPortCallWhere(f);
    count := Select(false, conditions, None, None, args);
    var filter := f;
    if filter.perPage <= 0 {
      filter := filter.(perPage := 20);
    }
    if filter.page <= 0 {
      filter := filter.(page := 1);
    }
    var offset := (filter.page - 1) * filter.perPage;
    list := Select(false, conditions, Some(argNum), Some(argNum + 1), args + [Num(filter.perPage), Num(offset)]);
    page, perPage, reportedPage, reportedPerPage := filter.page, filter.perPage, f.page, f.perPage;
    forall rows: seq<Row>
      ensures RunCount(count, rows) == |Filter(rows, row => PortCallMatches(f, row))|
      ensures RunList(list, rows) == Some(Paging.Page(Filter(rows, row => PortCallMatches(f, row)), page, perPage))
    {
      ListReadsPage(false, conditions, args, row => PortCallMatches(f, row), page, perPage, rows);
    }
  }

  /** The rows of a table, in the order the listing keeps, that pass the filter. */
  function VendorsMatching(f: VendorFilter, rows: seq<Row>): seq<Row> {
    Filter(rows, row => VendorMatches(f, row))
  }

  /** A page request differs from its filter in the paging numbers only. */
  lemma SameFilter(f: VendorFilter, page: int, rows: seq<Row>)
    ensures VendorsMatching(f.(page := page), rows) == VendorsMatching(f, rows)
  {
    var g := f.(page := page);
    FilterSame(rows, row => VendorMatches(g, row), row => VendorMatches(f, row));
  }

  /** Reading the vendor listing page by page, as many pages as its reported total and page size call for, returns
      every matching row once and in order; the total is their number. */
  method VendorPagesCoverMatches(f: VendorFilter, rows: seq<Row>) returns (all: seq<Row>, total: nat)
    ensures all == VendorsMatching(f, rows) && total == |all|
  {
    var count, list, page, perPage := ListVendors(f.(page := 1));
    SameFilter(f, 1, rows);
    ghost var matching := VendorsMatching(f, rows);
    total := RunCount(count, rows);
    all := [];
    for p := 0 to Paging.PageCount(total, perPage)
      invariant all == Paging.Pages(matching, p, perPage)
    {
      var _, pageList, _, size := ListVendors(f.(page := p + 1));
      SameFilter(f, p + 1, rows);
      assert size == perPage && RunList(pageList, rows) == Some(Paging.Page(matching, p + 1, perPage));
      all := all + RunList(pageList, rows).value;
    }
    Paging.AllPagesAreAllRows(matching, perPage);
  }

  function PortCallsMatching(f: PortCallFilter, rows: seq<Row>): seq<Row> {
    Filter(rows, row => PortCallMatches(f, row))
  }

  lemma SamePortCallFilter(f: PortCallFilter, page: int, rows: seq<Row>)
    ensures PortCallsMatching(f.(page := page), rows) == PortCallsMatching(f, rows)
  {
    var g := f.(page := page);
    FilterSame(rows, row => PortCallMatches(g, row), row => PortCallMatches(f, row));
  }

  /** So does reading the port call listing, by the page size it uses; that is the one it reports exactly when the
      filter gives a positive one. */
  method PortCallPagesCoverMatches(f: PortCallFilter, rows: seq<Row>)
    returns (all: seq<Row>, total: nat, reportsSize: bool)
    ensures all == PortCallsMatching(f, rows) && total == |all|
    ensures reportsSize <==> f.perPage > 0
  {
    var count, list, page, perPage, reportedPage, reportedPerPage := ListPortCalls(f.(page := 1));
    SamePortCallFilter(f, 1, rows);
    ghost var matching := PortCallsMatching(f, rows);
    total := RunCount(count, rows);
    reportsSize := reportedPage == page && reportedPerPage == perPage;
    all := [];
    for p := 0 to Paging.PageCount(total, perPage)
      invariant all == Paging.Pages(matching, p, perPage)
    {
      var _, pageList, _, size, _, _ := ListPortCalls(f.(page := p + 1));
      SamePortCallFilter(f, p + 1, rows);
      assert size == perPage && RunList(pageList, rows) == Some(Paging.Page(matching, p + 1, perPage));
      all := all + RunList(pageList, rows).value;
    }
    Paging.AllPagesAreAllRows(matching, perPage);
  }

  // ---- updates ----------------------------------------------------------------------------

  /** The row after the SET list, left to right. */
  function Assign(sets: seq<Assignment>, args: seq<Value>, row: Row): Row {
    if sets == [] then row
    else
      var before, last := Assign(sets[..|sets| - 1], args, row), sets[|sets| - 1];
      if Arg(args, last.placeholder).Some? then before[last.column := Arg(args, last.placeholder).value] else before
  }

  predicate SetsNumbered(sets: seq<Assignment>, args: seq<Value>) {
    |sets| == |args| && forall i :: 0 <= i < |sets| ==> sets[i].placeholder == i + 1
  }

  lemma {:induction false} AssignLaterArgs(sets: seq<Assignment>, args: seq<Value>, more: seq<Value>, row: Row)
    requires forall i :: 0 <= i < |sets| ==> 1 <= sets[i].placeholder <= |args|
    ensures Assign(sets, args + more, row) == Assign(sets, args, row)
  {
    if sets != [] {
      AssignLaterArgs(sets[..|sets| - 1], args, more, row);
    }
  }

  lemma AddAssignment(sets: seq<Assignment>, args: seq<Value>, column: string, v: Value)
    requires SetsNumbered(sets, args)
    ensures var ts, brgs := sets + [Set(column, |args| + 1)], args + [v];
      SetsNumbered(ts, brgs) && forall row :: Assign(ts, brgs, row) == Assign(sets, args, row)[column := v]
  {
    var ts, brgs := sets + [Set(column, |args| + 1)], args + [v];
    assert ts[..|sets|] == sets;
    forall row ensures Assign(ts, brgs, row) == Assign(sets, args, row)[column := v] {
      AssignLaterArgs(sets, args, [v], row);
      assert ts[|ts| - 1] == Set(column, |args| + 1) && brgs[|args|] == v;
    }
  }

  /** Runs an UPDATE on a table keyed by id. */
  function RunUpdate(u: Update, table: map<string, Row>): map<string, Row> {
    map id | id in table ::
      if Arg(u.args, u.key) == Some(Str(id)) then Assign(u.sets, u.args, table[id]) else table[id]
  }

  datatype PortCallInput = PortCallInput(
    status: Option<string>, eta: Option<int>, etd: Option<int>, ata: Option<int>, atd: Option<int>,
    berthName: Option<string>, berthTerminal: Option<string>, agentId: Option<string>)

  function One(column: string, v: Option<Value>): Row {
    if v.Some? then map[column := v.value] else map[]
  }

  /** The columns an update input sets. */
  function Fields(input: PortCallInput): Row {
    One("status", TextArg(input.status)) + One("eta", TimeArg(input.eta)) + One("etd", TimeArg(input.etd))
    + One("ata", TimeArg(input.ata)) + One("atd", TimeArg(input.atd)) + One("berth_name", TextArg(input.berthName))
    + One("berth_terminal", TextArg(input.berthTerminal)) + One("agent_id", TextArg(input.agentId))
  }

  /** The field-wise overlay: only the given row, only the given columns, and the update time;
      an empty input changes nothing. */
  function Overlay(table: map<string, Row>, id: string, input: PortCallInput, now: int): map<string, Row> {
    if Fields(input) == map[] || id !in table then table
    else table[id := (table[id] + Fields(input))["updated_at" := Num(now)]]
  }

  ghost predicate Assigns(sets: seq<Assignment>, args: seq<Value>, fields: Row) {
    && SetsNumbered(sets, args) && (sets == [] <==> fields == map[])
    && forall row :: Assign(sets, args, row) == row + fields
  }

  lemma AddField(sets: seq<Assignment>, args: seq<Value>, fields: Row, column: string, v: Value)
    requires Assigns(sets, args, fields)
    ensures Assigns(sets + [Set(column, |args| + 1)], args + [v], fields + map[column := v])
  {
    AddAssignment(sets, args, column, v);
    assert column in fields + map[column := v];
    forall row ensures Assign(sets + [Set(column, |args| + 1)], args + [v], row) == row + (fields + map[column := v]) {
      assert (row + fields)[column := v] == row + (fields + map[column := v]);
    }
  }

  /** One optional column of the SET list. */
  method AddOptional(sets: seq<Assignment>, args: seq<Value>, argNum: nat, column: string, v: Option<Value>,
      ghost fields: Row)
    returns (newSets: seq<Assignment>, newArgs: seq<Value>, newArgNum: nat)
    requires Assigns(sets, args, fields) && argNum == |args| + 1
    ensures newArgNum == |newArgs| + 1
    ensures Assigns(newSets, newArgs, fields + One(column, v))
  {
    newSets, newArgs, newArgNum := sets, args, argNum;
    if v.Some? {
      AddField(sets, args, fields, column, v.value);
      newSets := newSets + [Set(column, newArgNum)];
      newArgs := newArgs + [v.value];
      newArgNum := newArgNum + 1;
    } else {
      assert fields + map[] == fields;
    }
  }

  /** The SET list of an input, before the update time. */
  method BuildSets(input: PortCallInput) returns (sets: seq<Assignment>, args: seq<Value>, argNum: nat)
    ensures argNum == |args| + 1 && Assigns(sets, args, Fields(input))
  {
    ghost var times: Row;
    sets, args, argNum, times := BuildStatusAndTimes(input);
    sets, args, argNum := AddOptional(sets, args, argNum, "atd", TimeArg(input.atd), times);
    ghost var f := times + One("atd", TimeArg(input.atd));
    sets, args, argNum := AddOptional(sets, args, argNum, "berth_name", TextArg(input.berthName), f);
    f := f + One("berth_name", TextArg(input.berthName));
    sets, args, argNum := AddOptional(sets, args, argNum, "berth_terminal", TextArg(input.berthTerminal), f);
    f := f + One("berth_terminal", TextArg(input.berthTerminal));
    sets, args, argNum := AddOptional(sets, args, argNum, "agent_id", TextArg(input.agentId), f);
  }

  /** The first four columns of the SET list. */
  method BuildStatusAndTimes(input: PortCallInput)
    returns (sets: seq<Assignment>, args: seq<Value>, argNum: nat, ghost f: Row)
    ensures argNum == |args| + 1 && Assigns(sets, args, f)
    ensures f == One("status", TextArg(input.status)) + One("eta", TimeArg(input.eta)) + One("etd", TimeArg(input.etd))
      + One("ata", TimeArg(input.ata))
  {
    sets, args, argNum := [], [], 1;
    ghost var none: Row := map[];
    assert forall row: Row :: row + none == row;
    sets, args, argNum := AddOptional(sets, args, argNum, "status", TextArg(input.status), none);
    f := One("status", TextArg(input.status));
    assert none + f == f;
    sets, args, argNum := AddOptional(sets, args, argNum, "eta", TimeArg(input.eta), f);
    f := f + One("eta", TimeArg(input.eta));
    sets, args, argNum := AddOptional(sets, args, argNum, "etd", TimeArg(input.etd), f);
    f := f + One("etd", TimeArg(input.etd));
    sets, args, argNum := AddOptional(sets, args, argNum, "ata", TimeArg(input.ata), f);
    f := f + One("ata", TimeArg(input.ata));
  }

  /** Adding the update time and the key turns a SET list into the overlay on one row. */
  lemma FinishedUpdate(sets: seq<Assignment>, args: seq<Value>, fields: Row, id: string, now: int,
      table: map<string, Row>)
    requires Assigns(sets, args, fields)
    ensures RunUpdate(Update(sets + [Set("updated_at", |args| + 1)], |args| + 2, args + [Num(now)] + [Str(id)]), table)
      == if id in table then table[id := (table[id] + fields)["updated_at" := Num(now)]] else table
  {
    var ts, brgs := sets + [Set("updated_at", |args| + 1)], args + [Num(now)];
    AddAssignment(sets, args, "updated_at", Num(now));
    var u := Update(ts, |args| + 2, brgs + [Str(id)]);
    assert Arg(u.args, u.key) == Some(Str(id));
    forall k | k in table
      ensures RunUpdate(u, table)[k] == if k == id then (table[k] + fields)["updated_at" := Num(now)] else table[k]
    {
      AssignLaterArgs(ts, brgs, [Str(id)], table[k]);
    }
  }

  /** The port call update: for every table its statement, or its absence when nothing is given,
      is the overlay of the input on the row with that id. */
  method UpdatePortCall(id: string, input: PortCallInput, now: int) returns (u: Option<Update>)
    ensures forall table: map<string, Row> ::
      (if u.Some? then RunUpdate(u.value, table) else table) == Overlay(table, id, input, now)
  {
    var sets, args, argNum := BuildSets(input);
    if |sets| == 0 {
      return None;
    }
    forall table: map<string, Row> {
      FinishedUpdate(sets, args, Fields(input), id, now, table);
    }
    sets := sets + [Set("updated_at", argNum)];
    args := args + [Num(now)];
    argNum := argNum + 1;
    args := args + [Str(id)];
    u := Some(Update(sets, argNum, args));
  }
}
