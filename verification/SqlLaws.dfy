/** What the SQL listings and the update mean, written out in columns, operators and patterns. */
module SqlLaws {
  import opened Wrappers
  import opened Sql
  import Like

  /** The row numbers of the listing's rows. */
  function Picked(rows: seq<Row>, p: Row -> bool): seq<nat> {
    if rows == [] then [] else (if p(rows[0]) then [0] else []) + Shifted(Picked(rows[1..], p))
  }

  function Shifted(at: seq<nat>): seq<nat> {
    seq(|at|, k requires 0 <= k < |at| => at[k] + 1)
  }

  ghost predicate Picks(rows: seq<Row>, p: Row -> bool, at: seq<nat>, picked: seq<Row>) {
    && |at| == |picked|
    && forall k :: 0 <= k < |at| ==> at[k] < |rows| && p(rows[at[k]]) && picked[k] == rows[at[k]]
  }

  lemma PicksLater(rows: seq<Row>, p: Row -> bool, at: seq<nat>, picked: seq<Row>)
    requires rows != [] && Picks(rows[1..], p, at, picked)
    ensures Picks(rows, p, Shifted(at), picked)
  {
    forall k | 0 <= k < |at| ensures at[k] + 1 < |rows| && p(rows[at[k] + 1]) && picked[k] == rows[at[k] + 1] {
      assert rows[1..][at[k]] == rows[at[k] + 1];
    }
  }

  lemma {:induction false} PickedPass(rows: seq<Row>, p: Row -> bool)
    ensures Picks(rows, p, Picked(rows, p), Filter(rows, p))
  {
    if rows != [] {
      var at, picked := Picked(rows[1..], p), Filter(rows[1..], p);
      PickedPass(rows[1..], p);
      PicksLater(rows, p, at, picked);
      if p(rows[0]) {
        assert Picks(rows, p, [0] + Shifted(at), [rows[0]] + picked);
      } else {
        assert [] + Shifted(at) == Shifted(at) && [] + picked == picked;
      }
    }
  }

  predicate Rising(at: seq<nat>) {
    forall j, k :: 0 <= j < k < |at| ==> at[j] < at[k]
  }

  lemma {:induction false} PickedRises(rows: seq<Row>, p: Row -> bool)
    ensures Rising(Picked(rows, p))
  {
    if rows != [] {
      PickedRises(rows[1..], p);
      var shifted := Shifted(Picked(rows[1..], p));
      assert Rising(shifted);
      assert Rising(if p(rows[0]) then [0] + shifted else [] + shifted);
    }
  }

  lemma {:induction false} PickedAll(rows: seq<Row>, p: Row -> bool, i: nat)
    requires i < |rows| && p(rows[i])
    ensures i in Picked(rows, p)
  {
    if i > 0 {
      var later := Picked(rows[1..], p);
      PickedAll(rows[1..], p, i - 1);
      var k :| 0 <= k < |later| && later[k] == i - 1;
      assert Shifted(later)[k] in Shifted(later);
    }
  }

  /** A filtered listing holds the rows that pass, each once and in table order: `at` says which row is where. */
  lemma FilterPicks(rows: seq<Row>, p: Row -> bool) returns (at: seq<nat>)
    ensures |at| == |Filter(rows, p)|
    ensures forall k :: 0 <= k < |at| ==> at[k] < |rows| && p(rows[at[k]]) && Filter(rows, p)[k] == rows[at[k]]
    ensures forall j, k :: 0 <= j < k < |at| ==> at[j] < at[k]
    ensures forall i :: 0 <= i < |rows| && p(rows[i]) ==> i in at
  {
    at := Picked(rows, p);
    PickedPass(rows, p);
    PickedRises(rows, p);
    forall i | 0 <= i < |rows| && p(rows[i]) ensures i in at {
      PickedAll(rows, p, i);
    }
  }

  /** The columns a vendor listing filters on. A search term is looked for anywhere in the name. */
  lemma VendorFilterLaw(f: VendorFilter, row: Row)
    ensures VendorMatches(f, row) <==>
      && (f.operatorOrg.Some? ==>
            && "ovl.operator_org_id" in row && row["ovl.operator_org_id"] == Str(f.operatorOrg.value)
            && "ovl.status" in row && row["ovl.status"] == Str("active"))
      && (f.status.Some? ==> "v.status" in row && row["v.status"] == Str(f.status.value))
      && (f.isVerified.Some? ==> "v.is_verified" in row && row["v.is_verified"] == Bool(f.isVerified.value))
      && (f.isCertified.Some? ==> "v.is_certified" in row && row["v.is_certified"] == Bool(f.isCertified.value))
      && (f.search.Some? && f.search.value != "" ==>
            && "v.name" in row && row["v.name"].Str?
            && Like.Matches(Like.Lower("%" + f.search.value + "%"), Like.Lower(row["v.name"].s)))
  {
  }

  /** A term without pattern characters finds the vendors whose name has it somewhere, up to ASCII case. */
  lemma VendorSearchLaw(f: VendorFilter, row: Row, term: string)
    requires f.operatorOrg == f.status == None && f.isVerified == f.isCertified == None && f.search == Some(term)
    requires term != "" && '%' !in term && '_' !in term && '\\' !in term
    ensures VendorMatches(f, row) <==>
      && "v.name" in row && row["v.name"].Str?
      && exists i :: 0 <= i <= |row["v.name"].s| && Like.Lower(term) <= Like.Lower(row["v.name"].s)[i..]
  {
    if "v.name" in row && row["v.name"].Str? {
      Like.SearchFindsSubstring(term, row["v.name"].s);
    }
  }

  /** The columns a port call listing filters on; the ETA bounds are inclusive. */
  lemma PortCallFilterLaw(f: PortCallFilter, row: Row)
    ensures PortCallMatches(f, row) <==>
      && (f.workspace.Some? ==> "pc.workspace_id" in row && row["pc.workspace_id"] == Str(f.workspace.value))
      && (f.vessel.Some? ==> "pc.vessel_id" in row && row["pc.vessel_id"] == Str(f.vessel.value))
      && (f.port.Some? ==> "pc.port_id" in row && row["pc.port_id"] == Str(f.port.value))
      && (f.status.Some? ==> "pc.status" in row && row["pc.status"] == Str(f.status.value))
      && (f.etaFrom.Some? ==> "pc.eta" in row && row["pc.eta"].Num? && row["pc.eta"].n >= f.etaFrom.value)
      && (f.etaTo.Some? ==> "pc.eta" in row && row["pc.eta"].Num? && row["pc.eta"].n <= f.etaTo.value)
  {
  }

  // ---- the port call update ---------------------------------------------------------------

  /** What an input gives a column; an update with any input gives the update time its own. */
  function Given(input: PortCallInput, now: int, column: string): Option<Value> {
    if column == "status" && input.status.Some? then Some(Str(input.status.value))
    else if column == "eta" && input.eta.Some? then Some(Num(input.eta.value))
    else if column == "etd" && input.etd.Some? then Some(Num(input.etd.value))
    else if column == "ata" && input.ata.Some? then Some(Num(input.ata.value))
    else if column == "atd" && input.atd.Some? then Some(Num(input.atd.value))
    else if column == "berth_name" && input.berthName.Some? then Some(Str(input.berthName.value))
    else if column == "berth_terminal" && input.berthTerminal.Some? then Some(Str(input.berthTerminal.value))
    else if column == "agent_id" && input.agentId.Some? then Some(Str(input.agentId.value))
    else if column == "updated_at" && input != PortCallInput(None, None, None, None, None, None, None, None)
    then Some(Num(now))
    else None
  }

  lemma OneMoreColumn(m: Row, name: string, v: Option<Value>, column: string)
    ensures column in m + One(name, v) <==> column in m || (column == name && v.Some?)
    ensures column == name && v.Some? ==> (m + One(name, v))[column] == v.value
    ensures column in m && (column != name || v.None?) ==> (m + One(name, v))[column] == m[column]
  {
  }

  lemma FieldsGiven(input: PortCallInput, now: int, column: string)
    requires column != "updated_at"
    ensures column in Fields(input) <==> Given(input, now, column).Some?
    ensures column in Fields(input) ==> Given(input, now, column) == Some(Fields(input)[column])
  {
    var a := One("status", TextArg(input.status));
    var b := a + One("eta", TimeArg(input.eta));
    OneMoreColumn(a, "eta", TimeArg(input.eta), column);
    var c := b + One("etd", TimeArg(input.etd));
    OneMoreColumn(b, "etd", TimeArg(input.etd), column);
    var d := c + One("ata", TimeArg(input.ata));
    OneMoreColumn(c, "ata", TimeArg(input.ata), column);
    var e := d + One("atd", TimeArg(input.atd));
    OneMoreColumn(d, "atd", TimeArg(input.atd), column);
    var f := e + One("berth_name", TextArg(input.berthName));
    OneMoreColumn(e, "berth_name", TextArg(input.berthName), column);
    var g := f + One("berth_terminal", TextArg(input.berthTerminal));
    OneMoreColumn(f, "berth_terminal", TextArg(input.berthTerminal), column);
    OneMoreColumn(g, "agent_id", TextArg(input.agentId), column);
  }

  lemma EmptyFields(input: PortCallInput)
    ensures Fields(input) == map[] <==> input == PortCallInput(None, None, None, None, None, None, None, None)
  {
    assert input.status.Some? ==> "status" in Fields(input);
    assert input.eta.Some? ==> "eta" in Fields(input);
    assert input.etd.Some? ==> "etd" in Fields(input);
    assert input.ata.Some? ==> "ata" in Fields(input);
    assert input.atd.Some? ==> "atd" in Fields(input);
    assert input.berthName.Some? ==> "berth_name" in Fields(input);
    assert input.berthTerminal.Some? ==> "berth_terminal" in Fields(input);
    assert input.agentId.Some? ==> "agent_id" in Fields(input);
  }

  /** An update writes each given field to its own column of the row with the id, and leaves every other column and
      every other row as it was. */
  lemma UpdateLaw(table: map<string, Row>, id: string, input: PortCallInput, now: int, column: string)
    requires id in table
    ensures var after, given := Overlay(table, id, input, now), Given(input, now, column);
      && after.Keys == table.Keys && (forall k :: k in table && k != id ==> after[k] == table[k])
      && (given.Some? ==> column in after[id] && after[id][column] == given.value)
      && (given.None? ==> (column in after[id] <==> column in table[id]))
      && (given.None? && column in table[id] ==> after[id][column] == table[id][column])
  {
    EmptyFields(input);
    if column != "updated_at" {
      FieldsGiven(input, now, column);
    }
  }

  /** An id without a row leaves the table alone. */
  lemma MissingRowLaw(table: map<string, Row>, id: string, input: PortCallInput, now: int)
    requires id !in table
    ensures Overlay(table, id, input, now) == table
  {
  }
}
