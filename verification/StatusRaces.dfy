/** Status changes of one row by overlapping requests. A request reads the row, checks the change against the
    transition table and writes it, in separate statements without a transaction. */
module StatusRaces {
  import P = PortCallSpec
  import O = OrderSpec

  /** The row's status, and the changes checked and not yet written. */
  datatype State<S> = State(status: S, waiting: seq<S>)

  datatype Step<S> = Check(to: S) | Write(i: nat)

  type Table<!S> = (S, S) -> bool

  predicate Enabled<S>(legal: Table<S>, s: State<S>, step: Step<S>) {
    match step
    case Check(to) => legal(s.status, to)
    case Write(i) => i < |s.waiting|
  }

  function Apply<S>(legal: Table<S>, s: State<S>, step: Step<S>): State<S>
    requires Enabled(legal, s, step)
  {
    match step
    case Check(to) => s.(waiting := s.waiting + [to])
    case Write(i) => State(s.waiting[i], s.waiting[..i] + s.waiting[i + 1..])
  }

  predicate Runs<S>(legal: Table<S>, s: State<S>, steps: seq<Step<S>>)
    decreases |steps|
  {
    steps == [] || (Enabled(legal, s, steps[0]) && Runs(legal, Apply(legal, s, steps[0]), steps[1..]))
  }

  predicate Moves<S(==)>(legal: Table<S>, from: S, to: S) {
    from == to || legal(from, to)
  }

  /** Every write of the run leaves the status or moves it along an edge of the table. */
  predicate KeepsTable<S(==)>(legal: Table<S>, s: State<S>, steps: seq<Step<S>>)
    requires Runs(legal, s, steps)
    decreases |steps|
  {
    steps == [] ||
    (var t := Apply(legal, s, steps[0]);
     Moves(legal, s.status, t.status) && KeepsTable(legal, t, steps[1..]))
  }

  predicate OnlyWrites<S>(steps: seq<Step<S>>) {
    forall i :: 0 <= i < |steps| ==> steps[i].Write?
  }

  ghost predicate Safe<S(!new)>(legal: Table<S>, s: State<S>, steps: seq<Step<S>>) {
    Runs(legal, s, steps) && OnlyWrites(steps) ==> KeepsTable(legal, s, steps)
  }

  /** All waiting changes are to one status, which the row has or may move to. */
  predicate Agreed<S(==)>(legal: Table<S>, s: State<S>) {
    forall i, j :: 0 <= i < |s.waiting| && 0 <= j < |s.waiting| ==>
      s.waiting[i] == s.waiting[j] && Moves(legal, s.status, s.waiting[i])
  }

  ghost predicate Climbs<S(!new)>(legal: Table<S>, rank: S -> nat) {
    forall a, b :: legal(a, b) ==> rank(a) < rank(b)
  }

  lemma AgreedWrite<S(!new)>(legal: Table<S>, s: State<S>, i: nat)
    requires Agreed(legal, s) && i < |s.waiting|
    ensures Moves(legal, s.status, s.waiting[i]) && Agreed(legal, Apply(legal, s, Write(i)))
  {
  }

  lemma {:induction false} AgreedIsSafe<S(!new)>(legal: Table<S>, s: State<S>, steps: seq<Step<S>>)
    requires Agreed(legal, s)
    ensures Safe(legal, s, steps)
    decreases |steps|
  {
    if steps != [] && Runs(legal, s, steps) && OnlyWrites(steps) {
      AgreedWrite(legal, s, steps[0].i);
      AgreedIsSafe(legal, Apply(legal, s, steps[0]), steps[1..]);
    }
  }

  lemma OneWrite<S(!new)>(legal: Table<S>, s: State<S>, i: nat)
    requires i < |s.waiting|
    ensures Runs(legal, s, [Write(i)]) && KeepsTable(legal, s, [Write(i)]) == Moves(legal, s.status, s.waiting[i])
  {
    var steps: seq<Step<S>> := [Write(i)];
    assert steps[1..] == [];
  }

  /** Written one after the other, the second change starts from the first. */
  lemma TwoWrites<S(!new)>(legal: Table<S>, s: State<S>, i: nat, j: nat) returns (steps: seq<Step<S>>)
    requires i < |s.waiting| && j < |s.waiting| && i != j && !Moves(legal, s.waiting[i], s.waiting[j])
    ensures !Safe(legal, s, steps)
  {
    var t, k := Apply(legal, s, Write(i)), if j < i then j else j - 1;
    assert t.waiting[k] == s.waiting[j];
    OneWrite(legal, t, k);
    steps := [Write(i), Write(k)];
    assert steps[1..] == [Write(k)];
  }

  lemma DisagreedIsUnsafe<S(!new)>(legal: Table<S>, rank: S -> nat, s: State<S>) returns (steps: seq<Step<S>>)
    requires Climbs(legal, rank) && !Agreed(legal, s)
    ensures !Safe(legal, s, steps)
  {
    var i, j :| 0 <= i < |s.waiting| && 0 <= j < |s.waiting| &&
                !(s.waiting[i] == s.waiting[j] && Moves(legal, s.status, s.waiting[i]));
    if !Moves(legal, s.status, s.waiting[i]) {
      OneWrite(legal, s, i);
      steps := [Write(i)];
    } else if Moves(legal, s.waiting[i], s.waiting[j]) {
      steps := TwoWrites(legal, s, j, i);
    } else {
      steps := TwoWrites(legal, s, i, j);
    }
  }

  /** The writes still to come keep to the table in every order exactly when they all write the same status and the
      row has it or may move to it. */
  lemma WaitingWritesSafeIff<S(!new)>(legal: Table<S>, rank: S -> nat, s: State<S>)
    requires Climbs(legal, rank)
    ensures (forall steps :: Safe(legal, s, steps)) <==> Agreed(legal, s)
  {
    if Agreed(legal, s) {
      forall steps ensures Safe(legal, s, steps) {
        AgreedIsSafe(legal, s, steps);
      }
    } else {
      var steps := DisagreedIsUnsafe(legal, rank, s);
      assert !Safe(legal, s, steps);
    }
  }

  predicate SameAsWaiting<S(==)>(s: State<S>, to: S) {
    forall i :: 0 <= i < |s.waiting| ==> s.waiting[i] == to
  }

  /** A change that has passed its check leaves only safe writes exactly when no change to another status was
      waiting at the check. */
  lemma CheckedChangeSafeIff<S(!new)>(legal: Table<S>, rank: S -> nat, s: State<S>, to: S)
    requires Climbs(legal, rank) && legal(s.status, to)
    ensures (forall steps :: Safe(legal, Apply(legal, s, Check(to)), steps)) <==> SameAsWaiting(s, to)
  {
    var t := Apply(legal, s, Check(to));
    WaitingWritesSafeIff(legal, rank, t);
    assert t.waiting[|s.waiting|] == to;
    forall i | 0 <= i < |s.waiting| ensures t.waiting[i] == s.waiting[i] {}
  }

  /** Port calls, by the table of their plain update; orders, by the edges of all their operations. */
  lemma TablesClimb()
    ensures Climbs(P.Legal, P.Rank) && Climbs(O.Edge, O.Rank)
  {
    forall a, b | P.Legal(a, b) ensures P.Rank(a) < P.Rank(b) {
      assert b in P.Allowed(a);
    }
    forall a, b | O.Edge(a, b) ensures O.Rank(a) < O.Rank(b) {
      assert O.Legal(a, b) ==> b in O.Allowed(a);
    }
  }

  /** The condition for the two services. */
  lemma RacingChangesSafeIff(p: State<P.Status>, to: P.Status, o: State<O.Status>, next: O.Status)
    requires P.Legal(p.status, to) && O.Edge(o.status, next)
    ensures (forall steps :: Safe(P.Legal, Apply(P.Legal, p, Check(to)), steps)) <==> SameAsWaiting(p, to)
    ensures (forall steps :: Safe(O.Edge, Apply(O.Edge, o, Check(next)), steps)) <==> SameAsWaiting(o, next)
  {
    TablesClimb();
    CheckedChangeSafeIff(P.Legal, P.Rank, p, to);
    CheckedChangeSafeIff(O.Edge, O.Rank, o, next);
  }

  /** A change nobody overlaps is the plain update's. */
  lemma UndisturbedChange(c: P.Call, i: P.Input)
    requires i.status.Some?
    ensures var s: State<P.Status> := State(c.row.status, []);
      && P.DoUpdate(c, i).1 == Enabled(P.Legal, s, Check(i.status.value))
      && (P.DoUpdate(c, i).1 ==>
            var t := Apply(P.Legal, s, Check(i.status.value));
            Apply(P.Legal, t, Write(0)) == State(P.DoUpdate(c, i).0.row.status, []))
  {
  }

  lemma RunCons<S(!new)>(legal: Table<S>, s: State<S>, step: Step<S>, rest: seq<Step<S>>)
    requires Enabled(legal, s, step) && Runs(legal, Apply(legal, s, step), rest)
    ensures Runs(legal, s, [step] + rest)
    ensures var t := Apply(legal, s, step);
      KeepsTable(legal, s, [step] + rest) <==> Moves(legal, s.status, t.status) && KeepsTable(legal, t, rest)
  {
    assert ([step] + rest)[1..] == rest && ([step] + rest)[0] == step;
  }

  function Overlapping<S>(a: S, b: S): seq<Step<S>> {
    [Check(a)] + ([Check(b)] + ([Write(0)] + [Write(0)]))
  }

  /** Two changes checked together and written one after the other leave the table when the second may not follow
      the first. */
  lemma OverlappingChanges<S(!new)>(legal: Table<S>, from: S, a: S, b: S)
    requires legal(from, a) && legal(from, b) && !Moves(legal, a, b)
    ensures Runs(legal, State(from, []), Overlapping(a, b))
    ensures !KeepsTable(legal, State(from, []), Overlapping(a, b))
  {
    var s0, s1, s2, s3 := State(from, []), State(from, [a]), State(from, [a, b]), State(a, [b]);
    assert Apply(legal, s0, Check(a)) == s1 && Apply(legal, s1, Check(b)) == s2 && Apply(legal, s2, Write(0)) == s3;
    OneWrite(legal, s3, 0);
    RunCons(legal, s2, Write(0), [Write(0)]);
    RunCons(legal, s1, Check(b), [Write(0)] + [Write(0)]);
    RunCons(legal, s0, Check(a), [Check(b)] + ([Write(0)] + [Write(0)]));
  }

  /** The failing case: of two overlapping requests one cancels a planned port call, the other confirms it, and the
      cancelled port call is confirmed. So for an order. */
  lemma CancelledComesBack()
    ensures Runs(P.Legal, State(P.Planned, []), Overlapping(P.Cancelled, P.Confirmed))
    ensures !KeepsTable(P.Legal, State(P.Planned, []), Overlapping(P.Cancelled, P.Confirmed))
    ensures Runs(O.Edge, State(O.Quoted, []), Overlapping(O.Cancelled, O.Confirmed))
    ensures !KeepsTable(O.Edge, State(O.Quoted, []), Overlapping(O.Cancelled, O.Confirmed))
  {
    OverlappingChanges(P.Legal, P.Planned, P.Cancelled, P.Confirmed);
    OverlappingChanges(O.Edge, O.Quoted, O.Cancelled, O.Confirmed);
  }
}
