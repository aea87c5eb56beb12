/** The feature-flag cache with its database reads, cache stores, background refreshes and flag
    writes taken as separate steps, so that they may interleave in any order. */
module FlagSpec {
  import opened Wrappers

  datatype Flag = Flag(
    key: string, name: string, description: string, defaultValue: bool,
    enabledOrgs: seq<string>, disabledOrgs: seq<string>,
    enabledWorkspaces: seq<string>, disabledWorkspaces: seq<string>)

  datatype Cached = Cached(flag: Flag, loadedAt: int)
  datatype Write = Write(at: int, flag: Flag)

  /** The writes the table has seen, this process's cache and refresh queue, the rows read but not yet
      stored in the cache, and the keys written but not yet dropped from it. */
  datatype State = State(
    now: int, writes: seq<Write>, cache: map<string, Cached>, queue: seq<string>,
    loads: seq<Flag>, deleting: multiset<string>)

  const QUEUE_CAPACITY := 100

  datatype Step =
    | Wait(d: nat)
    | Hit(key: string, ttl: int)   // a lookup that finds the key cached
    | Read(key: string)            // a lookup that misses, or the refresher, reads the row
    | TakeRefresh                  // the refresher takes a key off its queue and reads the row
    | Store(i: nat)                // a row read earlier is stored in the cache
    | SetRow(flag: Flag)           // a flag is written ...
    | Drop(key: string)            // ... and its key dropped from the cache
    | WriteElsewhere(flag: Flag)   // another process writes a flag

  function Rows(writes: seq<Write>): map<string, Flag> {
    if writes == [] then map[]
    else Rows(writes[..|writes| - 1])[writes[|writes| - 1].flag.key := writes[|writes| - 1].flag]
  }

  function ReadRow(s: State, key: string): State {
    if key in Rows(s.writes) then s.(loads := s.loads + [Rows(s.writes)[key]]) else s
  }

  function Apply(s: State, step: Step): State {
    match step
    case Wait(d) => s.(now := s.now + d)
    case Hit(k, ttl) =>
      if k in s.cache && s.now - s.cache[k].loadedAt >= ttl && |s.queue| < QUEUE_CAPACITY
      then s.(queue := s.queue + [k])
      else s
    case Read(k) => ReadRow(s, k)
    case TakeRefresh => if s.queue == [] then s else ReadRow(s.(queue := s.queue[1..]), s.queue[0])
    case Store(i) =>
      if i >= |s.loads| then s
      else
        var f := s.loads[i];
        s.(loads := s.loads[..i] + s.loads[i + 1..], cache := s.cache[f.key := Cached(f, s.now)])
    case SetRow(f) => s.(writes := s.writes + [Write(s.now, f)], deleting := s.deleting + multiset{f.key})
    case Drop(k) => s.(cache := s.cache - {k}, deleting := s.deleting - multiset{k})
    case WriteElsewhere(f) => s.(writes := s.writes + [Write(s.now, f)])
  }

  function After(s: State, steps: seq<Step>): State {
    if steps == [] then s else Apply(After(s, steps[..|steps| - 1]), steps[|steps| - 1])
  }

  const EMPTY := State(0, [], map[], [], [], multiset{})

  // ---- every cached flag is a version the table held --------------------------------------

  /** Some prefix of the writes, all made no later than t, leaves the flag as the row of its key. */
  ghost predicate HeldBy(writes: seq<Write>, f: Flag, t: int) {
    exists n :: HeldAfter(writes, n, f, t)
  }

  ghost predicate HeldAfter(writes: seq<Write>, n: int, f: Flag, t: int) {
    && 0 < n <= |writes|
    && writes[n - 1].at <= t
    && f.key in Rows(writes[..n]) && Rows(writes[..n])[f.key] == f
  }

  ghost predicate Inv(s: State) {
    && (forall i :: 0 <= i < |s.writes| ==> s.writes[i].at <= s.now)
    && (forall i, j :: 0 <= i <= j < |s.writes| ==> s.writes[i].at <= s.writes[j].at)
    && (forall k :: k in s.cache ==> CachedHeld(s, k))
    && (forall f :: f in s.loads ==> HeldBy(s.writes, f, s.now))
    && |s.queue| <= QUEUE_CAPACITY
  }

  ghost predicate CachedHeld(s: State, k: string)
    requires k in s.cache
  {
    s.cache[k].flag.key == k && s.cache[k].loadedAt <= s.now && HeldBy(s.writes, s.cache[k].flag, s.cache[k].loadedAt)
  }

  lemma HeldLater(writes: seq<Write>, more: seq<Write>, f: Flag, t: int, u: int)
    requires HeldBy(writes, f, t) && t <= u
    ensures HeldBy(writes + more, f, u)
  {
    var n :| HeldAfter(writes, n, f, t);
    assert (writes + more)[..n] == writes[..n];
    assert HeldAfter(writes + more, n, f, u);
  }

  lemma {:induction false} RowKeys(writes: seq<Write>)
    ensures forall k :: k in Rows(writes) ==> Rows(writes)[k].key == k
  {
    if writes != [] {
      RowKeys(writes[..|writes| - 1]);
    }
  }

  lemma RowIsHeld(s: State, k: string)
    requires Inv(s) && k in Rows(s.writes)
    ensures HeldBy(s.writes, Rows(s.writes)[k], s.now)
  {
    RowKeys(s.writes);
    assert s.writes[..|s.writes|] == s.writes;
    assert HeldAfter(s.writes, |s.writes|, Rows(s.writes)[k], s.now);
  }

  lemma ReadKeepsInv(s: State, k: string)
    requires Inv(s)
    ensures Inv(ReadRow(s, k))
  {
    var t := ReadRow(s, k);
    if k in Rows(s.writes) {
      RowIsHeld(s, k);
    }
    forall j | j in t.cache ensures CachedHeld(t, j) {
      assert CachedHeld(s, j);
    }
  }

  lemma WriteKeepsInv(s: State, t: State, f: Flag)
    requires Inv(s) && t.writes == s.writes + [Write(s.now, f)]
    requires t.now == s.now && t.cache == s.cache && t.loads == s.loads && t.queue == s.queue
    ensures Inv(t)
  {
    forall k | k in t.cache ensures CachedHeld(t, k) {
      assert CachedHeld(s, k);
      HeldLater(s.writes, [Write(s.now, f)], s.cache[k].flag, s.cache[k].loadedAt, s.cache[k].loadedAt);
    }
    forall g | g in t.loads ensures HeldBy(t.writes, g, t.now) {
      HeldLater(s.writes, [Write(s.now, f)], g, s.now, s.now);
    }
  }

  lemma StoreKeepsInv(s: State, i: nat)
    requires Inv(s) && i < |s.loads|
    ensures Inv(Apply(s, Store(i)))
  {
    var t := Apply(s, Store(i));
    assert s.loads[i] in s.loads;
    forall k | k in t.cache ensures CachedHeld(t, k) {
      if k != s.loads[i].key {
        assert CachedHeld(s, k);
      }
    }
    forall f | f in t.loads ensures HeldBy(t.writes, f, t.now) {
      assert f in s.loads;
    }
  }

  lemma WaitKeepsInv(s: State, d: nat)
    requires Inv(s)
    ensures Inv(Apply(s, Wait(d)))
  {
    var t := Apply(s, Wait(d));
    assert s.writes + [] == s.writes;
    forall k | k in t.cache ensures CachedHeld(t, k) {
      assert CachedHeld(s, k);
    }
    forall f | f in t.loads ensures HeldBy(t.writes, f, t.now) {
      HeldLater(s.writes, [], f, s.now, t.now);
    }
  }

  lemma StepKeepsInv(s: State, step: Step)
    requires Inv(s)
    ensures Inv(Apply(s, step))
  {
    var t := Apply(s, step);
    match step {
      case Wait(d) => WaitKeepsInv(s, d);
      case Read(k) => ReadKeepsInv(s, k);
      case TakeRefresh =>
        if s.queue != [] {
          var u := s.(queue := s.queue[1..]);
          forall k | k in u.cache ensures CachedHeld(u, k) {
            assert CachedHeld(s, k);
          }
          ReadKeepsInv(u, s.queue[0]);
        }
      case Store(i) => if i < |s.loads| { StoreKeepsInv(s, i); }
      case SetRow(f) => WriteKeepsInv(s, t, f);
      case WriteElsewhere(f) => WriteKeepsInv(s, t, f);
      case _ =>
        forall k | k in t.cache ensures CachedHeld(t, k) {
          assert CachedHeld(s, k);
        }
    }
  }

  lemma {:induction false} RunKeepsInv(steps: seq<Step>)
    ensures Inv(After(EMPTY, steps))
  {
    if steps != [] {
      RunKeepsInv(steps[..|steps| - 1]);
      StepKeepsInv(After(EMPTY, steps[..|steps| - 1]), steps[|steps| - 1]);
    }
  }

  /** Whatever interleaves, a lookup that finds the key cached returns a flag the table held as the row of that
      key, written no later than the entry's load time; and a lookup that misses returns the row it read, which
      the table held by then. */
  lemma EveryFlagWasHeld(steps: seq<Step>, key: string)
    ensures var s := After(EMPTY, steps);
      && (key in s.cache ==>
            && s.cache[key].flag.key == key && s.cache[key].loadedAt <= s.now
            && HeldBy(s.writes, s.cache[key].flag, s.cache[key].loadedAt))
      && (forall i :: 0 <= i < |s.loads| ==> HeldBy(s.writes, s.loads[i], s.now))
  {
    RunKeepsInv(steps);
    var s := After(EMPTY, steps);
    assert key in s.cache ==> CachedHeld(s, key);
    forall i | 0 <= i < |s.loads| ensures HeldBy(s.writes, s.loads[i], s.now) {
      assert s.loads[i] in s.loads;
    }
  }

  // ---- when a cached flag is the current row ----------------------------------------------

  /** Every cached flag is the current row of its key, unless a write of that key has still to drop it. */
  ghost predicate Coherent(s: State) {
    forall k :: k in s.cache && k !in s.deleting ==> Current(s, k)
  }

  ghost predicate Current(s: State, k: string)
    requires k in s.cache
  {
    k in Rows(s.writes) && s.cache[k].flag == Rows(s.writes)[k]
  }

  /** The steps that leave a flag in the cache which is not the current row, with nothing left to drop it:
      storing a row read before its key was rewritten, or a write of a cached key by another process. */
  predicate CachesStaleFlag(s: State, step: Step) {
    match step
    case Store(i) =>
      i < |s.loads| && s.loads[i].key !in s.deleting
      && !(s.loads[i].key in Rows(s.writes) && Rows(s.writes)[s.loads[i].key] == s.loads[i])
    case WriteElsewhere(f) => f.key in s.cache && f.key !in s.deleting && s.cache[f.key].flag != f
    case _ => false
  }

  lemma RowsAfterWrite(writes: seq<Write>, w: Write)
    ensures Rows(writes + [w]) == Rows(writes)[w.flag.key := w.flag]
  {
    assert (writes + [w])[..|writes|] == writes;
  }

  lemma StaleStepBreaksCoherence(s: State, step: Step)
    requires CachesStaleFlag(s, step)
    ensures !Coherent(Apply(s, step))
  {
    var t := Apply(s, step);
    match step {
      case Store(i) => assert !Current(t, s.loads[i].key);
      case WriteElsewhere(f) =>
        RowsAfterWrite(s.writes, Write(s.now, f));
        assert !Current(t, f.key);
    }
  }

  lemma WriteKeepsCoherence(s: State, step: Step)
    requires Coherent(s) && (step.SetRow? || step.WriteElsewhere?) && !CachesStaleFlag(s, step)
    ensures Coherent(Apply(s, step))
  {
    var t := Apply(s, step);
    RowsAfterWrite(s.writes, Write(s.now, step.flag));
    forall k | k in t.cache && k !in t.deleting ensures Current(t, k) {
      assert k !in s.deleting;
      assert Current(s, k);
    }
  }

  lemma OtherStepKeepsCoherence(s: State, step: Step)
    requires Coherent(s) && !step.SetRow? && !step.WriteElsewhere? && !CachesStaleFlag(s, step)
    ensures Coherent(Apply(s, step))
  {
    var t := Apply(s, step);
    assert t.writes == s.writes;
    forall k | k in t.cache && k !in t.deleting ensures Current(t, k) {
      if step.Store? && step.i < |s.loads| && k == s.loads[step.i].key {
      } else {
        assert k in s.cache && t.cache[k] == s.cache[k];
        assert k !in s.deleting;
        assert Current(s, k);
      }
    }
  }

  /** A coherent cache stays coherent exactly when the step is not one of those two. */
  lemma StepKeepsCoherenceIff(s: State, step: Step)
    requires Coherent(s)
    ensures Coherent(Apply(s, step)) <==> !CachesStaleFlag(s, step)
  {
    if CachesStaleFlag(s, step) {
      StaleStepBreaksCoherence(s, step);
    } else if step.SetRow? || step.WriteElsewhere? {
      WriteKeepsCoherence(s, step);
    } else {
      OtherStepKeepsCoherence(s, step);
    }
  }

  // ---- what a setter can rely on ----------------------------------------------------------

  predicate WritesKey(step: Step, key: string) {
    (step.SetRow? || step.WriteElsewhere?) && step.flag.key == key
  }

  /** Every unstored load of the flag's key is the flag itself. */
  predicate LoadsMatch(s: State, f: Flag) {
    forall i :: 0 <= i < |s.loads| && s.loads[i].key == f.key ==> s.loads[i] == f
  }

  predicate Serves(s: State, f: Flag) {
    f.key in s.cache ==> s.cache[f.key].flag == f
  }

  /** A continuation that does not write the flag's key leaves the cache serving the flag, if anything. */
  ghost predicate ServesAfter(s: State, f: Flag, later: seq<Step>) {
    (forall i :: 0 <= i < |later| ==> !WritesKey(later[i], f.key)) ==> Serves(After(s, later), f)
  }

  /** The flag is the row, and neither the cache nor a lookup under way holds another. */
  predicate Settled(s: State, f: Flag) {
    f.key in Rows(s.writes) && Rows(s.writes)[f.key] == f && Serves(s, f) && LoadsMatch(s, f)
  }

  lemma StepKeepsSettled(s: State, f: Flag, step: Step)
    requires Settled(s, f) && !WritesKey(step, f.key)
    ensures Settled(Apply(s, step), f)
  {
    RowKeys(s.writes);
    if step.SetRow? || step.WriteElsewhere? {
      RowsAfterWrite(s.writes, Write(s.now, step.flag));
    }
  }

  lemma {:induction false} SettledStays(s: State, f: Flag, later: seq<Step>)
    requires Settled(s, f) && forall i :: 0 <= i < |later| ==> !WritesKey(later[i], f.key)
    ensures Settled(After(s, later), f)
  {
    if later != [] {
      SettledStays(s, f, later[..|later| - 1]);
      StepKeepsSettled(After(s, later[..|later| - 1]), f, later[|later| - 1]);
    }
  }

  /** When a setter drops its key, with its flag still the row, every continuation that does not write the key
      serves that flag whenever the key is cached, exactly when no unstored load of the key holds another. */
  lemma DropTakesHoldIff(s: State, f: Flag)
    requires f.key in Rows(s.writes) && Rows(s.writes)[f.key] == f
    ensures (forall later :: ServesAfter(Apply(s, Drop(f.key)), f, later)) <==> LoadsMatch(s, f)
  {
    var d := Apply(s, Drop(f.key));
    if LoadsMatch(s, f) {
      forall later ensures ServesAfter(d, f, later) {
        if forall i :: 0 <= i < |later| ==> !WritesKey(later[i], f.key) {
          SettledStays(d, f, later);
        }
      }
    } else {
      var i :| 0 <= i < |s.loads| && s.loads[i].key == f.key && s.loads[i] != f;
      assert After(d, []) == d && [Store(i)][..0] == [];
      assert After(d, [Store(i)]) == Apply(d, Store(i));
      assert !ServesAfter(d, f, [Store(i)]);
    }
  }

  /** So setting a flag takes hold for good exactly when, at the call, every lookup of its key still to be stored
      has read that same flag. */
  lemma SetFlagTakesHoldIff(s: State, f: Flag)
    ensures (forall later :: ServesAfter(Apply(Apply(s, SetRow(f)), Drop(f.key)), f, later)) <==> LoadsMatch(s, f)
  {
    RowsAfterWrite(s.writes, Write(s.now, f));
    DropTakesHoldIff(Apply(s, SetRow(f)), f);
  }

  /** This process is the only writer and never writes a key while a lookup of it is still to be stored. */
  ghost predicate Disciplined(steps: seq<Step>) {
    forall n :: 0 <= n < |steps| ==> WritesAlone(After(EMPTY, steps[..n]), steps[n])
  }

  predicate WritesAlone(s: State, step: Step) {
    && !step.WriteElsewhere?
    && (step.SetRow? ==> forall i :: 0 <= i < |s.loads| ==> s.loads[i].key != step.flag.key)
  }

  ghost predicate LoadsCurrent(s: State) {
    forall i :: 0 <= i < |s.loads| ==> s.loads[i].key in Rows(s.writes) && Rows(s.writes)[s.loads[i].key] == s.loads[i]
  }

  lemma DisciplinedStep(s: State, step: Step)
    requires Coherent(s) && LoadsCurrent(s) && WritesAlone(s, step)
    ensures Coherent(Apply(s, step)) && LoadsCurrent(Apply(s, step))
  {
    StepKeepsCoherenceIff(s, step);
    RowKeys(s.writes);
    if step.SetRow? {
      RowsAfterWrite(s.writes, Write(s.now, step.flag));
    }
  }

  /** In a disciplined run, once every write has dropped its key each cached flag is its row. */
  lemma {:induction false} CachedFlagsAreRows(steps: seq<Step>)
    requires Disciplined(steps)
    ensures Coherent(After(EMPTY, steps)) && LoadsCurrent(After(EMPTY, steps))
    ensures var s := After(EMPTY, steps); s.deleting == multiset{} ==> forall k :: k in s.cache ==> Current(s, k)
  {
    if steps != [] {
      var init := steps[..|steps| - 1];
      forall n | 0 <= n < |init| ensures WritesAlone(After(EMPTY, init[..n]), init[n]) {
        assert init[..n] == steps[..n] && init[n] == steps[n];
      }
      CachedFlagsAreRows(init);
      DisciplinedStep(After(EMPTY, init), steps[|steps| - 1]);
    }
  }

  /** A lookup reads the row, the flag is set and dropped from the cache, and only then the lookup stores. */
  function LateStore(s: State, f: Flag): State {
    Apply(Apply(Apply(Apply(s, Read(f.key)), SetRow(f)), Drop(f.key)), Store(|s.loads|))
  }

  lemma LateStoreLeavesReplacedFlag(s: State, f: Flag)
    requires f.key in Rows(s.writes) && Rows(s.writes)[f.key] != f
    ensures var t := LateStore(s, f);
      && t.deleting == s.deleting && Rows(t.writes) == Rows(s.writes)[f.key := f]
      && f.key in t.cache && t.cache[f.key].flag == Rows(s.writes)[f.key]
  {
    RowsAfterWrite(s.writes, Write(s.now, f));
    RowKeys(s.writes);
    assert s.deleting + multiset{f.key} - multiset{f.key} == s.deleting;
    assert ReadRow(s, f.key).loads[|s.loads|] == Rows(s.writes)[f.key];
  }

  /** So a lookup that read the row before a flag was set may store it after the setter has returned: from
      then on the cache answers with the replaced flag, whatever hits and waits follow. */
  lemma {:induction false} LateStoreServesReplacedFlag(s: State, f: Flag, later: seq<Step>)
    requires f.key in Rows(s.writes) && Rows(s.writes)[f.key] != f && f.key !in s.deleting
    requires forall n :: 0 <= n < |later| ==> later[n].Hit? || later[n].Wait?
    ensures var t := After(LateStore(s, f), later);
      && f.key !in t.deleting && f.key in t.cache
      && t.cache[f.key].flag == Rows(s.writes)[f.key] && f.key in Rows(t.writes) && Rows(t.writes)[f.key] == f
  {
    if later == [] {
      LateStoreLeavesReplacedFlag(s, f);
    } else {
      LateStoreServesReplacedFlag(s, f, later[..|later| - 1]);
    }
  }

  // ---- evaluating a flag ------------------------------------------------------------------

  /** What a flag lists for one scope: switched on, switched off, or neither; the enabled list wins. */
  datatype Override = On | Off | Unlisted

  function Listed(id: string, enabled: seq<string>, disabled: seq<string>): Override {
    if id == "" then Unlisted else if id in enabled then On else if id in disabled then Off else Unlisted
  }

  /** The workspace override if there is one, else the organization override, else the default. */
  function Evaluate(f: Flag, org: string, workspace: string): bool {
    match Listed(workspace, f.enabledWorkspaces, f.disabledWorkspaces)
    case On => true
    case Off => false
    case Unlisted =>
      match Listed(org, f.enabledOrgs, f.disabledOrgs)
      case On => true
      case Off => false
      case Unlisted => f.defaultValue
  }

  /** Precedence in full: on by the workspace; else, unless off by the workspace, on by the organization; else, unless
      off by the organization, by default. An empty id has no override. */
  lemma EvaluateLaw(f: Flag, org: string, workspace: string)
    ensures Evaluate(f, org, workspace) <==>
      || (workspace != "" && workspace in f.enabledWorkspaces)
      || (!(workspace != "" && workspace in f.disabledWorkspaces)
          && (|| (org != "" && org in f.enabledOrgs)
              || (!(org != "" && org in f.disabledOrgs) && f.defaultValue)))
  {
  }

  /** An expired entry is brought up to date: its hit queues it, the refresher reads its row, and the cache then holds
      the current row, loaded now. */
  lemma ExpiredEntryIsRefreshed(s: State, key: string, ttl: int)
    requires key in s.cache && s.now - s.cache[key].loadedAt >= ttl && s.queue == [] && key in Rows(s.writes)
    ensures var hit := Apply(s, Hit(key, ttl)); var t := Apply(Apply(hit, TakeRefresh), Store(|s.loads|));
      && hit == s.(queue := [key]) && t.queue == [] && t.loads == s.loads && t.writes == s.writes
      && t.cache == s.cache[key := Cached(Rows(s.writes)[key], s.now)]
  {
    RowKeys(s.writes);
  }

  /** A hit on a fresh entry, on an absent key, or with the queue full, changes nothing. */
  lemma OtherHitsChangeNothing(s: State, key: string, ttl: int)
    requires key !in s.cache || s.now - s.cache[key].loadedAt < ttl || |s.queue| >= 100
    ensures Apply(s, Hit(key, ttl)) == s
  {
  }
}
