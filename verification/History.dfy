/** What the latest of two opposed steps of a run was. */
module History {
  /** The one step came at i, and the other has not come since. */
  predicate LastAt<T(==)>(steps: seq<T>, i: int, on: T, off: T) {
    0 <= i < |steps| && steps[i] == on && forall j :: i < j < |steps| ==> steps[j] != off
  }

  ghost predicate Since<T(!new)>(steps: seq<T>, on: T, off: T) {
    exists i :: LastAt(steps, i, on, off)
  }

  lemma SinceSnoc<T(!new)>(steps: seq<T>, last: T, on: T, off: T)
    requires on != off
    ensures Since(steps + [last], on, off) <==> last == on || (Since(steps, on, off) && last != off)
  {
    var all := steps + [last];
    if last == on {
      assert LastAt(all, |steps|, on, off);
    } else if i :| LastAt(steps, i, on, off) {
      if last != off {
        assert LastAt(all, i, on, off);
      } else {
        forall k ensures !LastAt(all, k, on, off) {
          assert all[|steps|] == off;
        }
      }
    } else {
      forall k ensures !LastAt(all, k, on, off) {
        assert !LastAt(steps, k, on, off);
        assert forall j :: 0 <= j < |steps| ==> all[j] == steps[j];
      }
    }
  }
}
