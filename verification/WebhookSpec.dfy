/** Webhook delivery: the retry loop's outcome as a function of the responses it meets, its back-off, and
    the failure count under overlapping deliveries. */
module WebhookSpec {
  import opened Wrappers

  /** What one attempt meets: the request cannot be built, the call fails, or a response comes back. */
  datatype Outcome = BadRequest | CallFails | Response(code: int)

  datatype DeliveryStatus = Success | Failed
  datatype Delivery = Delivery(attempts: nat, status: DeliveryStatus, code: Option<int>, error: Option<Outcome>)

  predicate Ok(o: Outcome) {
    o.Response? && 200 <= o.code < 300
  }

  /** The back-off slept after an attempt, counted from one; an unbuilt request is retried at once. */
  function Pause(o: Outcome, attempt: nat, delay: nat): nat {
    if o.BadRequest? || Ok(o) then 0 else delay * attempt
  }

  function Slept(outcomes: seq<Outcome>, delay: nat): nat {
    if outcomes == [] then 0
    else Slept(outcomes[..|outcomes| - 1], delay) + Pause(outcomes[|outcomes| - 1], |outcomes|, delay)
  }

  /** The code of the last attempt that got a response. */
  function LastCode(outcomes: seq<Outcome>): Option<int> {
    if outcomes == [] then None
    else if outcomes[|outcomes| - 1].Response? then Some(outcomes[|outcomes| - 1].code)
    else LastCode(outcomes[..|outcomes| - 1])
  }

  /** The attempts made against a list of outcomes: up to and including the first success. */
  function Made(outcomes: seq<Outcome>): seq<Outcome> {
    if outcomes == [] then []
    else
      var before := Made(outcomes[..|outcomes| - 1]);
      if before != [] && Ok(before[|before| - 1]) then before else before + [outcomes[|outcomes| - 1]]
  }

  /** The attempts made are a prefix of the outcomes, only the last of them may be a success, and they stop
      short of all the outcomes only at a success. */
  lemma {:induction false} MadeStopsAtFirstSuccess(outcomes: seq<Outcome>)
    ensures var m := Made(outcomes);
      && m <= outcomes
      && (forall i :: 0 <= i < |m| - 1 ==> !Ok(m[i]))
      && (|m| < |outcomes| ==> m != [] && Ok(m[|m| - 1]))
      && (outcomes != [] ==> m != [])
  {
    if outcomes != [] {
      MadeStopsAtFirstSuccess(outcomes[..|outcomes| - 1]);
    }
  }

  /** A delivery is reported successful exactly when some attempt it may make would succeed. */
  lemma SuccessIffAny(outcomes: seq<Outcome>)
    ensures Report(Made(outcomes)).status.Success? <==> exists o :: o in outcomes && Ok(o)
  {
    var m := Made(outcomes);
    MadeStopsAtFirstSuccess(outcomes);
    if Report(m).status.Success? {
      assert m[|m| - 1] == outcomes[|m| - 1];
    } else if o :| o in outcomes && Ok(o) {
      assert m == outcomes;
    }
  }

  predicate Unsuccessful(outcomes: seq<Outcome>) {
    forall i :: 0 <= i < |outcomes| ==> !Ok(outcomes[i])
  }

  /** One more outcome after the attempts already made. */
  lemma MadeStep(init: seq<Outcome>, last: Outcome)
    ensures Made(init + [last]) ==
      if Made(init) != [] && Ok(Made(init)[|Made(init)| - 1]) then Made(init) else Made(init) + [last]
  {
    var all := init + [last];
    assert all[..|all| - 1] == init && all[|all| - 1] == last;
  }

  lemma UnsuccessfulInit(outcomes: seq<Outcome>)
    requires Unsuccessful(outcomes) && outcomes != []
    ensures Unsuccessful(outcomes[..|outcomes| - 1])
  {
  }

  lemma {:induction false} MadeAll(outcomes: seq<Outcome>)
    requires Unsuccessful(outcomes)
    ensures Made(outcomes) == outcomes
  {
    if outcomes != [] {
      var init, last := outcomes[..|outcomes| - 1], outcomes[|outcomes| - 1];
      UnsuccessfulInit(outcomes);
      MadeAll(init);
      MadeStep(init, last);
      assert outcomes == init + [last];
      assert init != [] ==> !Ok(init[|init| - 1]);
    }
  }

  lemma {:induction false} MadeAtSuccess(init: seq<Outcome>, success: Outcome, rest: seq<Outcome>)
    requires Unsuccessful(init) && Ok(success)
    ensures Made(init + [success] + rest) == init + [success]
  {
    if rest == [] {
      MadeAll(init);
      MadeStep(init, success);
      assert init + [success] + rest == init + [success];
    } else {
      var n := |rest| - 1;
      MadeAtSuccess(init, success, rest[..n]);
      MadeStep(init + [success] + rest[..n], rest[n]);
      assert init + [success] + rest == init + [success] + rest[..n] + [rest[n]];
    }
  }

  lemma MadeUpTo(outcomes: seq<Outcome>, attempt: nat, n: nat)
    requires 1 <= attempt <= n <= |outcomes| && Unsuccessful(outcomes[..attempt - 1]) && Ok(outcomes[attempt - 1])
    ensures Made(outcomes[..n]) == outcomes[..attempt]
  {
    MadeAtSuccess(outcomes[..attempt - 1], outcomes[attempt - 1], outcomes[attempt..n]);
    assert outcomes[..attempt - 1] + [outcomes[attempt - 1]] == outcomes[..attempt];
    assert outcomes[..attempt] + outcomes[attempt..n] == outcomes[..n];
  }

  /** The outcomes the configured number of attempts can meet; none when that number is not positive. */
  function Allotted(outcomes: seq<Outcome>, retryCount: int): seq<Outcome>
    requires |outcomes| >= retryCount
  {
    outcomes[..if retryCount > 0 then retryCount else 0]
  }

  /** The delivery record of the attempts made. */
  function Report(made: seq<Outcome>): Delivery {
    var ok := made != [] && Ok(made[|made| - 1]);
    Delivery(|made|, if ok then Success else Failed, LastCode(made),
             if ok || made == [] then None else Some(made[|made| - 1]))
  }

  function Triangle(n: nat): nat {
    n * (n + 1) / 2
  }

  function Bound(delay: nat, n: nat): nat {
    delay * Triangle(n)
  }

  lemma TriangleStep(n: nat)
    ensures Triangle(n + 1) == Triangle(n) + n + 1
  {
    assert (n + 1) * (n + 2) == n * (n + 1) + 2 * (n + 1);
  }

  lemma MulStep(delay: nat, a: nat, b: nat)
    ensures delay * (a + b) == delay * a + delay * b
  {
  }

  /** The total back-off over any attempts is at most delay * n(n+1)/2, and reaches it when every attempt
      fails with a call error or a non-success response: the loop also sleeps after its last attempt. */
  lemma {:induction false} BackoffBound(outcomes: seq<Outcome>, delay: nat)
    ensures Slept(outcomes, delay) <= Bound(delay, |outcomes|)
    ensures (forall o :: o in outcomes ==> !o.BadRequest? && !Ok(o)) ==>
      Slept(outcomes, delay) == Bound(delay, |outcomes|)
  {
    if outcomes != [] {
      var init, n := outcomes[..|outcomes| - 1], |outcomes| - 1;
      BackoffBound(init, delay);
      TriangleStep(n);
      MulStep(delay, Triangle(n), n + 1);
      assert forall o :: o in init ==> o in outcomes;
      assert outcomes[n] in outcomes;
    }
  }

  /** A delivery that succeeds at some attempt has slept at most the bound of the attempts before it. */
  lemma SuccessBackoff(outcomes: seq<Outcome>, delay: nat)
    requires outcomes != [] && Ok(outcomes[|outcomes| - 1])
    ensures Slept(outcomes, delay) <= Bound(delay, |outcomes| - 1)
  {
    BackoffBound(outcomes[..|outcomes| - 1], delay);
  }

  lemma {:induction false} TriangleRises(a: nat, b: nat)
    requires a <= b
    ensures Triangle(a) <= Triangle(b)
  {
    if a < b {
      TriangleRises(a, b - 1);
      TriangleStep(b - 1);
    }
  }

  lemma BoundRises(delay: nat, a: nat, b: nat)
    requires a <= b
    ensures Bound(delay, a) <= Bound(delay, b)
  {
    TriangleRises(a, b);
    MulStep(delay, Triangle(a), Triangle(b) - Triangle(a));
  }

  /** A whole delivery with n attempts configured sleeps at most delay * n(n+1)/2, and without the last term when
      it succeeds. */
  lemma DeliveryBackoff(outcomes: seq<Outcome>, n: nat, delay: nat)
    requires n <= |outcomes|
    ensures var m := Made(Allotted(outcomes, n));
      && Slept(m, delay) <= Bound(delay, n)
      && (Report(m).status.Success? ==> n > 0 && Slept(m, delay) <= Bound(delay, n - 1))
  {
    var m := Made(Allotted(outcomes, n));
    MadeStopsAtFirstSuccess(Allotted(outcomes, n));
    BackoffBound(m, delay);
    BoundRises(delay, |m|, n);
    if Report(m).status.Success? {
      SuccessBackoff(m, delay);
      BoundRises(delay, |m| - 1, n - 1);
    }
  }

  // ---- the failure count under overlapping deliveries -------------------------------------

  /** What a delivery under way knows: the count it read when it was dispatched. `seen` is history only: how
      many deliveries had finished by then. */
  datatype Reading = Reading(count: nat, seen: nat)

  /** The stored count, the deliveries under way, and the outcomes of the finished ones in order. */
  datatype Counter = Counter(stored: nat, read: seq<Reading>, history: seq<bool>)

  datatype Step = Dispatch | Finish(i: nat, ok: bool)

  const ZERO := Counter(0, [], [])

  function Apply(c: Counter, step: Step): Counter {
    match step
    case Dispatch => c.(read := c.read + [Reading(c.stored, |c.history|)])
    case Finish(i, ok) =>
      if i >= |c.read| then c
      else Counter(if ok then 0 else c.read[i].count + 1, c.read[..i] + c.read[i + 1..], c.history + [ok])
  }

  function After(c: Counter, steps: seq<Step>): Counter {
    if steps == [] then c else Apply(After(c, steps[..|steps| - 1]), steps[|steps| - 1])
  }

  function FailuresSinceSuccess(oks: seq<bool>): nat {
    if oks == [] || oks[|oks| - 1] then 0 else FailuresSinceSuccess(oks[..|oks| - 1]) + 1
  }

  predicate Exact(c: Counter) {
    c.stored == FailuresSinceSuccess(c.history)
  }

  /** If the step ends a delivery in failure, as many deliveries have failed since the last success as had at its
      dispatch. */
  predicate Timely(c: Counter, step: Step) {
    step.Finish? && !step.ok && step.i < |c.read| && c.read[step.i].seen <= |c.history| ==>
      FailuresSinceSuccess(c.history[..c.read[step.i].seen]) == FailuresSinceSuccess(c.history)
  }

  /** Every count read was the true one at its dispatch. */
  predicate ReadingsTrue(c: Counter) {
    forall i :: 0 <= i < |c.read| ==>
      c.read[i].seen <= |c.history| && c.read[i].count == FailuresSinceSuccess(c.history[..c.read[i].seen])
  }

  lemma StepKeepsReadings(c: Counter, step: Step)
    requires ReadingsTrue(c) && Exact(c)
    ensures ReadingsTrue(Apply(c, step))
  {
    var d := Apply(c, step);
    assert c.history[..|c.history|] == c.history;
    forall j | 0 <= j < |d.read|
      ensures d.read[j].seen <= |d.history| && d.read[j].count == FailuresSinceSuccess(d.history[..d.read[j].seen])
    {
      if step.Finish? && step.i < |c.read| {
        var r := c.read[if j < step.i then j else j + 1];
        assert d.read[j] == r && d.history[..r.seen] == c.history[..r.seen];
      }
    }
  }

  lemma FinishStaysExactIff(c: Counter, step: Step)
    requires Exact(c) && ReadingsTrue(c)
    ensures Exact(Apply(c, step)) <==> Timely(c, step)
  {
    if step.Finish? && step.i < |c.read| {
      assert (c.history + [step.ok])[..|c.history|] == c.history;
    }
  }

  predicate ExactAt(steps: seq<Step>, n: int) {
    0 <= n <= |steps| ==> Exact(After(ZERO, steps[..n]))
  }

  predicate TimelyAt(steps: seq<Step>, n: int) {
    0 <= n < |steps| ==> Timely(After(ZERO, steps[..n]), steps[n])
  }

  ghost predicate ExactThroughout(steps: seq<Step>) {
    forall n :: ExactAt(steps, n)
  }

  ghost predicate TimelyThroughout(steps: seq<Step>) {
    forall n :: TimelyAt(steps, n)
  }

  lemma ExactAtSnoc(steps: seq<Step>, m: nat, n: int)
    requires |steps| == m + 1
    ensures ExactAt(steps, n) <==> ExactAt(steps[..m], n) && (n == m + 1 ==> Exact(After(ZERO, steps)))
  {
    if 0 <= n <= m {
      assert steps[..m][..n] == steps[..n];
    } else if n == m + 1 {
      assert steps[..n] == steps;
    }
  }

  lemma TimelyAtSnoc(steps: seq<Step>, m: nat, n: int)
    requires |steps| == m + 1
    ensures TimelyAt(steps, n) <==> TimelyAt(steps[..m], n) && (n == m ==> Timely(After(ZERO, steps[..m]), steps[m]))
  {
    if 0 <= n < m {
      assert steps[..m][..n] == steps[..n] && steps[..m][n] == steps[n];
    }
  }

  lemma ExactSnoc(steps: seq<Step>, m: nat)
    requires |steps| == m + 1
    ensures ExactThroughout(steps) <==> ExactThroughout(steps[..m]) && Exact(After(ZERO, steps))
  {
    forall n ensures ExactAt(steps, n) <==> ExactAt(steps[..m], n) && (n == m + 1 ==> Exact(After(ZERO, steps))) {
      ExactAtSnoc(steps, m, n);
    }
    assert ExactAt(steps, m + 1) <==> ExactAt(steps[..m], m + 1) && Exact(After(ZERO, steps));
  }

  lemma TimelySnoc(steps: seq<Step>, m: nat)
    requires |steps| == m + 1
    ensures TimelyThroughout(steps) <==> TimelyThroughout(steps[..m]) && Timely(After(ZERO, steps[..m]), steps[m])
  {
    var timely := Timely(After(ZERO, steps[..m]), steps[m]);
    forall n ensures TimelyAt(steps, n) <==> TimelyAt(steps[..m], n) && (n == m ==> timely) {
      TimelyAtSnoc(steps, m, n);
    }
    assert TimelyAt(steps, m) <==> TimelyAt(steps[..m], m) && timely;
  }

  /** With deliveries overlapping in any way, the stored count is the number of failures since the last success
      after every prefix of a run exactly when each failing delivery ends with as many such failures as there
      were at its dispatch. */
  lemma {:induction false} CountStaysExactIff(steps: seq<Step>)
    ensures ExactThroughout(steps) <==> TimelyThroughout(steps)
    ensures TimelyThroughout(steps) ==> ReadingsTrue(After(ZERO, steps))
  {
    if steps == [] {
      assert steps[..0] == [];
    } else {
      var init, last := steps[..|steps| - 1], steps[|steps| - 1];
      CountStaysExactIff(init);
      ExactSnoc(steps, |init|);
      TimelySnoc(steps, |init|);
      if TimelyThroughout(init) {
        assert init[..|init|] == init && ExactAt(init, |init|);
        FinishStaysExactIff(After(ZERO, init), last);
        StepKeepsReadings(After(ZERO, init), last);
      }
    }
  }

  /** As long as no success comes in between, that is exactly when no other delivery finished meanwhile. */
  lemma {:induction false} SameStreakIff(history: seq<bool>, seen: nat)
    requires seen <= |history| && true !in history[seen..]
    ensures FailuresSinceSuccess(history) == FailuresSinceSuccess(history[..seen]) + (|history| - seen)
    ensures FailuresSinceSuccess(history[..seen]) == FailuresSinceSuccess(history) <==> seen == |history|
  {
    if seen == |history| {
      assert history[..seen] == history;
    } else {
      var n := |history| - 1;
      assert history[seen..][n - seen] == history[n];
      assert history[..n][seen..] == history[seen..][..n - seen];
      assert history[..n][..seen] == history[..seen];
      SameStreakIff(history[..n], seen);
    }
  }

  lemma OverlapStates()
    ensures var d, f := Dispatch, Finish(0, false);
      && Apply(Apply(ZERO, d), f) == Counter(1, [], [false])
      && Apply(Apply(Counter(1, [], [false]), d), d) == Counter(1, [Reading(1, 1), Reading(1, 1)], [false])
    ensures Apply(Apply(Counter(1, [Reading(1, 1), Reading(1, 1)], [false]), Finish(1, true)), Dispatch)
         == Counter(0, [Reading(1, 1), Reading(0, 2)], [false, true])
    ensures Apply(Counter(0, [Reading(1, 1), Reading(0, 2)], [false, true]), Finish(1, false))
         == Counter(1, [Reading(1, 1)], [false, true, false])
  {
  }

  lemma OverlapEndsExact()
    ensures Exact(Apply(Counter(1, [Reading(1, 1)], [false, true, false]), Finish(0, false)))
  {
    var h := [false, true, false];
    assert (h + [false])[..3] == h && h[..2] == [false, true];
    assert FailuresSinceSuccess(h) == 1;
  }

  lemma OverlapRun(d: Step, f: Step, t: Step, g: Step)
    ensures After(ZERO, [d, f, d, d, t, d, g])
      == Apply(Apply(Apply(Apply(Apply(Apply(Apply(ZERO, d), f), d), d), t), d), g)
  {
    AfterTwo(ZERO, [], d, f);
    assert [] + [d, f] == [d, f];
    AfterTwo(ZERO, [d, f], d, d);
    assert [d, f] + [d, d] == [d, f, d, d];
    AfterTwo(ZERO, [d, f, d, d], t, d);
    assert [d, f, d, d] + [t, d] == [d, f, d, d, t, d];
    assert [d, f, d, d, t, d, g][..6] == [d, f, d, d, t, d];
  }

  /** With a success in between the count can be overwritten and still come out exact: a delivery that read one
      finishes after another's success and a third's failure have brought the count back to one. */
  lemma SuccessCanHideOverlap()
    ensures var steps := [Dispatch, Finish(0, false), Dispatch, Dispatch, Finish(1, true), Dispatch, Finish(1, false)];
      var c := After(ZERO, steps);
      c == Counter(1, [Reading(1, 1)], [false, true, false]) && Exact(Apply(c, Finish(0, false)))
  {
    OverlapRun(Dispatch, Finish(0, false), Finish(1, true), Finish(1, false));
    OverlapStates();
    OverlapEndsExact();
  }

  /** Deliveries run one after another keep the count equal to the failures since the last success. */
  function Sequential(oks: seq<bool>): seq<Step> {
    if oks == [] then [] else Sequential(oks[..|oks| - 1]) + [Dispatch, Finish(0, oks[|oks| - 1])]
  }

  /** Which of the saved deliveries succeeded. */
  function Oks(saved: seq<Delivery>): seq<bool> {
    seq(|saved|, i requires 0 <= i < |saved| => saved[i].status.Success?)
  }

  lemma AfterTwo(c: Counter, steps: seq<Step>, a: Step, b: Step)
    ensures After(c, steps + [a, b]) == Apply(Apply(After(c, steps), a), b)
  {
    assert (steps + [a, b])[..|steps| + 1] == steps + [a];
    assert (steps + [a])[..|steps|] == steps;
  }

  lemma OneDelivery(history: seq<bool>, ok: bool)
    ensures Apply(Apply(Counter(FailuresSinceSuccess(history), [], history), Dispatch), Finish(0, ok))
         == Counter(FailuresSinceSuccess(history + [ok]), [], history + [ok])
  {
    assert (history + [ok])[..|history|] == history;
  }

  lemma {:induction false} SequentialCountIsExact(oks: seq<bool>)
    ensures After(ZERO, Sequential(oks)) == Counter(FailuresSinceSuccess(oks), [], oks)
  {
    if oks != [] {
      var init, last := oks[..|oks| - 1], oks[|oks| - 1];
      SequentialCountIsExact(init);
      OneDelivery(init, last);
      AfterTwo(ZERO, Sequential(init), Dispatch, Finish(0, last));
      assert After(ZERO, Sequential(oks)) == Counter(FailuresSinceSuccess(init + [last]), [], init + [last]);
      assert init + [last] == oks;
    }
  }

  function Repeat<T>(x: T, n: nat): seq<T> {
    seq(n, _ => x)
  }

  /** Overlapping failures are counted once: any number of deliveries dispatched together that all fail leave
      the count one higher. */
  lemma OverlappingFailuresCountOnce(c: Counter, n: nat)
    requires c.read == [] && n > 0
    ensures After(After(c, Repeat(Dispatch, n)), Repeat(Finish(0, false), n))
         == Counter(c.stored + 1, [], c.history + Repeat(false, n))
  {
    DispatchMany(c, n);
    FailMany(After(c, Repeat(Dispatch, n)), n, c.stored);
  }

  lemma {:induction false} DispatchMany(c: Counter, n: nat)
    requires c.read == []
    ensures After(c, Repeat(Dispatch, n)) == c.(read := Repeat(Reading(c.stored, |c.history|), n))
  {
    if n > 0 {
      DispatchMany(c, n - 1);
      assert Repeat(Dispatch, n)[..n - 1] == Repeat(Dispatch, n - 1);
      var r := Reading(c.stored, |c.history|);
      assert Repeat(r, n) == Repeat(r, n - 1) + [r];
    }
  }

  lemma {:induction false} FailMany(c: Counter, n: nat, k: nat)
    requires n <= |c.read| && forall i :: 0 <= i < |c.read| ==> c.read[i].count == k
    ensures After(c, Repeat(Finish(0, false), n))
         == Counter(if n == 0 then c.stored else k + 1, c.read[n..], c.history + Repeat(false, n))
  {
    if n > 0 {
      FailMany(c, n - 1, k);
      assert Repeat(Finish(0, false), n)[..n - 1] == Repeat(Finish(0, false), n - 1);
      assert c.history + Repeat(false, n) == c.history + Repeat(false, n - 1) + [false];
    } else {
      assert c.history + Repeat(false, 0) == c.history;
    }
  }
}
