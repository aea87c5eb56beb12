/** What a delivery reports and sleeps, written out in the responses it meets. */
module WebhookLaws {
  import opened Wrappers
  import opened WebhookSpec

  /** When the k-th attempt is the first to meet a code from 200 to 299, the delivery stops there, successful and with
      that code. */
  lemma SuccessLaw(outcomes: seq<Outcome>, retryCount: int, k: nat)
    requires k < retryCount <= |outcomes|
    requires outcomes[k].Response? && 200 <= outcomes[k].code <= 299
    requires forall j :: 0 <= j < k && outcomes[j].Response? ==> outcomes[j].code < 200 || outcomes[j].code > 299
    ensures Report(Made(Allotted(outcomes, retryCount))) == Delivery(k + 1, Success, Some(outcomes[k].code), None)
  {
    var m := outcomes[..k + 1];
    MadeUpTo(outcomes, k + 1, retryCount);
    assert m[|m| - 1] == outcomes[k];
  }

  /** When no attempt meets one, all the configured attempts are made, none when that number is not positive. The
      delivery has failed, with what the last attempt met as its error. */
  lemma FailureLaw(outcomes: seq<Outcome>, retryCount: int)
    requires retryCount <= |outcomes|
    requires forall j :: 0 <= j < retryCount && outcomes[j].Response? ==>
      outcomes[j].code < 200 || outcomes[j].code > 299
    ensures var d := Report(Made(Allotted(outcomes, retryCount)));
      && d.status == Failed
      && (retryCount <= 0 ==> d == Delivery(0, Failed, None, None))
      && (retryCount > 0 ==> d.attempts == retryCount && d.error == Some(outcomes[retryCount - 1]))
  {
    MadeAll(Allotted(outcomes, retryCount));
  }

  /** Of the outcomes the i-th is the last response. */
  predicate LastResponse(outcomes: seq<Outcome>, i: int) {
    0 <= i < |outcomes| && outcomes[i].Response? && forall j :: i < j < |outcomes| ==> !outcomes[j].Response?
  }

  /** The code a delivery reports is that of the last response among its attempts, and none without one. */
  lemma {:induction false} CodeLaw(made: seq<Outcome>, i: int)
    ensures LastResponse(made, i) ==> Report(made).code == Some(made[i].code)
    ensures (forall j :: 0 <= j < |made| ==> !made[j].Response?) ==> Report(made).code == None
  {
    if made != [] && !made[|made| - 1].Response? {
      CodeLaw(made[..|made| - 1], i);
    }
  }

  /** One more attempt, the n-th, sleeps n times the delay unless its request could not be built or it succeeded. */
  lemma PauseLaw(before: seq<Outcome>, o: Outcome, delay: nat)
    ensures Slept([], delay) == 0
    ensures Slept(before + [o], delay) == Slept(before, delay) +
      if o.BadRequest? || (o.Response? && 200 <= o.code <= 299) then 0 else (|before| + 1) * delay
  {
    assert (before + [o])[..|before|] == before;
  }

  // ---- the failure count ------------------------------------------------------------------

  /** The count an undisturbed delivery leaves: none after a success, one more after a failure; and the count of a
      run is the length of its final stretch of failures. */
  lemma {:induction false} StreakLaw(oks: seq<bool>, n: nat)
    requires n <= |oks| && (forall i :: |oks| - n <= i < |oks| ==> !oks[i]) && (n < |oks| ==> oks[|oks| - n - 1])
    ensures FailuresSinceSuccess(oks) == n
  {
    if n > 0 {
      StreakLaw(oks[..|oks| - 1], n - 1);
    }
  }
}
