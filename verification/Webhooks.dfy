/** One webhook with its failure count and saved deliveries, updated in place. */
module Webhooks {
  import opened Wrappers
  import opened WebhookSpec

  class Webhook {
    var failureCount: nat
    var saved: seq<Delivery>

    /** The count is the number of saved deliveries that failed since the last success. */
    ghost predicate CountsFailures()
      reads this
    {
      failureCount == FailuresSinceSuccess(Oks(saved))
    }

    constructor ()
      ensures failureCount == 0 && saved == [] && CountsFailures()
    {
      failureCount, saved := 0, [];
    }

    /** Delivers with retries. The delivery is saved exactly once, reporting the attempts made, and settles the
        failure count; a payload that cannot be marshalled saves nothing. */
    method DeliverWebhook(marshals: bool, outcomes: seq<Outcome>, retryCount: int, delay: nat)
      returns (slept: nat)
      requires |outcomes| >= retryCount
      modifies this
      ensures !marshals ==> saved == old(saved) && failureCount == old(failureCount) && slept == 0
      ensures marshals ==>
        var m := Made(Allotted(outcomes, retryCount));
        && saved == old(saved) + [Report(m)] && slept == Slept(m, delay)
        && failureCount == if Report(m).status.Success? then 0 else old(failureCount) + 1
      ensures old(CountsFailures()) ==> CountsFailures()
      ensures marshals ==>
        && |saved| == |old(saved)| + 1
        && (saved[|saved| - 1].status == Success <==>
              exists i :: 0 <= i < retryCount && outcomes[i].Response? && 200 <= outcomes[i].code <= 299)
        && (saved[|saved| - 1].status == Success ==> failureCount == 0)
        && (saved[|saved| - 1].status == Failed ==> failureCount == old(failureCount) + 1)
    {
      slept := 0;
      if !marshals {
        return;
      }
      var delivery;
      delivery, slept := Attempt(outcomes, retryCount, delay);
      failureCount := if delivery.status.Success? then 0 else failureCount + 1;
      saved := saved + [delivery];
      assert Oks(saved)[..|saved| - 1] == Oks(old(saved));
    }

    /** The retry loop. */
    static method Attempt(outcomes: seq<Outcome>, retryCount: int, delay: nat) returns (d: Delivery, slept: nat)
      requires |outcomes| >= retryCount
      ensures d == Report(Made(Allotted(outcomes, retryCount)))
      ensures slept == Slept(Made(Allotted(outcomes, retryCount)), delay)
      ensures d.status == Success <==>
        exists i :: 0 <= i < retryCount && outcomes[i].Response? && 200 <= outcomes[i].code <= 299
    {
      slept := 0;
      var code: Option<int>, error: Option<Outcome> := None, None;
      var attempt := 1;
      while attempt <= retryCount
        invariant 1 <= attempt && (attempt <= retryCount + 1 || attempt == 1)
        invariant Unsuccessful(outcomes[..attempt - 1])
        invariant code == LastCode(outcomes[..attempt - 1]) && slept == Slept(outcomes[..attempt - 1], delay)
        invariant error == if attempt == 1 then None else Some(outcomes[attempt - 2])
      {
        var o := outcomes[attempt - 1];
        ghost var m := outcomes[..attempt];
        assert m[..attempt - 1] == outcomes[..attempt - 1] && m[attempt - 1] == o;
        if o.Response? {
          code := Some(o.code);
        }
        if Ok(o) {
          assert outcomes[attempt - 1].Response? && 200 <= outcomes[attempt - 1].code <= 299;
          MadeUpTo(outcomes, attempt, retryCount);
          return Delivery(attempt, Success, code, None), slept;
        }
        error := Some(o);
        if !o.BadRequest? {
          slept := slept + delay * attempt;
        }
        attempt := attempt + 1;
      }
      MadeAll(Allotted(outcomes, retryCount));
      forall i | 0 <= i < retryCount ensures !Ok(outcomes[i]) {
        assert outcomes[..attempt - 1][i] == outcomes[i];
      }
      d := Delivery(attempt - 1, Failed, code, error);
    }
  }

  /** A webhook as the dispatcher sees it. */
  datatype Target = Target(id: string, workspace: Option<string>, active: bool)

  /** The webhooks an event is delivered to: the active ones not tied to another workspace. */
  predicate Wanted(t: Target, workspace: Option<string>) {
    t.active && (workspace.Some? && t.workspace.Some? ==> t.workspace == workspace)
  }

  /** The webhooks found for an event that are delivered to, each at most once per appearance, in order. */
  method DispatchEvent(found: seq<Target>, workspace: Option<string>) returns (chosen: seq<nat>)
    ensures forall i :: i in chosen <==>
      && 0 <= i < |found| && found[i].active
      && (workspace == None || found[i].workspace == None || found[i].workspace == workspace)
    ensures forall i, j :: 0 <= i < j < |chosen| ==> chosen[i] < chosen[j]
  {
    chosen := [];
    for i := 0 to |found|
      invariant forall k :: k in chosen <==> 0 <= k < i && Wanted(found[k], workspace)
      invariant forall j, k :: 0 <= j < k < |chosen| ==> chosen[j] < chosen[k]
    {
      if !found[i].active {
        continue;
      }
      if workspace.Some? && found[i].workspace.Some? && found[i].workspace.value != workspace.value {
        continue;
      }
      assert forall j :: 0 <= j < |chosen| ==> chosen[j] in chosen;
      chosen := chosen + [i];
    }
  }
}
