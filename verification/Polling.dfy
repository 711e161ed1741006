/**
 How repeated polling meets metering: `process_pending_artifacts` in backend/app/workers/post_call.py runs the pipeline,
 and with it the billing block, only on artifacts that are still unresolved.
*/
module Polling {
  import Artifacts
  import Billing

  /** One call's artifact and the accounts it is billed to. */
  datatype World = World(item: Artifacts.Item, accounts: Billing.Accounts)

  /** What a pass would meet: the provider's answer, how far it would get, and the call's duration at that time. */
  datatype Visit = Visit(attempt: Artifacts.Attempt, duration: int)

  /** The billing block is the fourth stage: a pass that raises before it bills nothing. */
  predicate Bills(v: Visit) {
    4 <= Artifacts.Stages(v.attempt.ending) && v.duration > 0
  }

  function Poll(w: World, cfg: Billing.Settings, call: nat, user: nat, v: Visit): World
    requires Billing.ValidSettings(cfg)
  {
    if Artifacts.Selected(w.item) then
      World(Artifacts.Attempted(w.item, v.attempt),
            if Bills(v) then Billing.MeterCall(w.accounts, cfg, call, user, v.duration) else w.accounts)
    else w
  }

  function PollAll(w: World, cfg: Billing.Settings, call: nat, user: nat, visits: seq<Visit>): World
    requires Billing.ValidSettings(cfg)
    decreases |visits|
  {
    if visits == [] then w else PollAll(Poll(w, cfg, call, user, visits[0]), cfg, call, user, visits[1..])
  }

  /** The first positive duration at a visit that reached the billing block, up to and including the one
      that completes an artifact now in state `p`. */
  function BillableDuration(hasRef: bool, p: nat, visits: seq<Visit>): int
    decreases |visits|
  {
    if visits == [] || p == 3 then 0
    else if Bills(visits[0]) then visits[0].duration
    else BillableDuration(hasRef, Artifacts.Advance(hasRef, p, Artifacts.Poll(visits[0].attempt)), visits[1..])
  }

  lemma {:induction false} NothingAfterCompletion(
    w: World, cfg: Billing.Settings, call: nat, user: nat, visits: seq<Visit>)
    requires Billing.ValidSettings(cfg) && Artifacts.AllReady(w.item)
    ensures PollAll(w, cfg, call, user, visits) == w
    decreases |visits|
  {
    if visits != [] {
      NothingAfterCompletion(w, cfg, call, user, visits[1..]);
    }
  }

  lemma {:induction false} BilledOnceIsKept(w: World, cfg: Billing.Settings, call: nat, user: nat, visits: seq<Visit>)
    requires Billing.ValidSettings(cfg) && Billing.HasEvent(w.accounts.events, Billing.ForCall(call))
    ensures PollAll(w, cfg, call, user, visits).accounts == w.accounts
    decreases |visits|
  {
    if visits != [] {
      BilledOnceIsKept(Poll(w, cfg, call, user, visits[0]), cfg, call, user, visits[1..]);
    }
  }

  lemma {:induction false} BilledFromPhase(
    w: World, cfg: Billing.Settings, call: nat, user: nat, p: nat, visits: seq<Visit>)
    requires Billing.ValidSettings(cfg)
    requires Artifacts.InPhase(w.item, p) && (p == 1 ==> w.item.hasRef)
    requires !Billing.HasEvent(w.accounts.events, Billing.ForCall(call))
    ensures
      var d := BillableDuration(w.item.hasRef, p, visits);
      Billing.EventsOf(PollAll(w, cfg, call, user, visits).accounts.events, Billing.ForCall(call))
        == if d > 0 then [Billing.UsageEvent(Billing.ForCall(call), user, Billing.Minutes(d), d)] else []
    decreases |visits|
  {
    var key := Billing.ForCall(call);
    Billing.EventsOfEmptyIff(w.accounts.events, key);
    if p == 3 {
      NothingAfterCompletion(w, cfg, call, user, visits);
    } else if visits != [] {
      var v := visits[0];
      var w' := Poll(w, cfg, call, user, v);
      Artifacts.StepAdvances(w.item, p, Artifacts.Poll(v.attempt));
      if Bills(v) {
        var event := Billing.UsageEvent(key, user, Billing.Minutes(v.duration), v.duration);
        Billing.EventsOfAppend(w.accounts.events, event, key);
        Billing.EventsOfEmptyIff(w'.accounts.events, key);
        BilledOnceIsKept(w', cfg, call, user, visits[1..]);
      } else {
        BilledFromPhase(w', cfg, call, user, Artifacts.Advance(w.item.hasRef, p, Artifacts.Poll(v.attempt)), visits[1..]);
      }
    }
  }

  /** A visit bills the call if and only if the row is still selected, no earlier visit billed it, the pass got past the
      labels and the duration is positive; in particular every such pass that completes. */
  lemma VisitBillsIff(w: World, cfg: Billing.Settings, call: nat, user: nat, v: Visit)
    requires Billing.ValidSettings(cfg)
    ensures
      var before, after := w.accounts, Poll(w, cfg, call, user, v).accounts;
      var open := Artifacts.Selected(w.item) && !Billing.HasEvent(before.events, Billing.ForCall(call));
      && (v.attempt.ending == Artifacts.Completed ==>
            (after.events != before.events <==> open && v.duration > 0))
      && (v.attempt.ending.Raised? ==>
            (after.events != before.events <==> open && v.duration > 0 && 3 < v.attempt.ending.stages))
  {
  }

  /** A polled call is billed once, for the first positive duration at a pass that reached the billing block while its
      artifact was incomplete. A call whose artifact completes before that is never billed by polling. */
  lemma BilledWhileUnresolved(
    hasRef: bool, accounts: Billing.Accounts, cfg: Billing.Settings, call: nat, user: nat, visits: seq<Visit>)
    requires Billing.ValidSettings(cfg) && !Billing.HasEvent(accounts.events, Billing.ForCall(call))
    ensures
      var w := World(Artifacts.Fresh(hasRef), accounts);
      var d := BillableDuration(hasRef, 0, visits);
      Billing.EventsOf(PollAll(w, cfg, call, user, visits).accounts.events, Billing.ForCall(call))
        == if d > 0 then [Billing.UsageEvent(Billing.ForCall(call), user, Billing.Minutes(d), d)] else []
  {
    BilledFromPhase(World(Artifacts.Fresh(hasRef), accounts), cfg, call, user, 0, visits);
  }
}
