/**
 Minute metering and plan changes: `record_usage`, `change_plan` and `get_billing_status` in
 backend/app/services/billing_service.py, and the billing block of `process_call_artifacts` in
 backend/app/services/artifact_service.py.
*/
module Billing {

  import opened Options

  /** `limited` plans can only be chosen at setup; `upgradeTo` is the overage rule of the plan. */
  datatype Plan = Plan(included: int, limited: bool, upgradeTo: Option<string>)

  datatype SubStatus = Active | PastDue | Canceled | Incomplete | Trialing

  datatype Subscription = Subscription(plan: string, status: SubStatus, included: int, carried: int, periodEnd: Option<int>)

  /** "usage:<call id>" for calls; other sources bring their own keys. */
  datatype Key = ForCall(call: nat) | Custom(name: string)

  datatype UsageEvent = UsageEvent(key: Key, user: nat, minutes: int, duration: int)

  datatype Accounts = Accounts(usage: map<nat, int>, subs: map<nat, Subscription>, events: seq<UsageEvent>)

  datatype UsageResult = UsageResult(minutesUsed: int, upgraded: bool, duplicate: bool)

  datatype ChangeResult = Changed | SubscriptionCreated | UnknownPlan | PlanNotAvailable | PaymentMethodRequired
                        | NoActiveSubscription | SamePlan

  datatype Settings = Settings(plans: map<string, Plan>, stripe: bool, periodLength: int)

  /** Every overage rule leads to a configured plan. */
  predicate ValidSettings(cfg: Settings) {
    forall p :: p in cfg.plans && cfg.plans[p].upgradeTo.Some? ==> cfg.plans[p].upgradeTo.value in cfg.plans
  }

  function Used(a: Accounts, user: nat): int {
    if user in a.usage then a.usage[user] else 0
  }

  predicate HasEvent(events: seq<UsageEvent>, key: Key) {
    exists i :: 0 <= i < |events| && events[i].key == key
  }

  function UpgradeTarget(a: Accounts, cfg: Settings, user: nat, used: int): Option<string> {
    if user in a.subs && a.subs[user].status == Active && a.subs[user].plan in cfg.plans then
      var plan := cfg.plans[a.subs[user].plan];
      if plan.upgradeTo.Some? && used > plan.included then plan.upgradeTo else None
    else None
  }

  function RecordUsage(a: Accounts, cfg: Settings, user: nat, minutes: int, key: Option<Key>, duration: int)
    : (Accounts, UsageResult)
    requires ValidSettings(cfg)
  {
    if key.Some? && HasEvent(a.events, key.value) then
      (a, UsageResult(Used(a, user), false, true))
    else
      var used := Used(a, user) + minutes;
      var events := if key.Some? then a.events + [UsageEvent(key.value, user, minutes, duration)] else a.events;
      var target := UpgradeTarget(a, cfg, user, used);
      var subs := if target.Some?
                  then a.subs[user := a.subs[user].(plan := target.value, included := cfg.plans[target.value].included)]
                  else a.subs;
      (Accounts(a.usage[user := used], subs, events), UsageResult(used, target.Some?, false))
  }

  /** math.ceil(duration / 60) */
  function Minutes(duration: int): int {
    (duration + 59) / 60
  }

  function MeterCall(a: Accounts, cfg: Settings, call: nat, user: nat, duration: int): Accounts
    requires ValidSettings(cfg)
  {
    if duration > 0 then RecordUsage(a, cfg, user, Minutes(duration), Some(ForCall(call)), duration).0 else a
  }

  function Max0(x: int): int {
    if x < 0 then 0 else x
  }

  /** `minutes_remaining` as get_billing_status reports it. */
  function Remaining(a: Accounts, user: nat): int
    requires user in a.subs
  {
    Max0(a.subs[user].included + a.subs[user].carried - Used(a, user))
  }

  predicate InPeriod(s: Subscription, now: int) {
    s.periodEnd.Some? && now < s.periodEnd.value
  }

  function ChangePlan(a: Accounts, cfg: Settings, now: int, user: nat, newPlan: string, hasCard: bool)
    : (Accounts, ChangeResult)
  {
    if newPlan !in cfg.plans then (a, UnknownPlan)
    else if cfg.plans[newPlan].limited then (a, PlanNotAvailable)
    else if user !in a.subs then
      if !hasCard then (a, PaymentMethodRequired)
      else
        var first := Subscription(newPlan, Active, cfg.plans[newPlan].included, 0, Some(now + cfg.periodLength));
        (a.(subs := a.subs[user := first]), SubscriptionCreated)
    else
      var s := a.subs[user];
      if s.status != Active && s.status != PastDue then (a, NoActiveSubscription)
      else if s.plan == newPlan then (a, SamePlan)
      else
        var carried := if InPeriod(s, now) then Remaining(a, user) else 0;
        var s' := s.(plan := newPlan, included := cfg.plans[newPlan].included, carried := carried,
                     periodEnd := if cfg.stripe then s.periodEnd else Some(now + cfg.periodLength));
        (a.(usage := a.usage[user := Used(a, user)], subs := a.subs[user := s']), Changed)
  }

  datatype Step =
    | Meter(call: nat, user: nat, duration: int)               // one polling pass over a call
    | Use(user: nat, minutes: int, key: Option<Key>)
    | Change(user: nat, newPlan: string, hasCard: bool)

  datatype Timed = Timed(at: int, step: Step)

  function Perform(a: Accounts, cfg: Settings, t: Timed): Accounts
    requires ValidSettings(cfg)
  {
    match t.step
    case Meter(call, user, duration) => MeterCall(a, cfg, call, user, duration)
    case Use(user, minutes, key) => RecordUsage(a, cfg, user, minutes, key, 0).0
    case Change(user, newPlan, hasCard) => ChangePlan(a, cfg, t.at, user, newPlan, hasCard).0
  }

  function After(a: Accounts, cfg: Settings, run: seq<Timed>): Accounts
    requires ValidSettings(cfg)
    decreases |run|
  {
    if run == [] then a else After(Perform(a, cfg, run[0]), cfg, run[1..])
  }

  // ---------------------------------------------------------------------------------------------
  // Conservation: minutes used and minutes billed move together
  // ---------------------------------------------------------------------------------------------

  function Billed(events: seq<UsageEvent>, user: nat): int {
    if events == [] then 0 else (if events[0].user == user then events[0].minutes else 0) + Billed(events[1..], user)
  }

  function Unkeyed(run: seq<Timed>, user: nat): int {
    if run == [] then 0
    else
      (match run[0].step
       case Use(u, minutes, None) => if u == user then minutes else 0
       case _ => 0) + Unkeyed(run[1..], user)
  }

  lemma {:induction false} BilledAppend(events: seq<UsageEvent>, e: UsageEvent, user: nat)
    ensures Billed(events + [e], user) == Billed(events, user) + (if e.user == user then e.minutes else 0)
    decreases |events|
  {
    if events == [] {
      assert events + [e] == [e] && [e][1..] == [];
    } else {
      assert (events + [e])[1..] == events[1..] + [e];
      BilledAppend(events[1..], e, user);
    }
  }

  lemma RecordUsageConserves(
    a: Accounts, cfg: Settings, payer: nat, minutes: int, key: Option<Key>, duration: int, user: nat)
    requires ValidSettings(cfg)
    ensures
      var a' := RecordUsage(a, cfg, payer, minutes, key, duration).0;
      Used(a', user) - Used(a, user)
        == Billed(a'.events, user) - Billed(a.events, user) + (if key == None && payer == user then minutes else 0)
  {
    if key.Some? {
      BilledAppend(a.events, UsageEvent(key.value, payer, minutes, duration), user);
    }
  }

  /** Over any run the rise in `minutes_used` is the rise in billed minutes plus what was recorded without a key;
      with all usage keyed, it is exactly the sum of `minutes_billed` of the new events. */
  lemma {:induction false} LedgerBalances(a: Accounts, cfg: Settings, run: seq<Timed>, user: nat)
    requires ValidSettings(cfg)
    ensures
      var a' := After(a, cfg, run);
      Used(a', user) - Used(a, user) == Billed(a'.events, user) - Billed(a.events, user) + Unkeyed(run, user)
    decreases |run|
  {
    if run != [] {
      match run[0].step {
        case Meter(call, u, duration) =>
          RecordUsageConserves(a, cfg, u, Minutes(duration), Some(ForCall(call)), duration, user);
        case Use(u, minutes, key) =>
          RecordUsageConserves(a, cfg, u, minutes, key, 0, user);
        case Change(u, newPlan, hasCard) =>
      }
      LedgerBalances(Perform(a, cfg, run[0]), cfg, run[1..], user);
    }
  }

  // ---------------------------------------------------------------------------------------------
  // Exactly-once metering
  // ---------------------------------------------------------------------------------------------

  function EventsOf(events: seq<UsageEvent>, key: Key): seq<UsageEvent> {
    if events == [] then []
    else if events[0].key == key then [events[0]] + EventsOf(events[1..], key)
    else EventsOf(events[1..], key)
  }

  /** The event the call deserves: from the first pass that saw a positive duration. */
  function FirstPositive(run: seq<Timed>, call: nat): seq<UsageEvent> {
    if run == [] then []
    else if run[0].step.Meter? && run[0].step.call == call && run[0].step.duration > 0 then
      [UsageEvent(ForCall(call), run[0].step.user, Minutes(run[0].step.duration), run[0].step.duration)]
    else FirstPositive(run[1..], call)
  }

  /** Only the pipeline uses the call's own key. */
  ghost predicate KeyReserved(run: seq<Timed>, call: nat) {
    forall i :: 0 <= i < |run| ==> !(run[i].step.Use? && run[i].step.key == Some(ForCall(call)))
  }

  lemma {:induction false} EventsOfAppend(events: seq<UsageEvent>, e: UsageEvent, key: Key)
    ensures EventsOf(events + [e], key) == EventsOf(events, key) + (if e.key == key then [e] else [])
    decreases |events|
  {
    if events == [] {
      assert events + [e] == [e] && [e][1..] == [];
    } else {
      assert (events + [e])[1..] == events[1..] + [e];
      EventsOfAppend(events[1..], e, key);
    }
  }

  lemma {:induction false} EventsOfEmptyIff(events: seq<UsageEvent>, key: Key)
    ensures EventsOf(events, key) == [] <==> !HasEvent(events, key)
    decreases |events|
  {
    if events != [] {
      EventsOfEmptyIff(events[1..], key);
      if HasEvent(events, key) && events[0].key != key {
        var i :| 0 <= i < |events| && events[i].key == key;
        assert events[1..][i - 1].key == key;
      }
      if HasEvent(events[1..], key) {
        var i :| 0 <= i < |events[1..]| && events[1..][i].key == key;
        assert events[i + 1].key == key;
      }
    }
  }

  /** Recording under another key leaves the call's events alone. */
  lemma OtherKeyLeavesEvents(
    a: Accounts, cfg: Settings, user: nat, minutes: int, key: Option<Key>, duration: int, call: nat)
    requires ValidSettings(cfg) && key != Some(ForCall(call))
    ensures
      var a' := RecordUsage(a, cfg, user, minutes, key, duration).0;
      EventsOf(a'.events, ForCall(call)) == EventsOf(a.events, ForCall(call))
  {
    if key.Some? {
      EventsOfAppend(a.events, UsageEvent(key.value, user, minutes, duration), ForCall(call));
    }
  }

  /** Once a call has its event no pass adds another or changes it. */
  lemma {:induction false} BilledCallIsFinal(a: Accounts, cfg: Settings, run: seq<Timed>, call: nat)
    requires ValidSettings(cfg) && KeyReserved(run, call) && HasEvent(a.events, ForCall(call))
    ensures EventsOf(After(a, cfg, run).events, ForCall(call)) == EventsOf(a.events, ForCall(call))
    decreases |run|
  {
    if run != [] {
      var a' := Perform(a, cfg, run[0]);
      match run[0].step {
        case Meter(c, user, duration) =>
          if c != call {
            OtherKeyLeavesEvents(a, cfg, user, Minutes(duration), Some(ForCall(c)), duration, call);
          }
        case Use(user, minutes, key) =>
          OtherKeyLeavesEvents(a, cfg, user, minutes, key, 0, call);
        case Change(u, newPlan, hasCard) =>
      }
      EventsOfEmptyIff(a.events, ForCall(call));
      EventsOfEmptyIff(a'.events, ForCall(call));
      BilledCallIsFinal(a', cfg, run[1..], call);
    }
  }

  /** Over any number and order of polling passes a call gets at most one event, worth the
      started minutes of its first positive duration. */
  lemma {:induction false} CallBilledExactlyOnce(a: Accounts, cfg: Settings, run: seq<Timed>, call: nat)
    requires ValidSettings(cfg) && KeyReserved(run, call) && !HasEvent(a.events, ForCall(call))
    ensures EventsOf(After(a, cfg, run).events, ForCall(call)) == FirstPositive(run, call)
    decreases |run|
  {
    EventsOfEmptyIff(a.events, ForCall(call));
    if run != [] {
      var a' := Perform(a, cfg, run[0]);
      EventsOfEmptyIff(a'.events, ForCall(call));
      match run[0].step {
        case Meter(c, user, duration) =>
          if c != call {
            OtherKeyLeavesEvents(a, cfg, user, Minutes(duration), Some(ForCall(c)), duration, call);
            CallBilledExactlyOnce(a', cfg, run[1..], call);
          } else if duration > 0 {
            EventsOfAppend(a.events, UsageEvent(ForCall(c), user, Minutes(duration), duration), ForCall(call));
            BilledCallIsFinal(a', cfg, run[1..], call);
          } else {
            CallBilledExactlyOnce(a', cfg, run[1..], call);
          }
        case Use(user, minutes, key) =>
          OtherKeyLeavesEvents(a, cfg, user, minutes, key, 0, call);
          CallBilledExactlyOnce(a', cfg, run[1..], call);
        case Change(u, newPlan, hasCard) =>
          CallBilledExactlyOnce(a', cfg, run[1..], call);
      }
    }
  }

  /** Started minutes: the least whole number of minutes that covers the duration. */
  lemma MinutesIsCeiling(duration: int)
    ensures 60 * (Minutes(duration) - 1) < duration <= 60 * Minutes(duration)
  {
  }

  // ---------------------------------------------------------------------------------------------
  // Carry-over closed form
  // ---------------------------------------------------------------------------------------------

  /** What carry-over depends on since the last out-of-period change: the carry it started from and
      included - used at each in-period change. */
  datatype Ledger = Ledger(base: int, samples: seq<int>)

  function Sum(xs: seq<int>): int {
    if xs == [] then 0 else xs[0] + Sum(xs[1..])
  }

  function Noted(l: Ledger, a: Accounts, cfg: Settings, user: nat, t: Timed): Ledger {
    if t.step.Change? && t.step.user == user then
      var (a', r) := ChangePlan(a, cfg, t.at, user, t.step.newPlan, t.step.hasCard);
      if r == SubscriptionCreated then Ledger(0, [])
      else if r == Changed then
        if InPeriod(a.subs[user], t.at) then l.(samples := l.samples + [a.subs[user].included - Used(a, user)])
        else Ledger(0, [])
      else l
    else l
  }

  function LedgerAfter(l: Ledger, a: Accounts, cfg: Settings, user: nat, run: seq<Timed>): Ledger
    requires ValidSettings(cfg)
    decreases |run|
  {
    if run == [] then l
    else LedgerAfter(Noted(l, a, cfg, user, run[0]), Perform(a, cfg, run[0]), cfg, user, run[1..])
  }

  /** The sum of the samples from position k on; the starting carry counts towards the full sum. */
  function Suffix(l: Ledger, k: nat): int
    requires k <= |l.samples|
  {
    (if k == 0 then l.base else 0) + Sum(l.samples[k..])
  }

  /** With no samples the starting carry; else the larger of 0 and the greatest suffix sum. */
  ghost predicate IsCarry(v: int, l: Ledger) {
    if l.samples == [] then v == l.base
    else
      && 0 <= v
      && (forall k :: 0 <= k < |l.samples| ==> Suffix(l, k) <= v)
      && (v == 0 || exists k :: 0 <= k < |l.samples| && v == Suffix(l, k))
  }

  lemma {:induction false} SumAppend(xs: seq<int>, x: int)
    ensures Sum(xs + [x]) == Sum(xs) + x
    decreases |xs|
  {
    if xs == [] {
      assert xs + [x] == [x] && [x][1..] == [];
    } else {
      assert (xs + [x])[1..] == xs[1..] + [x];
      SumAppend(xs[1..], x);
    }
  }

  lemma SuffixAppend(l: Ledger, x: int, k: nat)
    requires k <= |l.samples|
    ensures Suffix(l.(samples := l.samples + [x]), k) == Suffix(l, k) + x
  {
    assert (l.samples + [x])[k..] == l.samples[k..] + [x];
    SumAppend(l.samples[k..], x);
  }

  lemma CarryStep(v: int, l: Ledger, x: int)
    requires IsCarry(v, l)
    ensures IsCarry(Max0(x + v), l.(samples := l.samples + [x]))
  {
    var l' := l.(samples := l.samples + [x]);
    var n := |l.samples|;
    forall k | 0 <= k <= n
      ensures Suffix(l', k) == Suffix(l, k) + x
    {
      SuffixAppend(l, x, k);
    }
    assert l.samples[n..] == [];
    if n == 0 {
      assert Suffix(l', 0) == v + x;
    } else {
      assert Suffix(l', n) == x;
      if v == 0 {
        assert Max0(x + v) == 0 || Max0(x + v) == Suffix(l', n);
      } else {
        var k :| 0 <= k < n && v == Suffix(l, k);
        assert Suffix(l', k) == v + x;
      }
    }
  }

  lemma ChangeKeepsCarry(a: Accounts, cfg: Settings, user: nat, t: Timed, l: Ledger)
    requires t.step.Change? && t.step.user == user
    requires user in a.subs ==> IsCarry(a.subs[user].carried, l)
    ensures
      var a' := ChangePlan(a, cfg, t.at, user, t.step.newPlan, t.step.hasCard).0;
      user in a'.subs ==> IsCarry(a'.subs[user].carried, Noted(l, a, cfg, user, t))
  {
    if user in a.subs && InPeriod(a.subs[user], t.at) {
      CarryStep(a.subs[user].carried, l, a.subs[user].included - Used(a, user));
    }
  }

  lemma StepKeepsCarry(a: Accounts, cfg: Settings, user: nat, t: Timed, l: Ledger)
    requires ValidSettings(cfg)
    requires user in a.subs ==> IsCarry(a.subs[user].carried, l)
    ensures
      var a' := Perform(a, cfg, t);
      user in a'.subs ==> IsCarry(a'.subs[user].carried, Noted(l, a, cfg, user, t))
  {
    if t.step.Change? && t.step.user == user {
      ChangeKeepsCarry(a, cfg, user, t, l);
    } else {
      var a' := Perform(a, cfg, t);
      assert user in a'.subs ==> user in a.subs && a'.subs[user].carried == a.subs[user].carried;
    }
  }

  /** Over any run of plan changes, metered calls and overage upgrades, `minutes_carried_over` is the larger of
      0 and the greatest suffix sum of (included - used) taken at each in-period change. */
  lemma {:induction false} CarryOverClosedForm(a: Accounts, cfg: Settings, user: nat, run: seq<Timed>, l: Ledger)
    requires ValidSettings(cfg)
    requires user in a.subs ==> IsCarry(a.subs[user].carried, l)
    ensures
      var a' := After(a, cfg, run);
      user in a'.subs ==> IsCarry(a'.subs[user].carried, LedgerAfter(l, a, cfg, user, run))
    decreases |run|
  {
    if run != [] {
      StepKeepsCarry(a, cfg, user, run[0], l);
      CarryOverClosedForm(Perform(a, cfg, run[0]), cfg, user, run[1..], Noted(l, a, cfg, user, run[0]));
    }
  }

  /** Only one value satisfies the closed form. */
  lemma CarryIsUnique(v: int, w: int, l: Ledger)
    requires IsCarry(v, l) && IsCarry(w, l)
    ensures v == w
  {
  }

  /** An in-period change carries over exactly the minutes the status endpoint showed just before it,
      and the new plan's minutes come on top. */
  lemma ChangeCarriesReportedMinutes(a: Accounts, cfg: Settings, now: int, user: nat, newPlan: string, hasCard: bool)
    requires user in a.subs && InPeriod(a.subs[user], now)
    requires ChangePlan(a, cfg, now, user, newPlan, hasCard).1 == Changed
    ensures
      var a' := ChangePlan(a, cfg, now, user, newPlan, hasCard).0;
      && a'.subs[user].carried == Remaining(a, user)
      && Remaining(a', user) == Max0(cfg.plans[newPlan].included + Remaining(a, user) - Used(a, user))
      && (forall other :: other != user && other in a.subs ==> other in a'.subs && a'.subs[other] == a.subs[other])
      && a'.events == a.events
  {
  }

  // ---------------------------------------------------------------------------------------------
  // Overage upgrades
  // ---------------------------------------------------------------------------------------------

  /** Every subscription is on a configured plan and carries that plan's included minutes. */
  ghost predicate IncludedMatchesPlan(a: Accounts, cfg: Settings) {
    forall u :: u in a.subs ==> a.subs[u].plan in cfg.plans && a.subs[u].included == cfg.plans[a.subs[u].plan].included
  }

  lemma {:induction false} IncludedMatchesAlongRun(a: Accounts, cfg: Settings, run: seq<Timed>)
    requires ValidSettings(cfg) && IncludedMatchesPlan(a, cfg)
    ensures IncludedMatchesPlan(After(a, cfg, run), cfg)
    decreases |run|
  {
    if run != [] {
      IncludedMatchesAlongRun(Perform(a, cfg, run[0]), cfg, run[1..]);
    }
  }

  /** At any point of any run, recording usage upgrades an active subscription exactly when its plan has an overage
      rule and the new total passes the stored allowance of the plan; carry, status and period stay, and so does
      every other subscription. */
  lemma UpgradesExactlyPastAllowance(
    start: Accounts, cfg: Settings, run: seq<Timed>, user: nat, minutes: int, key: Option<Key>, duration: int)
    requires ValidSettings(cfg) && IncludedMatchesPlan(start, cfg)
    ensures
      var a := After(start, cfg, run);
      var (a', r) := RecordUsage(a, cfg, user, minutes, key, duration);
      && IncludedMatchesPlan(a, cfg)
      && (r.upgraded <==>
            && !r.duplicate && user in a.subs && a.subs[user].status == Active
            && cfg.plans[a.subs[user].plan].upgradeTo.Some? && a.subs[user].included < Used(a', user))
      && a'.subs.Keys == a.subs.Keys
      && (forall u :: u in a.subs && (u != user || !r.upgraded) ==> a'.subs[u] == a.subs[u])
      && (r.upgraded ==>
            && cfg.plans[a.subs[user].plan].upgradeTo == Some(a'.subs[user].plan)
            && a'.subs[user].(plan := a.subs[user].plan, included := a.subs[user].included) == a.subs[user]
            && IncludedMatchesPlan(a', cfg))
  {
    IncludedMatchesAlongRun(start, cfg, run);
  }

  // ---------------------------------------------------------------------------------------------
  // What a change and a recording answer
  // ---------------------------------------------------------------------------------------------

  predicate Offered(cfg: Settings, plan: string) {
    plan in cfg.plans && !cfg.plans[plan].limited
  }

  /** A change goes through exactly for another offered plan of an active or past-due subscription, and a subscription is
      created exactly for an offered plan with a card on file; every refusal has its own cause and leaves the accounts
      alone. */
  lemma ChangeAnswersIff(a: Accounts, cfg: Settings, now: int, user: nat, newPlan: string, hasCard: bool)
    ensures
      var (a', r) := ChangePlan(a, cfg, now, user, newPlan, hasCard);
      && (r == Changed <==>
            && Offered(cfg, newPlan) && user in a.subs && a.subs[user].plan != newPlan
            && (a.subs[user].status == Active || a.subs[user].status == PastDue))
      && (r == SubscriptionCreated <==> Offered(cfg, newPlan) && user !in a.subs && hasCard)
      && (r != Changed && r != SubscriptionCreated ==> a' == a)
      && (r in {UnknownPlan, PlanNotAvailable} <==> !Offered(cfg, newPlan))
      && (r == PlanNotAvailable ==> newPlan in cfg.plans)
      && (r == PaymentMethodRequired <==> Offered(cfg, newPlan) && user !in a.subs && !hasCard)
      && (r == SamePlan ==> user in a.subs && a.subs[user].plan == newPlan)
      && (r == NoActiveSubscription <==>
            && Offered(cfg, newPlan) && user in a.subs
            && a.subs[user].status != Active && a.subs[user].status != PastDue)
      && (r == Changed ==>
            && a'.subs[user].plan == newPlan && a'.subs[user].included == cfg.plans[newPlan].included
            && a'.subs[user].status == a.subs[user].status && Used(a', user) == Used(a, user))
      && (r == SubscriptionCreated ==>
            && a'.subs[user].plan == newPlan && a'.subs[user].included == cfg.plans[newPlan].included
            && a'.subs[user].status == Active && a'.subs[user].carried == 0 && a'.usage == a.usage)
  {
  }

  ghost predicate NoChangeBy(run: seq<Timed>, user: nat) {
    forall i :: 0 <= i < |run| ==> !(run[i].step.Change? && run[i].step.user == user)
  }

  lemma {:induction false} PeriodKept(a: Accounts, cfg: Settings, run: seq<Timed>, user: nat)
    requires ValidSettings(cfg) && NoChangeBy(run, user) && user in a.subs
    ensures user in After(a, cfg, run).subs && After(a, cfg, run).subs[user].periodEnd == a.subs[user].periodEnd
    decreases |run|
  {
    if run != [] {
      assert forall i :: 0 <= i < |run[1..]| ==> run[1..][i] == run[i + 1];
      PeriodKept(Perform(a, cfg, run[0]), cfg, run[1..], user);
    }
  }

  /** A new subscription, and without Stripe every change, opens a period: the next change, after any calls and other
      usage, carries the minutes reported just before if it comes within the period, and none otherwise. */
  lemma PeriodDecidesCarry(
    a: Accounts, cfg: Settings, now: int, user: nat, plan: string, hasCard: bool, run: seq<Timed>, later: int, next: string)
    requires ValidSettings(cfg) && NoChangeBy(run, user)
    requires
      var r := ChangePlan(a, cfg, now, user, plan, hasCard).1;
      r == SubscriptionCreated || (r == Changed && !cfg.stripe)
    ensures
      var before := After(ChangePlan(a, cfg, now, user, plan, hasCard).0, cfg, run);
      var (after, r) := ChangePlan(before, cfg, later, user, next, hasCard);
      r == Changed ==>
        after.subs[user].carried == if later < now + cfg.periodLength then Remaining(before, user) else 0
  {
    PeriodKept(ChangePlan(a, cfg, now, user, plan, hasCard).0, cfg, run, user);
  }

  /** With Stripe the provider's period stays in force across a change. */
  lemma StripeKeepsPeriod(a: Accounts, cfg: Settings, now: int, user: nat, plan: string, hasCard: bool)
    requires cfg.stripe && ChangePlan(a, cfg, now, user, plan, hasCard).1 == Changed
    ensures ChangePlan(a, cfg, now, user, plan, hasCard).0.subs[user].periodEnd == a.subs[user].periodEnd
  {
  }

  /** The answer to a recording is the user's new total, and a duplicate changes nothing. */
  lemma RecordReportsTotal(a: Accounts, cfg: Settings, user: nat, minutes: int, key: Option<Key>, duration: int)
    requires ValidSettings(cfg)
    ensures
      var (a', r) := RecordUsage(a, cfg, user, minutes, key, duration);
      && r.minutesUsed == Used(a', user)
      && (r.duplicate <==> key.Some? && HasEvent(a.events, key.value))
      && (r.duplicate ==> a' == a)
      && (key.Some? ==> HasEvent(a'.events, key.value))
  {
    if key.Some? && !HasEvent(a.events, key.value) {
      var a' := RecordUsage(a, cfg, user, minutes, key, duration).0;
      assert a'.events[|a.events|].key == key.value;
    }
  }

  // ---------------------------------------------------------------------------------------------
  // The services on mutable tables
  // ---------------------------------------------------------------------------------------------

  class BillingService {
    const cfg: Settings
    var usage: map<nat, int>
    var subs: map<nat, Subscription>
    var events: seq<UsageEvent>

    function State(): Accounts
      reads this
    {
      Accounts(usage, subs, events)
    }

    constructor (cfg: Settings)
      ensures State() == Accounts(map[], map[], []) && this.cfg == cfg
    {
      this.cfg := cfg;
      this.usage, this.subs, this.events := map[], map[], [];
    }

    method Record(user: nat, minutes: int, key: Option<Key>, duration: int) returns (r: UsageResult)
      requires ValidSettings(cfg)
      modifies this
      ensures (State(), r) == RecordUsage(old(State()), cfg, user, minutes, key, duration)
    {
      if key.Some? && HasEvent(events, key.value) {
        return UsageResult(Used(State(), user), false, true);
      }
      var used := Used(State(), user) + minutes;
      usage := usage[user := used];
      if key.Some? {
        events := events + [UsageEvent(key.value, user, minutes, duration)];
      }
      var upgraded := false;
      if user in subs && subs[user].status == Active && subs[user].plan in cfg.plans {
        var plan := cfg.plans[subs[user].plan];
        if plan.upgradeTo.Some? && used > plan.included {
          var to := plan.upgradeTo.value;
          subs := subs[user := subs[user].(plan := to, included := cfg.plans[to].included)];
          upgraded := true;
        }
      }
      return UsageResult(used, upgraded, false);
    }

    method Change(now: int, user: nat, newPlan: string, hasCard: bool) returns (r: ChangeResult)
      modifies this
      ensures (State(), r) == ChangePlan(old(State()), cfg, now, user, newPlan, hasCard)
    {
      if newPlan !in cfg.plans {
        return UnknownPlan;
      }
      var plan := cfg.plans[newPlan];
      if plan.limited {
        return PlanNotAvailable;
      }
      if user !in subs {
        if !hasCard {
          return PaymentMethodRequired;
        }
        subs := subs[user := Subscription(newPlan, Active, plan.included, 0, Some(now + cfg.periodLength))];
        return SubscriptionCreated;
      }
      var s := subs[user];
      if s.status != Active && s.status != PastDue {
        return NoActiveSubscription;
      }
      if s.plan == newPlan {
        return SamePlan;
      }
      var used := Used(State(), user);
      usage := usage[user := used];
      if s.periodEnd.Some? && now < s.periodEnd.value {
        var remaining := s.included + s.carried - used;
        s := s.(carried := if remaining < 0 then 0 else remaining);
      } else {
        s := s.(carried := 0);
      }
      s := s.(plan := newPlan, included := plan.included);
      if !cfg.stripe {
        s := s.(periodEnd := Some(now + cfg.periodLength));
      }
      subs := subs[user := s];
      return Changed;
    }
  }
}
