/**
 The lifecycle of a user's phone number: backend/app/services/telephony_service.py and the sweeps in
 backend/app/workers/number_lifecycle.py.

 The table holds one row per owner. Twilio's answers are parameters.
*/
module Numbers {
  import opened Options
  import Sets

  datatype Status = Pending | Active | Suspended | Released | Failed

  datatype Number = Number(
    status: Status, updatedAt: int, suspendedAt: Option<int>, suspendReason: Option<string>,
    releasedAt: Option<int>, webhook: bool)

  type Table = map<nat, Number>

  /** `Interrupted`: the purchase never got past the inserted row. */
  datatype Purchase = Bought | Unavailable | Interrupted

  datatype ProvisionResult = Provisioned(status: Status) | BillingRequired | AlreadyOwned | NoNumber

  const REASON_LENGTH := 40

  function Truncated(s: string): string {
    if |s| <= REASON_LENGTH then s else s[..REASON_LENGTH]
  }

  /** A second row for the same owner violates the unique constraint, so a suspended, released or
      failed number cannot be replaced. */
  function Provision(t: Table, now: int, user: nat, billingActive: bool, outcome: Purchase): (Table, ProvisionResult) {
    if !billingActive then (t, BillingRequired)
    else if user in t && (t[user].status == Active || t[user].status == Pending) then (t, Provisioned(t[user].status))
    else if user in t then (t, AlreadyOwned)
    else
      match outcome
      case Bought => (t[user := Number(Active, now, None, None, None, true)], Provisioned(Active))
      case Unavailable => (t[user := Number(Failed, now, None, None, None, false)], NoNumber)
      case Interrupted => (t[user := Number(Pending, now, None, None, None, false)], NoNumber)
  }

  function Suspend(t: Table, now: int, user: nat, reason: string): (Table, bool) {
    if user !in t || (t[user].status != Active && t[user].status != Pending) then (t, false)
    else
      (t[user := t[user].(status := Suspended, suspendReason := Some(Truncated(reason)), suspendedAt := Some(now))], true)
  }

  function ReleasedRow(n: Number, now: int): Number {
    n.(status := Released, releasedAt := Some(now), webhook := false)
  }

  function Release(t: Table, now: int, user: nat): (Table, bool) {
    if user !in t || t[user].status == Released then (t, false)
    else (t[user := ReleasedRow(t[user], now)], true)
  }

  function Reactivate(t: Table, user: nat, configured: bool): (Table, bool) {
    if user !in t || t[user].status != Suspended then (t, false)
    else
      (t[user := t[user].(status := Active, suspendReason := None, suspendedAt := None,
                          webhook := configured || t[user].webhook)], true)
  }

  predicate StalePending(n: Number, cutoff: int) {
    n.status == Pending && n.updatedAt < cutoff
  }

  function Stale(t: Table, cutoff: int): set<nat> {
    set u | u in t && StalePending(t[u], cutoff)
  }

  function CleanupAll(t: Table, now: int, users: set<nat>): Table {
    map u | u in t :: if u in users then t[u].(status := Released, releasedAt := Some(now)) else t[u]
  }

  function CleanupPending(t: Table, now: int, ttl: int): Table {
    CleanupAll(t, now, Stale(t, now - ttl))
  }

  predicate PastGrace(n: Number, cutoff: int) {
    n.status == Suspended && n.suspendedAt.Some? && n.suspendedAt.value < cutoff
  }

  function Overdue(t: Table, cutoff: int): set<nat> {
    set u | u in t && PastGrace(t[u], cutoff)
  }

  function ReleaseAll(t: Table, now: int, users: set<nat>): Table {
    map u | u in t :: if u in users then ReleasedRow(t[u], now) else t[u]
  }

  function SweepGrace(t: Table, now: int, grace: int): Table {
    ReleaseAll(t, now, Overdue(t, now - grace))
  }

  datatype Step =
    | ProvisionNumber(user: nat, billingActive: bool, outcome: Purchase)
    | SuspendNumber(user: nat, reason: string)
    | ReleaseNumber(user: nat)
    | ReactivateNumber(user: nat, configured: bool)
    | CleanupSweep(ttl: int)
    | GraceSweep(grace: int)

  function Perform(t: Table, now: int, s: Step): Table {
    match s
    case ProvisionNumber(user, billingActive, outcome) => Provision(t, now, user, billingActive, outcome).0
    case SuspendNumber(user, reason) => Suspend(t, now, user, reason).0
    case ReleaseNumber(user) => Release(t, now, user).0
    case ReactivateNumber(user, configured) => Reactivate(t, user, configured).0
    case CleanupSweep(ttl) => CleanupPending(t, now, ttl)
    case GraceSweep(grace) => SweepGrace(t, now, grace)
  }

  datatype Timed = Timed(at: int, step: Step)

  function After(t: Table, run: seq<Timed>): Table
    decreases |run|
  {
    if run == [] then t else After(Perform(t, run[0].at, run[0].step), run[1..])
  }

  // ---------------------------------------------------------------------------------------------
  // Invariants of every run
  // ---------------------------------------------------------------------------------------------

  /** Suspended implies a recorded time and reason; active, pending and failed imply neither; exactly the released rows
      have a release time. A number that is pending, failed or released takes no calls. */
  predicate WellFormed(n: Number) {
    && (n.status == Released <==> n.releasedAt.Some?)
    && match n.status
       case Suspended => n.suspendedAt.Some? && n.suspendReason.Some? && |n.suspendReason.value| <= REASON_LENGTH
       case Released => !n.webhook
       case Active => n.suspendedAt.None? && n.suspendReason.None?
       case _ => n.suspendedAt.None? && n.suspendReason.None? && !n.webhook
  }

  ghost predicate AllWellFormed(t: Table) {
    forall u :: u in t ==> WellFormed(t[u])
  }

  /** Released rows never change again, and no row ever disappears. */
  lemma ReleasedIsAbsorbing(t: Table, now: int, s: Step, u: nat)
    requires u in t
    ensures u in Perform(t, now, s)
    ensures t[u].status == Released ==> Perform(t, now, s)[u] == t[u]
  {
  }

  lemma StepKeepsWellFormed(t: Table, now: int, s: Step)
    requires AllWellFormed(t)
    ensures AllWellFormed(Perform(t, now, s))
  {
  }

  lemma {:induction false} RunsKeepRows(t: Table, run: seq<Timed>)
    requires AllWellFormed(t)
    ensures AllWellFormed(After(t, run))
    ensures forall u :: u in t ==> u in After(t, run) && (t[u].status == Released ==> After(t, run)[u] == t[u])
    decreases |run|
  {
    if run != [] {
      var t' := Perform(t, run[0].at, run[0].step);
      forall u | u in t
        ensures u in t' && (t[u].status == Released ==> t'[u] == t[u])
      {
        ReleasedIsAbsorbing(t, run[0].at, run[0].step, u);
      }
      StepKeepsWellFormed(t, run[0].at, run[0].step);
      RunsKeepRows(t', run[1..]);
    }
  }

  // ---------------------------------------------------------------------------------------------
  // The grace sweep and the history of statuses
  // ---------------------------------------------------------------------------------------------

  predicate Is(t: Table, u: nat, status: Status) {
    u in t && t[u].status == status
  }

  /** Since when the number has had this status without interruption, read off the statuses along the run alone. */
  function Since(t: Table, run: seq<Timed>, u: nat, status: Status, since: Option<int>): Option<int>
    decreases |run|
  {
    if run == [] then since
    else
      var t' := Perform(t, run[0].at, run[0].step);
      var since' := if !Is(t', u, status) then None else if Is(t, u, status) then since else Some(run[0].at);
      Since(t', run[1..], u, status, since')
  }

  /** The stored times agree with the history. */
  ghost predicate Tracks(t: Table, u: nat, suspended: Option<int>, pending: Option<int>) {
    && (if Is(t, u, Suspended) then t[u].suspendedAt.Some? && suspended == t[u].suspendedAt else suspended == None)
    && (if Is(t, u, Pending) then pending == Some(t[u].updatedAt) else pending == None)
  }

  /** Re-suspending never resets the clock: `suspended_at` is always the start of the current unbroken suspension. A
      pending number's `updated_at` is when it became pending. */
  lemma {:induction false} ClockIsStartOfStatus(
    t: Table, run: seq<Timed>, u: nat, suspended: Option<int>, pending: Option<int>)
    requires Tracks(t, u, suspended, pending)
    ensures Tracks(After(t, run), u, Since(t, run, u, Suspended, suspended), Since(t, run, u, Pending, pending))
    decreases |run|
  {
    if run != [] {
      var at, t' := run[0].at, Perform(t, run[0].at, run[0].step);
      var s := if !Is(t', u, Suspended) then None else if Is(t, u, Suspended) then suspended else Some(at);
      var p := if !Is(t', u, Pending) then None else if Is(t, u, Pending) then pending else Some(at);
      assert Tracks(t', u, s, p);
      ClockIsStartOfStatus(t', run[1..], u, s, p);
    }
  }

  /** The row before and after a release: status, time and webhook, and nothing else. */
  predicate ReleasedAt(before: Number, after: Number, now: int) {
    && after.status == Released && after.releasedAt == Some(now) && !after.webhook
    && after.suspendedAt == before.suspendedAt && after.suspendReason == before.suspendReason
    && after.updatedAt == before.updatedAt
  }

  /** After any run from an empty table, the grace sweep turns a row to released, at this time, if and only if it has
      been suspended without interruption since before the cutoff, and changes no other row. */
  lemma GraceSweepIsExact(run: seq<Timed>, now: int, grace: int, u: nat)
    requires u in After(map[], run)
    ensures
      var t, t' := After(map[], run), SweepGrace(After(map[], run), now, grace);
      var since := Since(map[], run, u, Suspended, None);
      && u in t'
      && (t[u].status != Released ==> (t'[u].status == Released <==> since.Some? && since.value < now - grace))
      && (if since.Some? && since.value < now - grace then ReleasedAt(t[u], t'[u], now) else t'[u] == t[u])
  {
    ClockIsStartOfStatus(map[], run, u, None, None);
  }

  /** The pending clean-up likewise, for numbers that have been pending since before the cutoff. */
  lemma CleanupIsExact(run: seq<Timed>, now: int, ttl: int, u: nat)
    requires u in After(map[], run)
    ensures
      var t, t' := After(map[], run), CleanupPending(After(map[], run), now, ttl);
      var since := Since(map[], run, u, Pending, None);
      && u in t'
      && (t[u].status != Released ==> (t'[u].status == Released <==> since.Some? && since.value < now - ttl))
      && (if since.Some? && since.value < now - ttl then ReleasedAt(t[u], t'[u], now) else t'[u] == t[u])
  {
    ClockIsStartOfStatus(map[], run, u, None, None);
    RunsKeepRows(map[], run);
  }

  /** Once a number was released it stays released in every continuation, and provisioning is refused; the release
      answers whether it did anything. */
  lemma ReleaseIsFinal(t: Table, now: int, u: nat, run: seq<Timed>, later: int, outcome: Purchase)
    requires u in t && AllWellFormed(t)
    ensures
      var released := Perform(t, now, ReleaseNumber(u));
      var end := After(released, run);
      && Is(end, u, Released) && end[u] == released[u]
      && (t[u].status != Released ==> ReleasedAt(t[u], end[u], now))
      && (Release(t, now, u).1 <==> released != t)
      && Provision(end, later, u, true, outcome) == (end, AlreadyOwned)
      && (forall v :: v in t && v != u ==> released[v] == t[v])
  {
    RunsKeepRows(Perform(t, now, ReleaseNumber(u)), run);
  }

  /** A suspension takes effect exactly on an active or pending number and records its time and the reason, cut to
      the column's length; a reactivation exactly on a suspended one, and takes them away again. */
  lemma SuspensionIsRecorded(t: Table, now: int, u: nat, reason: string, configured: bool)
    ensures
      var (t', done) := Suspend(t, now, u, reason);
      var (back, undone) := Reactivate(t', u, configured);
      && (done <==> Is(t, u, Active) || Is(t, u, Pending))
      && (!done ==> t' == t)
      && (done ==>
            && t'[u].status == Suspended && t'[u].suspendedAt == Some(now) && t'[u].suspendReason.Some?
            && t'[u].suspendReason.value <= reason
            && |t'[u].suspendReason.value| == (if |reason| <= REASON_LENGTH then |reason| else REASON_LENGTH)
            && undone && back[u].status == Active && (configured ==> back[u].webhook)
            && (!configured && t[u].status == Active ==> back[u] == t[u].(suspendedAt := None, suspendReason := None)))
      && (undone <==> Is(t', u, Suspended))
  {
  }

  // ---------------------------------------------------------------------------------------------
  // Who can get a number
  // ---------------------------------------------------------------------------------------------

  /** The owner's row is in a state no service call leads out of to an active number. */
  predicate Blocked(t: Table, u: nat) {
    u in t && (t[u].status == Released || t[u].status == Failed)
  }

  lemma {:induction false} BlockedForever(t: Table, run: seq<Timed>, u: nat)
    requires Blocked(t, u)
    ensures Blocked(After(t, run), u)
    decreases |run|
  {
    if run != [] {
      BlockedForever(Perform(t, run[0].at, run[0].step), run[1..], u);
    }
  }

  lemma AfterOne(t: Table, a: Timed)
    ensures After(t, [a]) == Perform(t, a.at, a.step)
  {
    assert [a][1..] == [];
  }

  lemma AfterTwo(t: Table, a: Timed, b: Timed)
    ensures After(t, [a, b]) == Perform(Perform(t, a.at, a.step), b.at, b.step)
  {
    assert [a, b][1..] == [b];
    AfterOne(Perform(t, a.at, a.step), b);
  }

  /** Some run gives the owner an active number, or finds it active. */
  lemma WayToActive(t: Table, u: nat, now: int) returns (run: seq<Timed>)
    requires !Blocked(t, u)
    ensures u in After(t, run) && After(t, run)[u].status == Active
  {
    var provision, suspend := Timed(now, ProvisionNumber(u, true, Bought)), Timed(now, SuspendNumber(u, ""));
    var reactivate := Timed(now, ReactivateNumber(u, true));
    if u !in t {
      run := [provision];
    } else if t[u].status == Active {
      run := [];
    } else if t[u].status == Suspended {
      run := [reactivate];
    } else {
      run := [suspend, reactivate];
      AfterTwo(t, suspend, reactivate);
    }
    if |run| == 1 {
      AfterOne(t, run[0]);
    }
  }

  /** An owner can get an active number if and only if there is no released or failed row: a failed purchase blocks
      the owner for good, as a release does. */
  lemma CanBecomeActiveIff(t: Table, u: nat)
    ensures (exists run :: u in After(t, run) && After(t, run)[u].status == Active) <==> !Blocked(t, u)
  {
    if Blocked(t, u) {
      forall run
        ensures !(u in After(t, run) && After(t, run)[u].status == Active)
      {
        BlockedForever(t, run, u);
      }
    } else {
      var run := WayToActive(t, u, 0);
    }
  }

  /** In particular an owner whose number was released, or whose purchase failed, never gets another one:
      the row refuses every provisioning. */
  lemma BlockedOwnerGetsNoNumber(t: Table, run: seq<Timed>, u: nat, now: int, outcome: Purchase)
    requires Blocked(t, u)
    ensures Provision(After(t, run), now, u, true, outcome) == (After(t, run), AlreadyOwned)
  {
    BlockedForever(t, run, u);
  }

  /** Provisioning answers with a number exactly when billing is active and the owner has an active or pending row, or
      none and the purchase succeeds; without active billing it is refused and changes nothing. A purchase always leaves
      a row, which takes calls, or waits to be cleaned up, or blocks its owner for good. */
  lemma ProvisionedIff(t: Table, now: int, u: nat, billing: bool, outcome: Purchase)
    ensures
      var (t', r) := Provision(t, now, u, billing, outcome);
      && (r.Provisioned? <==> billing && (Is(t, u, Active) || Is(t, u, Pending) || (u !in t && outcome == Bought)))
      && (r == BillingRequired <==> !billing)
      && (r.Provisioned? ==> u in t' && t'[u].status == r.status)
      && (u in t || !billing ==> t' == t)
      && (r == AlreadyOwned <==> billing && (Is(t, u, Suspended) || Blocked(t, u)))
      && (billing && u !in t ==>
            && u in t' && WellFormed(t'[u]) && t'[u].updatedAt == now
            && (t'[u].webhook <==> outcome == Bought)
            && (t'[u].status == Pending <==> outcome == Interrupted)
            && (Blocked(t', u) <==> outcome == Unavailable)
            && (forall v :: v in t' <==> v in t || v == u) && (forall v :: v in t ==> t'[v] == t[v]))
  {
  }

  ghost predicate NeverPaid(run: seq<Timed>, u: nat) {
    forall i :: 0 <= i < |run| ==>
      !(run[i].step.ProvisionNumber? && run[i].step.user == u && run[i].step.billingActive)
  }

  /** Nobody gets a row without a provisioning request made while billing was active. */
  lemma {:induction false} NoRowWithoutBilling(t: Table, run: seq<Timed>, u: nat)
    requires u !in t && NeverPaid(run, u)
    ensures u !in After(t, run)
    decreases |run|
  {
    if run != [] {
      assert forall i :: 0 <= i < |run[1..]| ==> run[1..][i] == run[i + 1];
      NoRowWithoutBilling(Perform(t, run[0].at, run[0].step), run[1..], u);
    }
  }

  // ---------------------------------------------------------------------------------------------
  // The services on a mutable table
  // ---------------------------------------------------------------------------------------------

  class NumberService {
    var rows: map<nat, Number>

    constructor ()
      ensures rows == map[]
    {
      rows := map[];
    }

    method ProvisionFor(now: int, user: nat, billingActive: bool, outcome: Purchase) returns (r: ProvisionResult)
      modifies this
      ensures (rows, r) == Provision(old(rows), now, user, billingActive, outcome)
    {
      if !billingActive {
        return BillingRequired;
      }
      if user in rows {
        if rows[user].status == Active || rows[user].status == Pending {
          return Provisioned(rows[user].status);
        }
        return AlreadyOwned;
      }
      rows := rows[user := Number(Pending, now, None, None, None, false)];
      if outcome == Interrupted {
        return NoNumber;
      }
      if outcome == Unavailable {
        rows := rows[user := rows[user].(status := Failed)];
        assert rows == Provision(old(rows), now, user, billingActive, outcome).0;
        return NoNumber;
      }
      rows := rows[user := rows[user].(status := Active, webhook := true)];
      assert rows == Provision(old(rows), now, user, billingActive, outcome).0;
      return Provisioned(Active);
    }

    method SuspendFor(now: int, user: nat, reason: string) returns (done: bool)
      modifies this
      ensures (rows, done) == Suspend(old(rows), now, user, reason)
    {
      if user !in rows || rows[user].status !in {Active, Pending} {
        return false;
      }
      rows := rows[user := rows[user].(
        status := Suspended, suspendReason := Some(Truncated(reason)), suspendedAt := Some(now))];
      return true;
    }

    method ReleaseFor(now: int, user: nat) returns (done: bool)
      modifies this
      ensures (rows, done) == Release(old(rows), now, user)
    {
      if user !in rows || rows[user].status == Released {
        return false;
      }
      rows := rows[user := rows[user].(status := Released, releasedAt := Some(now), webhook := false)];
      return true;
    }

    method ReactivateFor(user: nat, configured: bool) returns (done: bool)
      modifies this
      ensures (rows, done) == Reactivate(old(rows), user, configured)
    {
      if user !in rows || rows[user].status != Suspended {
        return false;
      }
      var webhook := configured || rows[user].webhook;
      rows := rows[user := rows[user].(status := Active, suspendReason := None, suspendedAt := None, webhook := webhook)];
      return true;
    }

    /** Selects the stale pending rows once, then releases them one by one. */
    method CleanupStalePending(now: int, ttl: int) returns (released: nat)
      modifies this
      ensures rows == CleanupPending(old(rows), now, ttl)
      ensures released == |Stale(old(rows), now - ttl)|
    {
      var stale := Stale(rows, now - ttl);
      var todo := stale;
      released := 0;
      assert rows == CleanupAll(rows, now, stale - todo);
      while todo != {}
        invariant todo <= stale && released + |todo| == |stale|
        invariant rows == CleanupAll(old(rows), now, stale - todo)
        decreases |todo|
      {
        Sets.HasMember(todo);
        var u :| u in todo;
        assert u in stale && rows[u] == old(rows)[u];
        rows := rows[u := rows[u].(status := Released, releasedAt := Some(now))];
        assert stale - (todo - {u}) == stale - todo + {u};
        released := released + 1;
        todo := todo - {u};
      }
      assert stale - todo == stale;
    }

    /** Selects the overdue rows once, then releases them one by one through the service. */
    method ReleaseAfterGrace(now: int, grace: int) returns (released: nat)
      modifies this
      ensures rows == SweepGrace(old(rows), now, grace)
      ensures released == |Overdue(old(rows), now - grace)|
    {
      var overdue := Overdue(rows, now - grace);
      var todo := overdue;
      released := 0;
      assert rows == ReleaseAll(rows, now, overdue - todo);
      while todo != {}
        invariant todo <= overdue && released + |todo| == |overdue|
        invariant rows == ReleaseAll(old(rows), now, overdue - todo)
        decreases |todo|
      {
        Sets.HasMember(todo);
        var u :| u in todo;
        assert u in overdue && rows[u] == old(rows)[u];
        var done := ReleaseFor(now, u);
        assert overdue - (todo - {u}) == overdue - todo + {u};
        if done {
          released := released + 1;
        }
        todo := todo - {u};
      }
      assert overdue - todo == overdue;
    }
  }
}
