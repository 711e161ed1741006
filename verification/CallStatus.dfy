/**
 The call status machine driven by provider webhooks: backend/app/services/call_service.py.

 Deliveries arrive duplicated and reordered. A delivery is keyed by its event type and provider status,
 as in the unique constraint of `call_events`.
*/
module CallStatus {
  import opened Options
  import Sets

  /** The eight values the table's check constraint admits. */
  datatype Status = Created | InboundReceived | TwimlResponded | InProgress | Completed | Partial | FailedCall | Canceled

  function StateOrder(s: Status): nat {
    match s
    case Created => 0
    case InboundReceived => 1
    case TwimlResponded => 2
    case InProgress => 3
    case _ => 10
  }

  predicate Terminal(s: Status) {
    s in {Completed, Partial, FailedCall, Canceled}
  }

  predicate IsValidTransition(current: Status, new_: Status) {
    if Terminal(current) && !Terminal(new_) then false
    else StateOrder(new_) >= StateOrder(current)
  }

  function MapTwilioStatus(s: string): Option<Status> {
    if s == "queued" then Some(Created)
    else if s == "ringing" then Some(InboundReceived)
    else if s == "in-progress" then Some(InProgress)
    else if s == "completed" then Some(Completed)
    else if s == "busy" || s == "failed" || s == "no-answer" then Some(FailedCall)
    else if s == "canceled" then Some(Canceled)
    else None
  }

  datatype Key = Key(eventType: string, providerStatus: Option<string>)

  datatype Delivery = Delivery(key: Key, status: Status, endedAt: Option<int>, duration: Option<int>)

  datatype Call = Call(status: Status, endedAt: Option<int>, duration: Option<int>, events: seq<Delivery>)

  predicate Recorded(events: seq<Delivery>, key: Key) {
    exists i :: 0 <= i < |events| && events[i].key == key
  }

  function Transition(c: Call, d: Delivery): (Call, bool) {
    if !IsValidTransition(c.status, d.status) then (c, false)
    else if Recorded(c.events, d.key) then (c, false)
    else
      (Call(d.status,
            if d.endedAt.Some? then d.endedAt else c.endedAt,
            if d.duration.Some? then d.duration else c.duration,
            c.events + [d]), true)
  }

  function Deliver(c: Call, ds: seq<Delivery>): Call
    decreases |ds|
  {
    if ds == [] then c else Deliver(Transition(c, ds[0]).0, ds[1..])
  }

  /** Each key always carries the same status. */
  ghost predicate Consistent(ds: seq<Delivery>) {
    forall i, j :: 0 <= i < |ds| && 0 <= j < |ds| && ds[i].key == ds[j].key ==> ds[i].status == ds[j].status
  }

  /** What every transition keeps: no recorded event outranks the call, and the call has the status
      of the last recorded event. */
  ghost predicate Valid(c: Call) {
    && (forall i :: 0 <= i < |c.events| ==> StateOrder(c.events[i].status) <= StateOrder(c.status))
    && (c.events != [] ==> c.status == c.events[|c.events| - 1].status)
  }

  lemma TransitionKeepsValid(c: Call, d: Delivery)
    requires Valid(c)
    ensures Valid(Transition(c, d).0)
    ensures StateOrder(c.status) <= StateOrder(Transition(c, d).0.status)
    ensures Terminal(c.status) ==> Terminal(Transition(c, d).0.status)
  {
  }

  /** The call's status is always the status of the last recorded transition, and its rank never falls. */
  lemma {:induction false} StatusIsLastRecorded(c: Call, ds: seq<Delivery>)
    requires Valid(c)
    ensures Valid(Deliver(c, ds))
    ensures StateOrder(c.status) <= StateOrder(Deliver(c, ds).status)
    ensures Terminal(c.status) ==> Terminal(Deliver(c, ds).status)
    decreases |ds|
  {
    if ds != [] {
      TransitionKeepsValid(c, ds[0]);
      StatusIsLastRecorded(Transition(c, ds[0]).0, ds[1..]);
    }
  }

  /** Deduplication never blocks an advance: a delivery whose key is already recorded cannot outrank the call. */
  lemma DuplicateNeverOutranks(c: Call, d: Delivery)
    requires Valid(c) && Consistent(c.events + [d])
    requires Recorded(c.events, d.key)
    ensures StateOrder(d.status) <= StateOrder(c.status)
  {
    var all := c.events + [d];
    var i :| 0 <= i < |c.events| && c.events[i].key == d.key;
    assert all[i] == c.events[i] && all[|c.events|] == d;
  }

  // ---------------------------------------------------------------------------------------------
  // The rank reached is the maximum seen
  // ---------------------------------------------------------------------------------------------

  function Max(a: nat, b: nat): nat {
    if a < b then b else a
  }

  function MaxRank(r: nat, ds: seq<Delivery>): nat
    decreases |ds|
  {
    if ds == [] then r else MaxRank(Max(r, StateOrder(ds[0].status)), ds[1..])
  }

  lemma ConsistentAfterStep(c: Call, ds: seq<Delivery>)
    requires ds != [] && Consistent(c.events + ds)
    ensures Consistent(c.events + [ds[0]])
    ensures Consistent(Transition(c, ds[0]).0.events + ds[1..])
  {
    var all := c.events + ds;
    assert forall i :: 0 <= i <= |c.events| ==> (c.events + [ds[0]])[i] == all[i];
    var c' := Transition(c, ds[0]).0;
    if c'.events == c.events {
      var rest := c.events + ds[1..];
      forall i, j | 0 <= i < |rest| && 0 <= j < |rest| && rest[i].key == rest[j].key
        ensures rest[i].status == rest[j].status
      {
        var k, l := if i < |c.events| then i else i + 1, if j < |c.events| then j else j + 1;
        assert rest[i] == all[k] && rest[j] == all[l];
      }
    } else {
      assert c'.events + ds[1..] == all;
    }
  }

  /** Any delivery sequence, with duplicates and in any order, ends at the maximum rank seen. */
  lemma {:induction false} FinalRankIsMaximum(c: Call, ds: seq<Delivery>)
    requires Valid(c) && Consistent(c.events + ds)
    ensures StateOrder(Deliver(c, ds).status) == MaxRank(StateOrder(c.status), ds)
    decreases |ds|
  {
    if ds != [] {
      ConsistentAfterStep(c, ds);
      if Recorded(c.events, ds[0].key) {
        DuplicateNeverOutranks(c, ds[0]);
      }
      TransitionKeepsValid(c, ds[0]);
      FinalRankIsMaximum(Transition(c, ds[0]).0, ds[1..]);
    }
  }

  /** The maximum rank is an upper bound that is reached, so it depends only on which deliveries occur. */
  lemma {:induction false} MaxRankIsMaximum(r: nat, ds: seq<Delivery>)
    ensures r <= MaxRank(r, ds)
    ensures forall d :: d in ds ==> StateOrder(d.status) <= MaxRank(r, ds)
    ensures MaxRank(r, ds) == r || exists d :: d in ds && StateOrder(d.status) == MaxRank(r, ds)
    decreases |ds|
  {
    if ds != [] {
      MaxRankIsMaximum(Max(r, StateOrder(ds[0].status)), ds[1..]);
      assert ds == [ds[0]] + ds[1..];
      assert ds[0] in ds;
    }
  }

  // ---------------------------------------------------------------------------------------------
  // Confluence
  // ---------------------------------------------------------------------------------------------

  /** New events are deliveries, and the status is that of the last one. */
  lemma {:induction false} DeliveredEvents(c: Call, ds: seq<Delivery>) returns (added: seq<Delivery>)
    ensures Deliver(c, ds).events == c.events + added
    ensures forall e :: e in added ==> e in ds
    ensures Deliver(c, ds).status == if added == [] then c.status else added[|added| - 1].status
    decreases |ds|
  {
    if ds == [] {
      added := [];
      assert c.events + added == c.events;
    } else {
      var c' := Transition(c, ds[0]).0;
      var rest := DeliveredEvents(c', ds[1..]);
      added := if Transition(c, ds[0]).1 then [ds[0]] + rest else rest;
      assert c.events + [ds[0]] + rest == c.events + ([ds[0]] + rest);
      assert forall e :: e in rest ==> e in ds;
    }
  }

  /** The last value carried by one of the events, else the call's own. */
  function LastDuration(own: Option<int>, events: seq<Delivery>): Option<int> {
    if events == [] then own
    else
      var last := events[|events| - 1];
      if last.duration.Some? then last.duration else LastDuration(own, events[..|events| - 1])
  }

  function LastEnd(own: Option<int>, events: seq<Delivery>): Option<int> {
    if events == [] then own
    else
      var last := events[|events| - 1];
      if last.endedAt.Some? then last.endedAt else LastEnd(own, events[..|events| - 1])
  }

  lemma DeliverLast(c: Call, front: seq<Delivery>, last: Delivery)
    ensures Deliver(c, front + [last]) == Transition(Deliver(c, front), last).0
  {
    DeliverAppend(c, front, [last]);
    assert [last][1..] == [];
  }

  lemma OneMoreEvent(own: Option<int>, events: seq<Delivery>, d: Delivery)
    ensures LastDuration(own, events + [d]) == if d.duration.Some? then d.duration else LastDuration(own, events)
    ensures LastEnd(own, events + [d]) == if d.endedAt.Some? then d.endedAt else LastEnd(own, events)
  {
    assert (events + [d])[..|events + [d]| - 1] == events;
  }

  /** `added` are the events recorded since `before`, and they account for duration and end time. */
  ghost predicate Accounts(before: Call, after: Call, added: seq<Delivery>) {
    && after.events == before.events + added
    && after.duration == LastDuration(before.duration, added)
    && after.endedAt == LastEnd(before.endedAt, added)
  }

  lemma TransitionAccounts(before: Call, c: Call, added: seq<Delivery>, d: Delivery)
    requires Accounts(before, c, added)
    ensures Accounts(before, Transition(c, d).0, if Transition(c, d).1 then added + [d] else added)
  {
    if Transition(c, d).1 {
      OneMoreEvent(before.duration, added, d);
      OneMoreEvent(before.endedAt, added, d);
      assert before.events + added + [d] == before.events + (added + [d]);
    }
  }

  /** Over any delivery list the final duration is that of the last newly recorded event that carries one, and the call's
      own if none does; the same holds for the end time. A callback that is not recorded changes neither. */
  lemma {:induction false} LastRecordedDurationWins(c: Call, ds: seq<Delivery>) returns (added: seq<Delivery>)
    ensures Deliver(c, ds).events == c.events + added
    ensures Deliver(c, ds).duration == LastDuration(c.duration, added)
    ensures Deliver(c, ds).endedAt == LastEnd(c.endedAt, added)
    decreases |ds|
  {
    if ds == [] {
      added := [];
      assert c.events + added == c.events;
    } else {
      var front, last := ds[..|ds| - 1], ds[|ds| - 1];
      assert ds == front + [last];
      DeliverLast(c, front, last);
      var before := LastRecordedDurationWins(c, front);
      TransitionAccounts(c, Deliver(c, front), before, last);
      added := if Transition(Deliver(c, front), last).1 then before + [last] else before;
    }
  }

  /** A terminal delivery is never lost: its key ends up recorded. */
  lemma {:induction false} TerminalIsRecorded(c: Call, ds: seq<Delivery>, d: Delivery)
    requires Terminal(d.status) && d in ds
    ensures Recorded(Deliver(c, ds).events, d.key)
    decreases |ds|
  {
    var c' := Transition(c, ds[0]).0;
    if ds[0] == d {
      if !Recorded(c.events, d.key) {
        assert c'.events[|c.events|] == d;
      }
      assert Recorded(c'.events, d.key);
      var added := DeliveredEvents(c', ds[1..]);
      var i :| 0 <= i < |c'.events| && c'.events[i].key == d.key;
      assert (c'.events + added)[i].key == d.key;
    } else {
      assert d in ds[1..];
      TerminalIsRecorded(c', ds[1..], d);
    }
  }

  ghost predicate TerminalsAgree(ds: set<Delivery>) {
    forall d, e :: d in ds && e in ds && Terminal(d.status) && Terminal(e.status) ==> d.status == e.status
  }

  function Members(ds: seq<Delivery>): set<Delivery> {
    set d | d in ds
  }

  ghost predicate ConsistentSet(ds: set<Delivery>) {
    forall d, e :: d in ds && e in ds && d.key == e.key ==> d.status == e.status
  }

  /** None of these keys has been recorded for the call yet. */
  ghost predicate Fresh(c: Call, ds: set<Delivery>) {
    forall d :: d in ds ==> !Recorded(c.events, d.key)
  }

  lemma ConsistentWithFresh(c: Call, ds: seq<Delivery>)
    requires Consistent(c.events) && ConsistentSet(Members(ds)) && Fresh(c, Members(ds))
    ensures Consistent(c.events + ds)
  {
    var all := c.events + ds;
    assert forall i :: 0 <= i < |c.events| ==> all[i] == c.events[i] && Recorded(c.events, all[i].key);
    assert forall i :: |c.events| <= i < |all| ==> all[i] in Members(ds) && !Recorded(c.events, all[i].key);
  }

  lemma TerminalFinalStatus(c: Call, ds: seq<Delivery>, d: Delivery)
    requires Valid(c) && Consistent(c.events) && ConsistentSet(Members(ds)) && Fresh(c, Members(ds))
    requires d in ds && Terminal(d.status) && TerminalsAgree(Members(ds))
    ensures Deliver(c, ds).status == d.status
  {
    ConsistentWithFresh(c, ds);
    FinalRankIsMaximum(c, ds);
    MaxRankIsMaximum(StateOrder(c.status), ds);
    var added := DeliveredEvents(c, ds);
    TerminalIsRecorded(c, ds, d);
    assert d in Members(ds);
    assert c.events + [] == c.events;
    assert added != [];
    var last := added[|added| - 1];
    assert last in added;
    assert last in Members(ds);
  }

  /** Without terminal deliveries the final status has the greatest rank, and it is the call's own or not terminal. */
  lemma UndecidedFinalStatus(c: Call, ds: seq<Delivery>)
    requires Valid(c) && Consistent(c.events) && ConsistentSet(Members(ds)) && Fresh(c, Members(ds))
    requires forall d :: d in ds ==> !Terminal(d.status)
    ensures
      var status := Deliver(c, ds).status;
      && StateOrder(status) == MaxRank(StateOrder(c.status), ds)
      && (Terminal(status) <==> Terminal(c.status))
      && (Terminal(c.status) ==> status == c.status)
  {
    ConsistentWithFresh(c, ds);
    FinalRankIsMaximum(c, ds);
    var added := DeliveredEvents(c, ds);
    assert added != [] ==> added[|added| - 1] in added;
    StatusIsLastRecorded(c, ds);
  }

  lemma SameMembersSameMax(r: nat, xs: seq<Delivery>, ys: seq<Delivery>)
    requires forall d :: d in xs <==> d in ys
    ensures MaxRank(r, xs) == MaxRank(r, ys)
  {
    MaxRankIsMaximum(r, xs);
    MaxRankIsMaximum(r, ys);
  }

  lemma SameMembersSameStatus(c: Call, xs: seq<Delivery>, ys: seq<Delivery>)
    requires Valid(c) && Consistent(c.events) && ConsistentSet(Members(xs)) && Fresh(c, Members(xs))
    requires Members(xs) == Members(ys) && TerminalsAgree(Members(xs))
    ensures Deliver(c, xs).status == Deliver(c, ys).status
  {
    assert forall d :: d in xs <==> d in Members(xs);
    assert forall d :: d in ys <==> d in Members(ys);
    if d :| d in xs && Terminal(d.status) {
      TerminalFinalStatus(c, xs, d);
      TerminalFinalStatus(c, ys, d);
    } else {
      UndecidedFinalStatus(c, xs);
      UndecidedFinalStatus(c, ys);
      SameMembersSameMax(StateOrder(c.status), xs, ys);
    }
  }

  lemma {:induction false} Listing(s: set<Delivery>) returns (l: seq<Delivery>)
    ensures Members(l) == s
    decreases |s|
  {
    if s == {} {
      l := [];
    } else {
      var x := Sets.Member(s);
      var rest := Listing(s - {x});
      l := rest + [x];
      assert forall d :: d in rest <==> d in Members(rest);
    }
  }

  lemma {:induction false} DeliverAppend(c: Call, xs: seq<Delivery>, ys: seq<Delivery>)
    ensures Deliver(c, xs + ys) == Deliver(Deliver(c, xs), ys)
    decreases |xs|
  {
    if xs == [] {
      assert xs + ys == ys;
    } else {
      assert (xs + ys)[1..] == xs[1..] + ys;
      DeliverAppend(Transition(c, xs[0]).0, xs[1..], ys);
    }
  }

  /** Deliveries of one recorded key change nothing. */
  lemma {:induction false} RecordedKeyIsInert(c: Call, ds: seq<Delivery>, key: Key)
    requires Recorded(c.events, key) && forall d :: d in ds ==> d.key == key
    ensures Deliver(c, ds) == c
    decreases |ds|
  {
    if ds != [] {
      assert ds[0] in ds;
      assert forall d :: d in ds[1..] ==> d in ds;
      RecordedKeyIsInert(c, ds[1..], key);
    }
  }

  /** Delivering one terminal key after everything else leaves the call with that key's status. */
  lemma LastTerminalKeyWins(c: Call, ds: set<Delivery>, last: Delivery) returns (order: seq<Delivery>)
    requires ConsistentSet(ds) && Fresh(c, ds)
    requires last in ds && Terminal(last.status)
    ensures Members(order) == ds && Deliver(c, order).status == last.status
  {
    var same := set d | d in ds && d.key == last.key;
    var xs := Listing(ds - same);
    var ys := Listing(same);
    assert forall d :: d in xs <==> d in Members(xs);
    assert forall d :: d in ys <==> d in Members(ys);
    order := xs + ys;
    assert Members(order) == ds;
    DeliverAppend(c, xs, ys);
    var mid := Deliver(c, xs);
    var added := DeliveredEvents(c, xs);
    assert !Recorded(mid.events, last.key) by {
      forall i | 0 <= i < |mid.events|
        ensures mid.events[i].key != last.key
      {
        if i < |c.events| {
          assert mid.events[i] == c.events[i] && Recorded(c.events, c.events[i].key);
        } else {
          assert mid.events[i] == added[i - |c.events|] && added[i - |c.events|] in added;
          assert mid.events[i] in ds - same;
        }
      }
    }
    assert last in ys;
    var first := ys[0];
    assert first in ys;
    assert first.key == last.key && first.status == last.status;
    var c' := Transition(mid, first).0;
    assert c'.events[|mid.events|] == first;
    assert forall d :: d in ys[1..] ==> d in ys;
    RecordedKeyIsInert(c', ys[1..], last.key);
  }

  /** For deliveries whose keys the call has not recorded. */
  lemma FreshOrderIndependentIff(c: Call, ds: set<Delivery>)
    requires Valid(c) && Consistent(c.events) && ConsistentSet(ds) && Fresh(c, ds)
    ensures
      (forall xs, ys :: Members(xs) == ds && Members(ys) == ds ==> Deliver(c, xs).status == Deliver(c, ys).status)
      <==> TerminalsAgree(ds)
  {
    if TerminalsAgree(ds) {
      forall xs, ys | Members(xs) == ds && Members(ys) == ds
        ensures Deliver(c, xs).status == Deliver(c, ys).status
      {
        SameMembersSameStatus(c, xs, ys);
      }
    } else {
      var d, e :| d in ds && e in ds && Terminal(d.status) && Terminal(e.status) && d.status != e.status;
      var xs := LastTerminalKeyWins(c, ds, d);
      var ys := LastTerminalKeyWins(c, ds, e);
      assert Deliver(c, xs).status != Deliver(c, ys).status;
    }
  }

  function Unrecorded(events: seq<Delivery>, ds: seq<Delivery>): seq<Delivery> {
    if ds == [] then []
    else (if Recorded(events, ds[0].key) then [] else [ds[0]]) + Unrecorded(events, ds[1..])
  }

  function UnrecordedSet(events: seq<Delivery>, ds: set<Delivery>): set<Delivery> {
    set d | d in ds && !Recorded(events, d.key)
  }

  lemma {:induction false} UnrecordedMembers(events: seq<Delivery>, ds: seq<Delivery>)
    ensures Members(Unrecorded(events, ds)) == UnrecordedSet(events, Members(ds))
    decreases |ds|
  {
    if ds != [] {
      UnrecordedMembers(events, ds[1..]);
      assert Members(ds) == {ds[0]} + Members(ds[1..]);
      var head := if Recorded(events, ds[0].key) then [] else [ds[0]];
      assert Members(head + Unrecorded(events, ds[1..])) == Members(head) + Members(Unrecorded(events, ds[1..]));
    }
  }

  lemma RecordedInEither(old_: seq<Delivery>, new_: seq<Delivery>, key: Key)
    ensures Recorded(old_ + new_, key) <==> Recorded(old_, key) || Recorded(new_, key)
  {
    var all := old_ + new_;
    if Recorded(old_, key) {
      var i :| 0 <= i < |old_| && old_[i].key == key;
      assert all[i].key == key;
    }
    if Recorded(new_, key) {
      var i :| 0 <= i < |new_| && new_[i].key == key;
      assert all[|old_| + i].key == key;
    }
  }

  /** What was recorded before only filters the deliveries. */
  lemma {:induction false} HistoryOnlyFilters(c: Call, old_: seq<Delivery>, ds: seq<Delivery>)
    ensures Deliver(c.(events := old_ + c.events), ds).status == Deliver(c, Unrecorded(old_, ds)).status
    decreases |ds|
  {
    if ds != [] {
      var d, full := ds[0], c.(events := old_ + c.events);
      RecordedInEither(old_, c.events, d.key);
      if Recorded(old_, d.key) {
        assert Transition(full, d).0 == full;
        assert Unrecorded(old_, ds) == Unrecorded(old_, ds[1..]);
        HistoryOnlyFilters(c, old_, ds[1..]);
      } else {
        var c' := Transition(c, d).0;
        assert old_ + (c.events + [d]) == old_ + c.events + [d];
        assert Transition(full, d).0 == c'.(events := old_ + c'.events);
        HistoryOnlyFilters(c', old_, ds[1..]);
        assert Unrecorded(old_, ds)[0] == d && Unrecorded(old_, ds)[1..] == Unrecorded(old_, ds[1..]);
      }
    }
  }

  /** The call as if it had no recorded events. */
  function Forgetful(c: Call): Call {
    c.(events := [])
  }

  lemma SameAsForgetful(c: Call, ds: seq<Delivery>)
    ensures Deliver(c, ds).status == Deliver(Forgetful(c), Unrecorded(c.events, ds)).status
  {
    assert c.(events := c.events + []) == c;
    HistoryOnlyFilters(Forgetful(c), c.events, ds);
  }

  lemma {:induction false} AllUnrecorded(events: seq<Delivery>, ds: seq<Delivery>)
    requires forall d :: d in ds ==> !Recorded(events, d.key)
    ensures Unrecorded(events, ds) == ds
    decreases |ds|
  {
    if ds != [] {
      assert ds[0] in ds;
      AllUnrecorded(events, ds[1..]);
    }
  }

  lemma {:induction false} UnrecordedAppend(events: seq<Delivery>, xs: seq<Delivery>, ys: seq<Delivery>)
    requires forall d :: d in ys ==> Recorded(events, d.key)
    ensures Unrecorded(events, xs + ys) == Unrecorded(events, xs)
    decreases |xs| + |ys|
  {
    if xs != [] {
      assert (xs + ys)[1..] == xs[1..] + ys;
      UnrecordedAppend(events, xs[1..], ys);
    } else if ys != [] {
      assert ys[0] in ys && xs + ys == ys;
      assert [] + ys[1..] == ys[1..];
      UnrecordedAppend(events, [], ys[1..]);
    } else {
      assert xs + ys == [];
    }
  }

  /** Any order of the unrecorded deliveries extends to one of all, with the same outcome. */
  lemma ExtendOrder(c: Call, ds: set<Delivery>, xs: seq<Delivery>) returns (all: seq<Delivery>)
    requires Members(xs) == UnrecordedSet(c.events, ds)
    ensures Members(all) == ds && Deliver(c, all).status == Deliver(Forgetful(c), xs).status
  {
    var rest := Listing(ds - UnrecordedSet(c.events, ds));
    all := xs + rest;
    assert forall d :: d in xs <==> d in Members(xs);
    assert forall d :: d in rest <==> d in Members(rest);
    UnrecordedAppend(c.events, xs, rest);
    AllUnrecorded(c.events, xs);
    SameAsForgetful(c, all);
  }

  /** For any call the final status of a set of deliveries is independent of their order and of duplicates if and only
      if the terminal deliveries among them whose keys are not yet recorded carry one status. */
  lemma OrderIndependentIffTerminalsAgree(c: Call, ds: set<Delivery>)
    requires ConsistentSet(UnrecordedSet(c.events, ds))
    ensures
      (forall xs, ys :: Members(xs) == ds && Members(ys) == ds ==> Deliver(c, xs).status == Deliver(c, ys).status)
      <==> TerminalsAgree(UnrecordedSet(c.events, ds))
  {
    var unrecorded, bare := UnrecordedSet(c.events, ds), Forgetful(c);
    FreshOrderIndependentIff(bare, unrecorded);
    if TerminalsAgree(unrecorded) {
      forall xs, ys | Members(xs) == ds && Members(ys) == ds
        ensures Deliver(c, xs).status == Deliver(c, ys).status
      {
        SameAsForgetful(c, xs);
        SameAsForgetful(c, ys);
        UnrecordedMembers(c.events, xs);
        UnrecordedMembers(c.events, ys);
      }
    } else {
      var xs, ys :|
        Members(xs) == unrecorded && Members(ys) == unrecorded && Deliver(bare, xs).status != Deliver(bare, ys).status;
      var allXs := ExtendOrder(c, ds, xs);
      var allYs := ExtendOrder(c, ds, ys);
    }
  }

  /** Where a provider status stands in the life of a call; the last position is final. */
  function LifePosition(s: string): Option<nat> {
    if s == "queued" then Some(0)
    else if s == "ringing" then Some(1)
    else if s == "in-progress" then Some(2)
    else if s == "completed" || s == "busy" || s == "failed" || s == "no-answer" || s == "canceled" then Some(3)
    else None
  }

  ghost predicate InLifeOrder(ss: seq<string>) {
    && (forall i :: 0 <= i < |ss| ==> LifePosition(ss[i]).Some?)
    && (forall i, j :: 0 <= i < j < |ss| ==> LifePosition(ss[i]).value < LifePosition(ss[j]).value)
  }

  function Callback(s: string): Delivery
    requires LifePosition(s).Some?
  {
    Delivery(Key("provider_status_update", Some(s)), MapTwilioStatus(s).value, None, None)
  }

  function Callbacks(ss: seq<string>): (ds: seq<Delivery>)
    requires forall i :: 0 <= i < |ss| ==> LifePosition(ss[i]).Some?
    ensures |ds| == |ss|
  {
    if ss == [] then [] else [Callback(ss[0])] + Callbacks(ss[1..])
  }

  /** The call stands before the first of these callbacks. */
  ghost predicate Before(c: Call, ss: seq<string>) {
    forall i :: 0 <= i < |ss| && LifePosition(ss[i]).Some? ==>
      && !Recorded(c.events, Callback(ss[i]).key)
      && !Terminal(c.status) && StateOrder(c.status) <= StateOrder(Callback(ss[i]).status)
  }

  lemma CallbackAdvances(c: Call, ss: seq<string>)
    requires ss != [] && InLifeOrder(ss) && Before(c, ss)
    ensures Transition(c, Callback(ss[0])).1 && Before(Transition(c, Callback(ss[0])).0, ss[1..])
  {
    var c', rest := Transition(c, Callback(ss[0])).0, ss[1..];
    assert c'.events == c.events + [Callback(ss[0])];
    forall i | 0 <= i < |rest| && LifePosition(rest[i]).Some?
      ensures !Recorded(c'.events, Callback(rest[i]).key)
      ensures !Terminal(c'.status) && StateOrder(c'.status) <= StateOrder(Callback(rest[i]).status)
    {
      assert rest[i] == ss[i + 1] && LifePosition(ss[0]).value < LifePosition(ss[i + 1]).value;
      RecordedInEither(c.events, [Callback(ss[0])], Callback(rest[i]).key);
    }
  }

  lemma DeliverRecorded(c: Call, d: Delivery, rest: seq<Delivery>)
    requires Transition(c, d).1
    ensures Deliver(c, [d] + rest) == Deliver(Transition(c, d).0, rest)
    ensures Transition(c, d).0.events == c.events + [d] && Transition(c, d).0.status == d.status
    ensures c.events + ([d] + rest) == c.events + [d] + rest
  {
    assert ([d] + rest)[1..] == rest;
  }

  lemma {:induction false} CallbacksAdvanceFrom(c: Call, ss: seq<string>)
    requires InLifeOrder(ss) && Before(c, ss)
    ensures Deliver(c, Callbacks(ss)).events == c.events + Callbacks(ss)
    ensures Deliver(c, Callbacks(ss)).status == if ss == [] then c.status else Callback(ss[|ss| - 1]).status
    decreases |ss|
  {
    if ss == [] {
      assert c.events + [] == c.events;
    } else {
      var d, tail := Callback(ss[0]), ss[1..];
      CallbackAdvances(c, ss);
      LifeOrderTail(ss);
      DeliverRecorded(c, d, Callbacks(tail));
      CallbacksAdvanceFrom(Transition(c, d).0, tail);
    }
  }

  lemma LifeOrderTail(ss: seq<string>)
    requires InLifeOrder(ss) && ss != []
    ensures InLifeOrder(ss[1..])
    ensures Callbacks(ss) == [Callback(ss[0])] + Callbacks(ss[1..])
  {
    assert forall i :: 0 <= i < |ss[1..]| ==> ss[1..][i] == ss[i + 1];
  }

  /** The provider's life cycle goes through: callbacks that come in life order, with any of them missing, are all
      recorded on a new call, and it ends with the status of the last. */
  lemma LifeCycleAdvances(c: Call, ss: seq<string>)
    requires c.status == Created && c.events == [] && InLifeOrder(ss)
    ensures |Deliver(c, Callbacks(ss)).events| == |ss|
    ensures ss != [] ==> MapTwilioStatus(ss[|ss| - 1]) == Some(Deliver(c, Callbacks(ss)).status)
    ensures ss != [] && LifePosition(ss[|ss| - 1]) == Some(3) <==> Terminal(Deliver(c, Callbacks(ss)).status)
  {
    CallbacksAdvanceFrom(c, ss);
  }

  /** Twilio's own statuses are consistent: a provider status names one internal status, so the
      status callback meets the condition above for any history of callbacks. */
  lemma CallbacksAreConsistent(ds: seq<Delivery>)
    requires forall i :: 0 <= i < |ds| ==>
      && ds[i].key.eventType == "provider_status_update"
      && ds[i].key.providerStatus.Some?
      && MapTwilioStatus(ds[i].key.providerStatus.value) == Some(ds[i].status)
    ensures Consistent(ds)
  {
  }

  class CallRecord {
    var status: Status
    var endedAt: Option<int>
    var duration: Option<int>
    var events: seq<Delivery>

    function State(): Call
      reads this
    {
      Call(status, endedAt, duration, events)
    }

    constructor (status: Status)
      ensures State() == Call(status, None, None, []) && Valid(State())
    {
      this.status, endedAt, duration, events := status, None, None, [];
    }

    method TransitionStatus(d: Delivery) returns (recorded: bool)
      modifies this
      ensures (State(), recorded) == Transition(old(State()), d)
      ensures old(Valid(State())) ==> Valid(State())
    {
      if !IsValidTransition(status, d.status) {
        return false;
      }
      if Recorded(events, d.key) {
        return false;
      }
      status := d.status;
      if d.endedAt.Some? {
        endedAt := d.endedAt;
      }
      if d.duration.Some? {
        duration := d.duration;
      }
      events := events + [d];
      return true;
    }
  }
}
