/**
 Live-handoff offers and the one-shot transfer:
 backend/app/services/handoff_service.py and backend/app/services/transfer_service.py.

 Each service call is one serial transaction on the offers and calls tables. `utcnow()` is a parameter
 and never goes backwards along a run.
*/
module Handoff {
  import opened Options
  import Sets

  datatype OfferStatus = Offered | Accepted | Declined | Expired

  datatype Offer = Offer(
    callId: nat, status: OfferStatus, expiresAt: int,
    acceptedAt: Option<int>, declinedAt: Option<int>, device: Option<nat>)

  /** The values of `calls.handoff_status` these services read or write. */
  datatype HandoffStatus = Unset | UrgentCandidate | Mirrors(status: OfferStatus) | TransferStarting | Failed

  datatype Call = Call(
    inProgress: bool, loopDetected: bool, attempts: nat, handoff: HandoffStatus,
    offeredAt: Option<int>, offerExpiresAt: Option<int>, acceptedAt: Option<int>, device: Option<nat>)

  datatype Tables = Tables(offers: map<nat, Offer>, calls: map<nat, Call>)

  datatype Response =
    | Created
    | Conflict        // the unique constraint on call_id, or a missing call row
    | NotFound
    | Won
    | Lost(current: OfferStatus)
    | TooLate         // accept_offer found the deadline passed
    | AlreadyResolved(current: OfferStatus)
    | Withdrawn       // decline_offer succeeded
    | Swept(count: nat)
    | TransferStarted
    | NoTargetPhone
    | CallNotInProgress
    | OfferNotAccepted
    | AlreadyAttempted
    | LoopDetected
    | Noted

  datatype Step =
    | Create(offerId: nat, callId: nat, timeout: int)
    | Accept(offerId: nat, device: nat)
    | Decline(offerId: nat)
    | Sweep
    | Transfer(callId: nat, offerId: nat, hasTarget: bool)
    | CallChanges(callId: nat, inProgress: bool, loopDetected: bool) // the rest of the system

  /** `UPDATE calls SET handoff_status = ... WHERE id = callId`: no row, no effect. */
  function Sync(calls: map<nat, Call>, callId: nat, status: OfferStatus): map<nat, Call> {
    if callId in calls then calls[callId := calls[callId].(handoff := Mirrors(status))] else calls
  }

  predicate HasOffer(t: Tables, callId: nat) {
    exists o :: o in t.offers && t.offers[o].callId == callId
  }

  predicate Stale(o: Offer, now: int) {
    o.status == Offered && o.expiresAt < now
  }

  function CreateOffer(t: Tables, now: int, offerId: nat, callId: nat, timeout: int): (Tables, Response) {
    if offerId in t.offers || callId !in t.calls || HasOffer(t, callId) then
      (t, Conflict)
    else
      var expiresAt := now + timeout;
      var call := t.calls[callId].(
        handoff := Mirrors(Offered), offeredAt := Some(now), offerExpiresAt := Some(expiresAt));
      (Tables(t.offers[offerId := Offer(callId, Offered, expiresAt, None, None, None)], t.calls[callId := call]), Created)
  }

  function AcceptOffer(t: Tables, now: int, offerId: nat, device: nat): (Tables, Response) {
    if offerId !in t.offers then (t, NotFound)
    else
      var offer := t.offers[offerId];
      if offer.status != Offered then (t, Lost(offer.status))
      else if offer.expiresAt < now then
        (Tables(t.offers[offerId := offer.(status := Expired)], Sync(t.calls, offer.callId, Expired)), TooLate)
      else
        var offer' := offer.(status := Accepted, device := Some(device), acceptedAt := Some(now));
        var calls := Sync(t.calls, offer.callId, Accepted);
        var calls' := if offer.callId in calls
                      then calls[offer.callId := calls[offer.callId].(acceptedAt := Some(now), device := Some(device))]
                      else calls;
        (Tables(t.offers[offerId := offer'], calls'), Won)
  }

  function DeclineOffer(t: Tables, now: int, offerId: nat): (Tables, Response) {
    if offerId !in t.offers then (t, NotFound)
    else
      var offer := t.offers[offerId];
      if offer.status != Offered then (t, AlreadyResolved(offer.status))
      else
        (Tables(t.offers[offerId := offer.(status := Declined, declinedAt := Some(now))],
                Sync(t.calls, offer.callId, Declined)), Withdrawn)
  }

  function StaleIds(t: Tables, now: int): set<nat> {
    set o | o in t.offers && Stale(t.offers[o], now)
  }

  function ExpiredOffers(offers: map<nat, Offer>, ids: set<nat>): map<nat, Offer> {
    map o | o in offers :: if o in ids then offers[o].(status := Expired) else offers[o]
  }

  function ExpiredCalls(offers: map<nat, Offer>, calls: map<nat, Call>, ids: set<nat>): map<nat, Call> {
    map c | c in calls ::
      if exists o :: o in ids && o in offers && offers[o].callId == c then calls[c].(handoff := Mirrors(Expired))
      else calls[c]
  }

  function SweepOffers(t: Tables, now: int): (Tables, Response) {
    var stale := StaleIds(t, now);
    (Tables(ExpiredOffers(t.offers, stale), ExpiredCalls(t.offers, t.calls, stale)), Swept(|stale|))
  }

  /** The guards run in the source's order. They do not compare `offer.call_id` with the call. */
  function InitiateTransfer(t: Tables, callId: nat, offerId: nat, hasTarget: bool): (Tables, Response) {
    if callId !in t.calls || offerId !in t.offers then (t, NotFound)
    else
      var call, offer := t.calls[callId], t.offers[offerId];
      if !call.inProgress then (t, CallNotInProgress)
      else if offer.status != Accepted then (t, OfferNotAccepted)
      else if call.attempts > 0 then (t, AlreadyAttempted)
      else if call.loopDetected then (t, LoopDetected)
      else
        var call' := call.(attempts := call.attempts + 1, handoff := if hasTarget then TransferStarting else Failed);
        (t.(calls := t.calls[callId := call']), if hasTarget then TransferStarted else NoTargetPhone)
  }

  function ChangeCall(t: Tables, callId: nat, inProgress: bool, loopDetected: bool): (Tables, Response) {
    if callId !in t.calls then (t, NotFound)
    else (t.(calls := t.calls[callId := t.calls[callId].(inProgress := inProgress, loopDetected := loopDetected)]), Noted)
  }

  function Perform(t: Tables, now: int, step: Step): (Tables, Response) {
    match step
    case Create(offerId, callId, timeout) => CreateOffer(t, now, offerId, callId, timeout)
    case Accept(offerId, device) => AcceptOffer(t, now, offerId, device)
    case Decline(offerId) => DeclineOffer(t, now, offerId)
    case Sweep => SweepOffers(t, now)
    case Transfer(callId, offerId, hasTarget) => InitiateTransfer(t, callId, offerId, hasTarget)
    case CallChanges(callId, inProgress, loopDetected) => ChangeCall(t, callId, inProgress, loopDetected)
  }

  // ---------------------------------------------------------------------------------------------
  // Runs
  // ---------------------------------------------------------------------------------------------

  datatype Timed = Timed(at: int, step: Step)

  ghost predicate Chronological(run: seq<Timed>, from: int) {
    && (forall i :: 0 <= i < |run| ==> from <= run[i].at)
    && (forall i, j :: 0 <= i < j < |run| ==> run[i].at <= run[j].at)
  }

  function After(t: Tables, run: seq<Timed>): Tables
    decreases |run|
  {
    if run == [] then t else After(Perform(t, run[0].at, run[0].step).0, run[1..])
  }

  function Responses(t: Tables, run: seq<Timed>): (r: seq<Response>)
    ensures |r| == |run|
    decreases |run|
  {
    if run == [] then []
    else
      var (t', response) := Perform(t, run[0].at, run[0].step);
      [response] + Responses(t', run[1..])
  }

  /** What the winners see: whether each accept won, and every transfer's full answer. */
  datatype Observation =
    | AcceptSaw(offerId: nat, device: nat, won: bool)
    | TransferSaw(callId: nat, offerId: nat, answer: Response)

  function Observe(step: Step, response: Response): seq<Observation> {
    match step
    case Accept(offerId, device) => [AcceptSaw(offerId, device, response == Won)]
    case Transfer(callId, offerId, _) => [TransferSaw(callId, offerId, response)]
    case _ => []
  }

  function Observations(t: Tables, run: seq<Timed>): seq<Observation>
    decreases |run|
  {
    if run == [] then []
    else
      var (t', response) := Perform(t, run[0].at, run[0].step);
      Observe(run[0].step, response) + Observations(t', run[1..])
  }

  function WithoutSweeps(run: seq<Timed>): (r: seq<Timed>)
    ensures |r| <= |run|
    ensures forall s :: s in r ==> s in run && s.step != Sweep
    decreases |run|
  {
    if run == [] then []
    else if run[0].step == Sweep then WithoutSweeps(run[1..])
    else [run[0]] + WithoutSweeps(run[1..])
  }

  // ---------------------------------------------------------------------------------------------
  // Sweep timing is unobservable to winners
  // ---------------------------------------------------------------------------------------------

  /** Offers agree, or both are past their deadline and neither was accepted. */
  ghost predicate SameOrDead(a: Offer, b: Offer, now: int) {
    || a == b
    || (&& a.callId == b.callId && a.expiresAt == b.expiresAt && a.expiresAt < now
        && a.status != Accepted && b.status != Accepted)
  }

  /** Calls agree except for the mirrored handoff status, which no guard reads. */
  ghost predicate Similar(a: Tables, b: Tables, now: int) {
    && a.offers.Keys == b.offers.Keys
    && (forall o :: o in a.offers ==> SameOrDead(a.offers[o], b.offers[o], now))
    && a.calls.Keys == b.calls.Keys
    && (forall c :: c in a.calls ==> a.calls[c].(handoff := Unset) == b.calls[c].(handoff := Unset))
  }

  lemma SimilarLater(a: Tables, b: Tables, now: int, later: int)
    requires Similar(a, b, now) && now <= later
    ensures Similar(a, b, later)
  {
  }

  /** A sweep on one side only keeps the tables similar. */
  lemma SweepIsInvisible(a: Tables, b: Tables, now: int)
    requires Similar(a, b, now)
    ensures Similar(SweepOffers(a, now).0, b, now)
  {
  }

  lemma CreateKeepsSimilar(a: Tables, b: Tables, now: int, offerId: nat, callId: nat, timeout: int)
    requires Similar(a, b, now)
    ensures Similar(CreateOffer(a, now, offerId, callId, timeout).0, CreateOffer(b, now, offerId, callId, timeout).0, now)
  {
    if HasOffer(a, callId) {
      var o :| o in a.offers && a.offers[o].callId == callId;
      assert b.offers[o].callId == callId;
    }
    if HasOffer(b, callId) {
      var o :| o in b.offers && b.offers[o].callId == callId;
      assert a.offers[o].callId == callId;
    }
  }

  lemma SyncKeepsSimilar(a: map<nat, Call>, b: map<nat, Call>, callId: nat, s: OfferStatus)
    requires a.Keys == b.Keys
    requires forall c :: c in a ==> a[c].(handoff := Unset) == b[c].(handoff := Unset)
    ensures Sync(a, callId, s).Keys == b.Keys
    ensures forall c :: c in a ==> Sync(a, callId, s)[c].(handoff := Unset) == b[c].(handoff := Unset)
  {
  }

  /** On an offer that is resolved or past its deadline an accept at most expires it, on either side. */
  lemma DeadAcceptKeepsOffers(a: Tables, b: Tables, now: int, offerId: nat, device: nat)
    requires Similar(a, b, now) && offerId in a.offers
    requires !(a.offers[offerId].status == Offered && now <= a.offers[offerId].expiresAt)
    ensures
      var (a', ra) := AcceptOffer(a, now, offerId, device);
      var (b', rb) := AcceptOffer(b, now, offerId, device);
      && ra != Won && rb != Won
      && a'.offers.Keys == b'.offers.Keys
      && (forall o :: o in a'.offers ==> SameOrDead(a'.offers[o], b'.offers[o], now))
  {
  }

  lemma AcceptKeepsSimilar(a: Tables, b: Tables, now: int, offerId: nat, device: nat)
    requires Similar(a, b, now)
    ensures Similar(AcceptOffer(a, now, offerId, device).0, AcceptOffer(b, now, offerId, device).0, now)
    ensures AcceptOffer(a, now, offerId, device).1 == Won <==> AcceptOffer(b, now, offerId, device).1 == Won
  {
    if offerId in a.offers {
      var x, y := a.offers[offerId], b.offers[offerId];
      var callId := x.callId;
      assert y.callId == callId;
      if x.status == Offered && now <= x.expiresAt {
        assert x == y;
      } else {
        DeadAcceptKeepsOffers(a, b, now, offerId, device);
        SyncKeepsSimilar(a.calls, b.calls, callId, Expired);
        SyncKeepsSimilar(b.calls, a.calls, callId, Expired);
        SyncKeepsSimilar(Sync(a.calls, callId, Expired), Sync(b.calls, callId, Expired), callId, Expired);
      }
    }
  }

  lemma DeclineKeepsSimilar(a: Tables, b: Tables, now: int, offerId: nat)
    requires Similar(a, b, now)
    ensures Similar(DeclineOffer(a, now, offerId).0, DeclineOffer(b, now, offerId).0, now)
  {
    if offerId in a.offers {
      var x, y := a.offers[offerId], b.offers[offerId];
      SyncKeepsSimilar(a.calls, b.calls, x.callId, Declined);
      SyncKeepsSimilar(b.calls, a.calls, x.callId, Declined);
    }
  }

  lemma TransferKeepsSimilar(a: Tables, b: Tables, now: int, callId: nat, offerId: nat, hasTarget: bool)
    requires Similar(a, b, now)
    ensures
      Similar(InitiateTransfer(a, callId, offerId, hasTarget).0, InitiateTransfer(b, callId, offerId, hasTarget).0, now)
    ensures InitiateTransfer(a, callId, offerId, hasTarget).1 == InitiateTransfer(b, callId, offerId, hasTarget).1
  {
    if callId in a.calls && offerId in a.offers {
      var x, y := a.calls[callId], b.calls[callId];
      assert x.(handoff := Unset) == y.(handoff := Unset);
      assert x.inProgress == y.inProgress && x.attempts == y.attempts && x.loopDetected == y.loopDetected;
    }
  }

  lemma ChangeKeepsSimilar(a: Tables, b: Tables, now: int, callId: nat, inProgress: bool, loopDetected: bool)
    requires Similar(a, b, now)
    ensures
      Similar(ChangeCall(a, callId, inProgress, loopDetected).0, ChangeCall(b, callId, inProgress, loopDetected).0, now)
  {
    if callId in a.calls {
      assert a.calls[callId].(handoff := Unset) == b.calls[callId].(handoff := Unset);
    }
  }

  lemma StepKeepsSimilar(a: Tables, b: Tables, now: int, step: Step)
    requires Similar(a, b, now) && step != Sweep
    ensures Similar(Perform(a, now, step).0, Perform(b, now, step).0, now)
    ensures Observe(step, Perform(a, now, step).1) == Observe(step, Perform(b, now, step).1)
  {
    match step
    case Create(offerId, callId, timeout) => CreateKeepsSimilar(a, b, now, offerId, callId, timeout);
    case Accept(offerId, device) => AcceptKeepsSimilar(a, b, now, offerId, device);
    case Decline(offerId) => DeclineKeepsSimilar(a, b, now, offerId);
    case Transfer(callId, offerId, hasTarget) => TransferKeepsSimilar(a, b, now, callId, offerId, hasTarget);
    case CallChanges(callId, inProgress, loopDetected) => ChangeKeepsSimilar(a, b, now, callId, inProgress, loopDetected);
  }

  lemma ObserveFirst(t: Tables, first: Timed, rest: seq<Timed>)
    ensures
      var (t', response) := Perform(t, first.at, first.step);
      Observations(t, [first] + rest) == Observe(first.step, response) + Observations(t', rest)
  {
    assert ([first] + rest)[1..] == rest;
  }

  lemma {:induction false} SimilarTablesObserveAlike(a: Tables, b: Tables, run: seq<Timed>, from: int)
    requires Similar(a, b, from) && Chronological(run, from)
    ensures Observations(a, run) == Observations(b, WithoutSweeps(run))
    decreases |run|
  {
    if run != [] {
      var now, step := run[0].at, run[0].step;
      SimilarLater(a, b, from, now);
      var a' := Perform(a, now, step).0;
      assert Chronological(run[1..], now);
      if step == Sweep {
        SweepIsInvisible(a, b, now);
        SimilarTablesObserveAlike(a', b, run[1..], now);
      } else {
        StepKeepsSimilar(a, b, now, step);
        SimilarTablesObserveAlike(a', Perform(b, now, step).0, run[1..], now);
        ObserveFirst(b, run[0], WithoutSweeps(run[1..]));
      }
    }
  }

  /** Two runs that differ only in when and how often the sweepers ran let the same accepts win
      and start the same transfers. */
  lemma SweepTimingIsUnobservable(t: Tables, run: seq<Timed>, other: seq<Timed>, from: int)
    requires Chronological(run, from) && Chronological(other, from)
    requires WithoutSweeps(run) == WithoutSweeps(other)
    ensures Observations(t, run) == Observations(t, other)
  {
    SimilarTablesObserveAlike(t, t, run, from);
    SimilarTablesObserveAlike(t, t, other, from);
  }

  // ---------------------------------------------------------------------------------------------
  // Offers are resolved once, accepted in time and by one winner
  // ---------------------------------------------------------------------------------------------

  /** A step leaves every resolved offer exactly as it was. */
  lemma ResolvedOfferIsFinal(t: Tables, now: int, step: Step, o: nat)
    requires o in t.offers && t.offers[o].status != Offered
    ensures var t' := Perform(t, now, step).0; o in t'.offers && t'.offers[o] == t.offers[o]
  {
  }

  lemma {:induction false} ResolvedOfferStaysResolved(t: Tables, run: seq<Timed>, o: nat)
    requires o in t.offers && t.offers[o].status != Offered
    ensures o in After(t, run).offers && After(t, run).offers[o] == t.offers[o]
    decreases |run|
  {
    if run != [] {
      ResolvedOfferIsFinal(t, run[0].at, run[0].step, o);
      ResolvedOfferStaysResolved(Perform(t, run[0].at, run[0].step).0, run[1..], o);
    }
  }

  predicate Wins(run: seq<Timed>, responses: seq<Response>, i: nat, o: nat)
    requires |responses| == |run|
  {
    i < |run| && run[i].step.Accept? && run[i].step.offerId == o && responses[i] == Won
  }

  /** A resolved offer is never won again. */
  lemma {:induction false} NoWinOnceResolved(t: Tables, run: seq<Timed>, o: nat, i: nat)
    requires o in t.offers && t.offers[o].status != Offered
    ensures !Wins(run, Responses(t, run), i, o)
    decreases |run|
  {
    if i < |run| {
      if 0 < i {
        ResolvedOfferIsFinal(t, run[0].at, run[0].step, o);
        NoWinOnceResolved(Perform(t, run[0].at, run[0].step).0, run[1..], o, i - 1);
      }
    }
  }

  /** Devices race on an offer: in every run at most one accept of it wins. */
  lemma {:induction false} AtMostOneWinner(t: Tables, run: seq<Timed>, o: nat, i: nat, j: nat)
    requires Wins(run, Responses(t, run), i, o) && Wins(run, Responses(t, run), j, o)
    ensures i == j
    decreases |run|
  {
    var t' := Perform(t, run[0].at, run[0].step).0;
    if i == 0 && 0 < j {
      NoWinOnceResolved(t', run[1..], o, j - 1);
    } else if j == 0 && 0 < i {
      NoWinOnceResolved(t', run[1..], o, i - 1);
    } else if 0 < i && 0 < j {
      AtMostOneWinner(t', run[1..], o, i - 1, j - 1);
    }
  }

  /** An offer ends up accepted only because some accept of it won, at the recorded time,
      no later than its deadline. */
  lemma {:induction false} AcceptedMeansWonInTime(t: Tables, run: seq<Timed>, o: nat) returns (i: nat)
    requires o in t.offers ==> t.offers[o].status != Accepted
    requires o in After(t, run).offers && After(t, run).offers[o].status == Accepted
    ensures Wins(run, Responses(t, run), i, o)
    ensures After(t, run).offers[o].acceptedAt == Some(run[i].at)
    ensures After(t, run).offers[o].device == Some(run[i].step.device)
    ensures run[i].at <= After(t, run).offers[o].expiresAt
    decreases |run|
  {
    var now, step := run[0].at, run[0].step;
    var t' := Perform(t, now, step).0;
    if o in t'.offers && t'.offers[o].status == Accepted {
      ResolvedOfferStaysResolved(t', run[1..], o);
      i := 0;
    } else {
      var k := AcceptedMeansWonInTime(t', run[1..], o);
      i := k + 1;
    }
  }

  // ---------------------------------------------------------------------------------------------
  // Transfers start once, after acceptance
  // ---------------------------------------------------------------------------------------------

  predicate Starts(run: seq<Timed>, responses: seq<Response>, i: nat, c: nat)
    requires |responses| == |run|
  {
    i < |run| && run[i].step.Transfer? && run[i].step.callId == c && responses[i] == TransferStarted
  }

  lemma AttemptsNeverDrop(t: Tables, now: int, step: Step, c: nat)
    requires c in t.calls
    ensures var t' := Perform(t, now, step).0; c in t'.calls && t.calls[c].attempts <= t'.calls[c].attempts
  {
  }

  lemma {:induction false} NoStartAfterAttempt(t: Tables, run: seq<Timed>, c: nat, i: nat)
    requires c in t.calls && 0 < t.calls[c].attempts
    ensures !Starts(run, Responses(t, run), i, c)
    decreases |run|
  {
    if 0 < i < |run| {
      AttemptsNeverDrop(t, run[0].at, run[0].step, c);
      NoStartAfterAttempt(Perform(t, run[0].at, run[0].step).0, run[1..], c, i - 1);
    }
  }

  /** A call is transferred at most once, whichever offers the attempts name. */
  lemma {:induction false} TransferStartsAtMostOnce(t: Tables, run: seq<Timed>, c: nat, i: nat, j: nat)
    requires Starts(run, Responses(t, run), i, c) && Starts(run, Responses(t, run), j, c)
    ensures i == j
    decreases |run|
  {
    var t' := Perform(t, run[0].at, run[0].step).0;
    if i == 0 && 0 < j {
      NoStartAfterAttempt(t', run[1..], c, j - 1);
    } else if j == 0 && 0 < i {
      NoStartAfterAttempt(t', run[1..], c, i - 1);
    } else if 0 < i && 0 < j {
      TransferStartsAtMostOnce(t', run[1..], c, i - 1, j - 1);
    }
  }

  /** A transfer starts only if an earlier accept of the offer it names has won. */
  lemma {:induction false} TransferFollowsAcceptance(t: Tables, run: seq<Timed>, c: nat, i: nat) returns (j: nat)
    requires Starts(run, Responses(t, run), i, c)
    requires run[i].step.offerId in t.offers ==> t.offers[run[i].step.offerId].status != Accepted
    ensures j < i && Wins(run, Responses(t, run), j, run[i].step.offerId)
    decreases |run|
  {
    var t', o := Perform(t, run[0].at, run[0].step).0, run[i].step.offerId;
    if o in t'.offers && t'.offers[o].status == Accepted {
      j := 0;
    } else {
      var k := TransferFollowsAcceptance(t', run[1..], c, i - 1);
      j := k + 1;
    }
  }

  // ---------------------------------------------------------------------------------------------
  // Offer and call agree
  // ---------------------------------------------------------------------------------------------

  /** The foreign key and the unique constraint `uq_handoff_offers_call`. */
  ghost predicate Keyed(t: Tables) {
    && (forall o :: o in t.offers ==> t.offers[o].callId in t.calls)
    && (forall o, p :: o in t.offers && p in t.offers && t.offers[o].callId == t.offers[p].callId ==> o == p)
  }

  lemma StepKeepsKeyed(t: Tables, now: int, step: Step)
    requires Keyed(t)
    ensures Keyed(Perform(t, now, step).0)
  {
  }

  ghost predicate CallAgrees(t: Tables, c: nat)
    requires c in t.calls
  {
    var call := t.calls[c];
    && call.attempts <= 1
    && (call.attempts == 0 ==>
          forall o :: o in t.offers && t.offers[o].callId == c ==> call.handoff == Mirrors(t.offers[o].status))
  }

  /** At most one transfer is attempted, and until then the call's handoff status is its only offer's status. */
  ghost predicate Agree(t: Tables) {
    Keyed(t) && forall c :: c in t.calls ==> CallAgrees(t, c)
  }

  lemma StepKeepsCallAgreement(t: Tables, now: int, step: Step, c: nat)
    requires Keyed(t) && c in t.calls && CallAgrees(t, c)
    ensures c in Perform(t, now, step).0.calls && CallAgrees(Perform(t, now, step).0, c)
  {
    var t' := Perform(t, now, step).0;
    match step
    case Create(offerId, callId, timeout) =>
    case Accept(offerId, device) =>
    case Decline(offerId) =>
    case Sweep =>
      if t.calls[c].attempts == 0 {
        forall o | o in t'.offers && t'.offers[o].callId == c
          ensures t'.calls[c].handoff == Mirrors(t'.offers[o].status)
        {
          assert t.offers[o].callId == c;
        }
      }
    case Transfer(callId, offerId, hasTarget) =>
    case CallChanges(callId, inProgress, loopDetected) =>
  }

  lemma StepKeepsAgreement(t: Tables, now: int, step: Step)
    requires Agree(t)
    ensures Agree(Perform(t, now, step).0)
  {
    StepKeepsKeyed(t, now, step);
    forall c | c in Perform(t, now, step).0.calls
      ensures CallAgrees(Perform(t, now, step).0, c)
    {
      assert c in t.calls;
      StepKeepsCallAgreement(t, now, step, c);
    }
  }

  /** In every reachable state each call mirrors its offer until a transfer is attempted on it, and at most
      one is, whichever offers the attempts name. */
  lemma {:induction false} OfferAndCallAgree(t: Tables, run: seq<Timed>)
    requires Agree(t)
    ensures Agree(After(t, run))
    decreases |run|
  {
    if run != [] {
      StepKeepsAgreement(t, run[0].at, run[0].step);
      OfferAndCallAgree(Perform(t, run[0].at, run[0].step).0, run[1..]);
    }
  }

  // ---------------------------------------------------------------------------------------------
  // When can the outcome of a transfer be overwritten?
  // ---------------------------------------------------------------------------------------------

  ghost predicate OwnOfferResolved(t: Tables, c: nat) {
    exists o :: o in t.offers && t.offers[o].callId == c && t.offers[o].status != Offered
  }

  lemma StepKeepsStatus(t: Tables, now: int, step: Step, c: nat)
    requires Keyed(t) && c in t.calls && 0 < t.calls[c].attempts && OwnOfferResolved(t, c)
    ensures
      var t' := Perform(t, now, step).0;
      && Keyed(t') && c in t'.calls && 0 < t'.calls[c].attempts && OwnOfferResolved(t', c)
      && t'.calls[c].handoff == t.calls[c].handoff
  {
    var t' := Perform(t, now, step).0;
    var o :| o in t.offers && t.offers[o].callId == c && t.offers[o].status != Offered;
    ResolvedOfferIsFinal(t, now, step, o);
    AttemptsNeverDrop(t, now, step, c);
    StepKeepsKeyed(t, now, step);
    assert HasOffer(t, c);
  }

  lemma {:induction false} StatusKeptWhileOfferResolved(t: Tables, run: seq<Timed>, c: nat)
    requires Keyed(t) && c in t.calls && 0 < t.calls[c].attempts
    requires OwnOfferResolved(t, c)
    ensures c in After(t, run).calls && After(t, run).calls[c].handoff == t.calls[c].handoff
    decreases |run|
  {
    if run != [] {
      StepKeepsStatus(t, run[0].at, run[0].step, c);
      StatusKeptWhileOfferResolved(Perform(t, run[0].at, run[0].step).0, run[1..], c);
    }
  }

  predicate HasOutcome(t: Tables, c: nat) {
    c in t.calls && (t.calls[c].handoff == TransferStarting || t.calls[c].handoff == Failed)
  }

  /** While the call's own offer is open or still to be created, one more step overwrites the outcome. */
  lemma OpenOfferBreaksOutcome(t: Tables, now: int, c: nat) returns (run: seq<Timed>)
    requires Keyed(t) && c in t.calls && !OwnOfferResolved(t, c)
    ensures Chronological(run, now) && !HasOutcome(After(t, run), c)
  {
    if HasOffer(t, c) {
      var o :| o in t.offers && t.offers[o].callId == c;
      run := [Timed(now, Decline(o))];
      assert After(t, run) == Perform(t, now, Decline(o)).0 by { assert run[1..] == []; }
    } else {
      var newId := Sets.Bounded(t.offers.Keys);
      run := [Timed(now, Create(newId, c, 0))];
      assert After(t, run) == Perform(t, now, Create(newId, c, 0)).0 by { assert run[1..] == []; }
    }
  }

  /** Once a transfer was attempted on a call, no later step ever changes the status it left,
      if and only if the call has an offer of its own that is already resolved. `initiate_transfer`
      does not check this: it never compares the offer's call with the call. */
  lemma TransferStatusIsFinalIff(t: Tables, now: int, c: nat)
    requires Keyed(t) && c in t.calls && 0 < t.calls[c].attempts && HasOutcome(t, c)
    ensures
      (forall run :: Chronological(run, now) ==>
         c in After(t, run).calls && After(t, run).calls[c].handoff == t.calls[c].handoff)
      <==> OwnOfferResolved(t, c)
  {
    if OwnOfferResolved(t, c) {
      forall run | Chronological(run, now)
        ensures c in After(t, run).calls && After(t, run).calls[c].handoff == t.calls[c].handoff
      {
        StatusKeptWhileOfferResolved(t, run, c);
      }
    } else {
      var run := OpenOfferBreaksOutcome(t, now, c);
    }
  }

  /** The step that resolves the own offer of a call already attempted writes over the outcome, for good. */
  lemma {:induction false} LateResolutionOverwrites(t: Tables, run: seq<Timed>, c: nat)
    requires Keyed(t) && c in t.calls && 0 < t.calls[c].attempts && !OwnOfferResolved(t, c)
    ensures Keyed(After(t, run)) && c in After(t, run).calls
    ensures OwnOfferResolved(After(t, run), c) ==> !HasOutcome(After(t, run), c)
    decreases |run|
  {
    if run != [] {
      var now, step := run[0].at, run[0].step;
      var t' := Perform(t, now, step).0;
      StepKeepsKeyed(t, now, step);
      AttemptsNeverDrop(t, now, step, c);
      if OwnOfferResolved(t', c) {
        ResolvingStepMirrors(t, now, step, c);
        KeyedAlongRun(t', run[1..]);
        StatusKeptWhileOfferResolved(t', run[1..], c);
      } else {
        LateResolutionOverwrites(t', run[1..], c);
      }
    }
  }

  lemma ResolvingStepMirrors(t: Tables, now: int, step: Step, c: nat)
    requires Keyed(t) && c in t.calls && !OwnOfferResolved(t, c) && OwnOfferResolved(Perform(t, now, step).0, c)
    ensures !HasOutcome(Perform(t, now, step).0, c)
  {
    var t' := Perform(t, now, step).0;
    var o :| o in t'.offers && t'.offers[o].callId == c && t'.offers[o].status != Offered;
    assert o in t.offers && t.offers[o].callId == c;
  }

  lemma {:induction false} KeyedAlongRun(t: Tables, run: seq<Timed>)
    requires Keyed(t)
    ensures Keyed(After(t, run))
    decreases |run|
  {
    if run != [] {
      StepKeepsKeyed(t, run[0].at, run[0].step);
      KeyedAlongRun(Perform(t, run[0].at, run[0].step).0, run[1..]);
    }
  }

  predicate Attempts(t: Tables, now: int, step: Step, c: nat) {
    step.Transfer? && step.callId == c && Perform(t, now, step).1 in {TransferStarted, NoTargetPhone}
  }

  /** At the first attempt on the call, if the run makes one, an offer of the call's own is already resolved. */
  ghost predicate BackedAtFirstAttempt(t: Tables, run: seq<Timed>, c: nat)
    decreases |run|
  {
    run == [] ||
    if Attempts(t, run[0].at, run[0].step, c) then OwnOfferResolved(t, c)
    else BackedAtFirstAttempt(Perform(t, run[0].at, run[0].step).0, run[1..], c)
  }

  /** After an attempt the call keeps the transfer's outcome, at the end of the run and through every continuation of
      it, if and only if the call had a resolved offer of its own when the attempt was made. */
  lemma {:induction false} OutcomeKeptIffBacked(t: Tables, run: seq<Timed>, now: int, c: nat)
    requires Keyed(t) && c in t.calls && t.calls[c].attempts == 0
    requires c in After(t, run).calls && 0 < After(t, run).calls[c].attempts
    ensures
      (forall more :: Chronological(more, now) ==> HasOutcome(After(After(t, run), more), c))
      <==> BackedAtFirstAttempt(t, run, c)
    decreases |run|
  {
    var at, step := run[0].at, run[0].step;
    var t' := Perform(t, at, step).0;
    StepKeepsKeyed(t, at, step);
    AttemptsNeverDrop(t, at, step, c);
    if !Attempts(t, at, step, c) {
      OutcomeKeptIffBacked(t', run[1..], now, c);
    } else if OwnOfferResolved(t, c) {
      assert OwnOfferResolved(t', c) && HasOutcome(t', c);
      OutcomeKept(t', run[1..], now, c);
    } else {
      assert !OwnOfferResolved(t', c);
      OutcomeNotKept(t', run[1..], now, c);
    }
  }

  lemma OutcomeKept(t: Tables, run: seq<Timed>, now: int, c: nat)
    requires Keyed(t) && c in t.calls && 0 < t.calls[c].attempts && OwnOfferResolved(t, c) && HasOutcome(t, c)
    ensures forall more :: Chronological(more, now) ==> HasOutcome(After(After(t, run), more), c)
  {
    forall more | Chronological(more, now)
      ensures HasOutcome(After(After(t, run), more), c)
    {
      AfterAppend(t, run, more);
      StatusKeptWhileOfferResolved(t, run + more, c);
    }
  }

  lemma OutcomeNotKept(t: Tables, run: seq<Timed>, now: int, c: nat)
    requires Keyed(t) && c in t.calls && 0 < t.calls[c].attempts && !OwnOfferResolved(t, c)
    ensures exists more :: Chronological(more, now) && !HasOutcome(After(After(t, run), more), c)
  {
    var end := After(t, run);
    LateResolutionOverwrites(t, run, c);
    if OwnOfferResolved(end, c) {
      assert Chronological([], now) && After(end, []) == end;
    } else {
      var more := OpenOfferBreaksOutcome(end, now, c);
    }
  }

  lemma {:induction false} AfterAppend(t: Tables, run: seq<Timed>, more: seq<Timed>)
    ensures After(t, run + more) == After(After(t, run), more)
    decreases |run|
  {
    if run == [] {
      assert run + more == more;
    } else {
      assert (run + more)[1..] == run[1..] + more;
      AfterAppend(Perform(t, run[0].at, run[0].step).0, run[1..], more);
    }
  }

  lemma RunFirst(t: Tables, first: Timed, rest: seq<Timed>)
    ensures After(t, [first] + rest) == After(Perform(t, first.at, first.step).0, rest)
    ensures Responses(t, [first] + rest) ==
      [Perform(t, first.at, first.step).1] + Responses(Perform(t, first.at, first.step).0, rest)
  {
    assert ([first] + rest)[1..] == rest;
  }

  /** The least failing run: call 1 is transferred on the accepted offer of call 0, and then its own offer is declined. */
  lemma ForeignOfferLosesOutcome(t: Tables) returns (run: seq<Timed>)
    requires t.offers == map[] && t.calls == map[0 := NewCall(), 1 := NewCall()]
    ensures run == [Timed(0, Create(0, 0, 30))] + ([Timed(1, Accept(0, 7))] + ([Timed(2, Create(1, 1, 30))]
      + ([Timed(3, Transfer(1, 0, true))] + ([Timed(4, Decline(1))] + []))))
    ensures Starts(run, Responses(t, run), 3, 1)
    ensures 1 in After(t, run).calls && After(t, run).calls[1].handoff == Mirrors(Declined)
  {
    var r5: seq<Timed> := [Timed(4, Decline(1))] + [];
    var r4 := [Timed(3, Transfer(1, 0, true))] + r5;
    var r3 := [Timed(2, Create(1, 1, 30))] + r4;
    var r2 := [Timed(1, Accept(0, 7))] + r3;
    run := [Timed(0, Create(0, 0, 30))] + r2;
    var t1 := CreateOffer(t, 0, 0, 0, 30).0;
    var t2 := AcceptOffer(t1, 1, 0, 7).0;
    var t3 := CreateOffer(t2, 2, 1, 1, 30).0;
    var t4 := InitiateTransfer(t3, 1, 0, true).0;
    RunFirst(t, Timed(0, Create(0, 0, 30)), r2);
    RunFirst(t1, Timed(1, Accept(0, 7)), r3);
    RunFirst(t2, Timed(2, Create(1, 1, 30)), r4);
    RunFirst(t3, Timed(3, Transfer(1, 0, true)), r5);
    RunFirst(t4, Timed(4, Decline(1)), []);
  }

  function NewCall(): Call {
    Call(true, false, 0, Unset, None, None, None, None)
  }

  /** The transfer is asked for with the call's own offer. */
  predicate NamesOwnOffer(t: Tables, step: Step) {
    step.Transfer? && step.offerId in t.offers ==> t.offers[step.offerId].callId == step.callId
  }

  ghost predicate AlwaysOwnOffer(t: Tables, run: seq<Timed>)
    decreases |run|
  {
    run == [] || (NamesOwnOffer(t, run[0].step) && AlwaysOwnOffer(Perform(t, run[0].at, run[0].step).0, run[1..]))
  }

  ghost predicate OwnOfferAccepted(t: Tables, c: nat) {
    exists o :: o in t.offers && t.offers[o].callId == c && t.offers[o].status == Accepted
  }

  lemma AcceptedStays(t: Tables, run: seq<Timed>, c: nat)
    requires OwnOfferAccepted(t, c)
    ensures OwnOfferAccepted(After(t, run), c)
  {
    var o :| o in t.offers && t.offers[o].callId == c && t.offers[o].status == Accepted;
    ResolvedOfferStaysResolved(t, run, o);
  }

  /** Callers that always pass the call's own offer meet the condition, and an attempted call's own offer is accepted. */
  lemma {:induction false} OwnOfferIsBacked(t: Tables, run: seq<Timed>, c: nat)
    requires AlwaysOwnOffer(t, run) && c in t.calls && t.calls[c].attempts == 0
    ensures BackedAtFirstAttempt(t, run, c)
    ensures c in After(t, run).calls
    ensures 0 < After(t, run).calls[c].attempts ==> OwnOfferAccepted(After(t, run), c)
    decreases |run|
  {
    if run != [] {
      var t' := Perform(t, run[0].at, run[0].step).0;
      AttemptsNeverDrop(t, run[0].at, run[0].step, c);
      if Attempts(t, run[0].at, run[0].step, c) {
        assert OwnOfferAccepted(t', c) by {
          var o := run[0].step.offerId;
          assert o in t'.offers && t'.offers[o].callId == c && t'.offers[o].status == Accepted;
        }
        AcceptedStays(t', run[1..], c);
        CallStays(t', run[1..], c);
      } else {
        OwnOfferIsBacked(t', run[1..], c);
      }
    }
  }

  lemma {:induction false} CallStays(t: Tables, run: seq<Timed>, c: nat)
    requires c in t.calls
    ensures c in After(t, run).calls
    decreases |run|
  {
    if run != [] {
      AttemptsNeverDrop(t, run[0].at, run[0].step, c);
      CallStays(Perform(t, run[0].at, run[0].step).0, run[1..], c);
    }
  }

  // ---------------------------------------------------------------------------------------------
  // When an accept wins and a transfer starts
  // ---------------------------------------------------------------------------------------------

  ghost predicate OpenUntil(t: Tables, o: nat, deadline: int) {
    o in t.offers && t.offers[o].status == Offered && t.offers[o].expiresAt == deadline
  }

  /** The step answers the offer. */
  predicate Answers(step: Step, o: nat) {
    (step.Accept? || step.Decline?) && step.offerId == o
  }

  lemma OpenOfferSteps(t: Tables, now: int, step: Step, o: nat, deadline: int)
    requires OpenUntil(t, o, deadline)
    ensures
      var t' := Perform(t, now, step).0;
      if Answers(step, o) || (step == Sweep && deadline < now) then o in t'.offers && t'.offers[o].status != Offered
      else OpenUntil(t', o, deadline)
  {
  }

  lemma {:induction false} AcceptFromOpen(t: Tables, o: nat, deadline: int, run: seq<Timed>, i: nat, from: int)
    requires OpenUntil(t, o, deadline) && Chronological(run, from)
    requires i < |run| && run[i].step.Accept? && run[i].step.offerId == o
    ensures Wins(run, Responses(t, run), i, o)
      <==> run[i].at <= deadline && forall j :: 0 <= j < i ==> !Answers(run[j].step, o)
    decreases |run|
  {
    var now, step := run[0].at, run[0].step;
    if 0 < i {
      var t', rest := Perform(t, now, step).0, run[1..];
      OpenOfferSteps(t, now, step, o, deadline);
      assert rest[i - 1] == run[i];
      if Answers(step, o) || (step == Sweep && deadline < now) {
        NoWinOnceResolved(t', rest, o, i - 1);
      } else {
        AcceptFromOpen(t', o, deadline, rest, i - 1, now);
        assert forall j :: 0 <= j < i - 1 ==> rest[j] == run[j + 1];
        assert forall j :: 1 <= j < i ==> run[j] == rest[j - 1];
      }
    }
  }

  /** Of an offer that was created, exactly the first answer can win: an accept wins if and only if it comes no later
      than the timeout after the creation and nobody accepted or declined before, whatever else goes on. */
  lemma FirstAnswerInTimeWins(t: Tables, now: int, o: nat, c: nat, timeout: int, run: seq<Timed>, i: nat)
    requires CreateOffer(t, now, o, c, timeout).1 == Created && Chronological(run, now)
    requires i < |run| && run[i].step.Accept? && run[i].step.offerId == o
    ensures Wins(run, Responses(CreateOffer(t, now, o, c, timeout).0, run), i, o)
      <==> run[i].at <= now + timeout && forall j :: 0 <= j < i ==> !Answers(run[j].step, o)
  {
    AcceptFromOpen(CreateOffer(t, now, o, c, timeout).0, o, now + timeout, run, i, now);
  }

  ghost predicate Dated(t: Tables, o: nat, c: nat, offeredAt: int, deadline: int) {
    && o in t.offers && t.offers[o].callId == c && t.offers[o].expiresAt == deadline
    && c in t.calls && t.calls[c].offeredAt == Some(offeredAt) && t.calls[c].offerExpiresAt == Some(deadline)
  }

  lemma {:induction false} DatesKept(t: Tables, run: seq<Timed>, o: nat, c: nat, offeredAt: int, deadline: int)
    requires Dated(t, o, c, offeredAt, deadline)
    ensures Dated(After(t, run), o, c, offeredAt, deadline)
    decreases |run|
  {
    if run != [] {
      assert HasOffer(t, c);
      DatesKept(Perform(t, run[0].at, run[0].step).0, run[1..], o, c, offeredAt, deadline);
    }
  }

  /** Offer and call carry the creation time and the deadline for good. */
  lemma CreatedOfferKeepsDates(t: Tables, now: int, o: nat, c: nat, timeout: int, run: seq<Timed>)
    requires CreateOffer(t, now, o, c, timeout).1 == Created
    ensures Dated(After(CreateOffer(t, now, o, c, timeout).0, run), o, c, now, now + timeout)
  {
    DatesKept(CreateOffer(t, now, o, c, timeout).0, run, o, c, now, now + timeout);
  }

  /** An offer and its call say who answered and when. */
  ghost predicate Attributed(t: Tables) {
    forall o :: o in t.offers ==>
      var offer := t.offers[o];
      && (offer.status == Accepted <==> offer.acceptedAt.Some?)
      && (offer.status == Accepted <==> offer.device.Some?)
      && (offer.status == Declined <==> offer.declinedAt.Some?)
      && (offer.status == Accepted ==>
            && offer.callId in t.calls
            && t.calls[offer.callId].acceptedAt == offer.acceptedAt && t.calls[offer.callId].device == offer.device)
  }

  lemma {:induction false} AttributedAlongRun(t: Tables, run: seq<Timed>)
    requires Keyed(t) && Attributed(t)
    ensures Attributed(After(t, run))
    decreases |run|
  {
    if run != [] {
      StepKeepsKeyed(t, run[0].at, run[0].step);
      StepKeepsAttributed(t, run[0].at, run[0].step);
      AttributedAlongRun(Perform(t, run[0].at, run[0].step).0, run[1..]);
    }
  }

  lemma StepKeepsAttributed(t: Tables, now: int, step: Step)
    requires Keyed(t) && Attributed(t)
    ensures Attributed(Perform(t, now, step).0)
  {
  }

  /** An offer ends up declined only because some decline of it succeeded, at the recorded time. */
  lemma {:induction false} DeclinedMeansAnswered(t: Tables, run: seq<Timed>, o: nat) returns (i: nat)
    requires o in t.offers ==> t.offers[o].status != Declined
    requires o in After(t, run).offers && After(t, run).offers[o].status == Declined
    ensures i < |run| && run[i].step == Decline(o) && Responses(t, run)[i] == Withdrawn
    ensures After(t, run).offers[o].declinedAt == Some(run[i].at)
    decreases |run|
  {
    var t' := Perform(t, run[0].at, run[0].step).0;
    if o in t'.offers && t'.offers[o].status == Declined {
      ResolvedOfferStaysResolved(t', run[1..], o);
      i := 0;
    } else {
      var k := DeclinedMeansAnswered(t', run[1..], o);
      i := k + 1;
    }
  }

  /** What a sweep does to one call: its only offer decides. */
  lemma SweptCall(t: Tables, now: int, o: nat)
    requires Keyed(t) && o in t.offers
    ensures
      var c := t.offers[o].callId;
      SweepOffers(t, now).0.calls[c]
        == if Stale(t.offers[o], now) then t.calls[c].(handoff := Mirrors(Expired)) else t.calls[c]
  {
    if Stale(t.offers[o], now) {
      assert o in StaleIds(t, now);
    }
  }

  /** What the two answers to an offer say, and how a sweep just before them changes that: an accept that would come too
      late finds the offer expired, and so does a decline that would have been granted. */
  lemma SweepBeforeAnswer(t: Tables, now: int, o: nat, device: nat)
    ensures
      var swept, late := SweepOffers(t, now).0, o in t.offers && Stale(t.offers[o], now);
      var accept, decline := AcceptOffer(t, now, o, device).1, DeclineOffer(t, now, o).1;
      && AcceptOffer(swept, now, o, device).1 == (if accept == TooLate then Lost(Expired) else accept)
      && DeclineOffer(swept, now, o).1 == (if late then AlreadyResolved(Expired) else decline)
      && (accept == TooLate <==> late) && (late ==> decline == Withdrawn)
      && (accept == NotFound <==> o !in t.offers) && (decline == NotFound <==> o !in t.offers)
      && (accept.Lost? ==> o in t.offers && accept.current == t.offers[o].status != Offered)
      && (decline.AlreadyResolved? ==> o in t.offers && decline.current == t.offers[o].status != Offered)
  {
  }

  /** The tables agree on everything but this offer and its call, which are there on both sides. */
  ghost predicate DifferAt(t: Tables, a: Tables, o: nat) {
    && o in t.offers && t.offers.Keys == a.offers.Keys && t.calls.Keys == a.calls.Keys
    && t.offers[o].callId == a.offers[o].callId
    && (forall p :: p in t.offers && p != o ==> a.offers[p] == t.offers[p])
    && (forall c :: c in t.calls && c != t.offers[o].callId ==> a.calls[c] == t.calls[c])
  }

  lemma SweptDifferAt(t: Tables, a: Tables, now: int, o: nat)
    requires Keyed(t) && Keyed(a) && DifferAt(t, a, o)
    ensures DifferAt(SweepOffers(t, now).0, SweepOffers(a, now).0, o)
  {
    forall c | c in t.calls && c != t.offers[o].callId
      ensures SweepOffers(a, now).0.calls[c] == SweepOffers(t, now).0.calls[c]
    {
      if p :| p in t.offers && t.offers[p].callId == c {
        SweptCall(t, now, p);
        SweptCall(a, now, p);
      }
    }
  }

  lemma SameFromDifferAt(t: Tables, a: Tables, b: Tables, o: nat)
    requires DifferAt(t, a, o) && DifferAt(t, b, o) && t.offers[o].callId in t.calls
    requires a.offers[o] == b.offers[o] && a.calls[t.offers[o].callId] == b.calls[t.offers[o].callId]
    ensures a == b
  {
    assert forall p :: p in a.offers ==> a.offers[p] == b.offers[p];
    assert forall c :: c in a.calls ==> a.calls[c] == b.calls[c];
  }

  lemma AcceptDiffersAt(t: Tables, now: int, o: nat, device: nat)
    requires Keyed(t) && o in t.offers
    ensures DifferAt(t, AcceptOffer(t, now, o, device).0, o) && Keyed(AcceptOffer(t, now, o, device).0)
  {
    StepKeepsKeyed(t, now, Accept(o, device));
  }

  lemma DeclineDiffersAt(t: Tables, now: int, o: nat)
    requires Keyed(t) && o in t.offers
    ensures DifferAt(t, DeclineOffer(t, now, o).0, o) && Keyed(DeclineOffer(t, now, o).0)
  {
  }

  lemma AcceptAndSweepAgreeAt(t: Tables, now: int, o: nat, device: nat)
    requires Keyed(t) && o in t.offers && Keyed(AcceptOffer(t, now, o, device).0)
    ensures
      var c, a := t.offers[o].callId, SweepOffers(AcceptOffer(t, now, o, device).0, now).0;
      var b := AcceptOffer(SweepOffers(t, now).0, now, o, device).0;
      && o in a.offers && o in b.offers && a.offers[o] == b.offers[o]
      && c in a.calls && c in b.calls && a.calls[c] == b.calls[c]
  {
    SweptCall(t, now, o);
    SweptCall(AcceptOffer(t, now, o, device).0, now, o);
  }

  /** An accept and a sweep at the same time commute: they leave the same tables in either order. */
  lemma AcceptCommutesWithSweep(t: Tables, now: int, o: nat, device: nat)
    requires Keyed(t)
    ensures SweepOffers(AcceptOffer(t, now, o, device).0, now).0 == AcceptOffer(SweepOffers(t, now).0, now, o, device).0
  {
    if o in t.offers {
      var a, swept := AcceptOffer(t, now, o, device).0, SweepOffers(t, now).0;
      AcceptDiffersAt(t, now, o, device);
      SweptDifferAt(t, a, now, o);
      StepKeepsKeyed(t, now, Sweep);
      AcceptDiffersAt(swept, now, o, device);
      AcceptAndSweepAgreeAt(t, now, o, device);
      SameFromDifferAt(swept, SweepOffers(a, now).0, AcceptOffer(swept, now, o, device).0, o);
    }
  }

  /** A decline and a sweep commute if and only if the offer is not past its deadline: nothing but the sweep and a late
      accept enforces the deadline, so a late decline is granted until a sweep comes. */
  lemma DeclineCommutesWithSweepIff(t: Tables, now: int, o: nat)
    requires Keyed(t)
    ensures
      SweepOffers(DeclineOffer(t, now, o).0, now).0 == DeclineOffer(SweepOffers(t, now).0, now, o).0
      <==> !(o in t.offers && Stale(t.offers[o], now))
  {
    if o in t.offers {
      var a, swept := DeclineOffer(t, now, o).0, SweepOffers(t, now).0;
      if Stale(t.offers[o], now) {
        assert SweepOffers(a, now).0.offers[o].status == Declined;
        assert DeclineOffer(swept, now, o).0.offers[o].status == Expired;
      } else {
        DeclineDiffersAt(t, now, o);
        SweptDifferAt(t, a, now, o);
        StepKeepsKeyed(t, now, Sweep);
        DeclineDiffersAt(swept, now, o);
        SweptCall(t, now, o);
        SweptCall(a, now, o);
        SameFromDifferAt(swept, SweepOffers(a, now).0, DeclineOffer(swept, now, o).0, o);
      }
    }
  }

  /** A transfer is refused for the first reason that applies, and a refusal changes nothing. */
  lemma RefusalSaysWhy(t: Tables, c: nat, o: nat, hasTarget: bool)
    ensures
      var (t', r) := InitiateTransfer(t, c, o, hasTarget);
      && (r !in {TransferStarted, NoTargetPhone} ==> t' == t)
      && (r == NotFound <==> c !in t.calls || o !in t.offers)
      && (r == CallNotInProgress <==> c in t.calls && o in t.offers && !t.calls[c].inProgress)
      && (r == OfferNotAccepted <==> c in t.calls && o in t.offers && t.calls[c].inProgress && !IsAccepted(t, o))
      && (r == AlreadyAttempted <==>
            c in t.calls && t.calls[c].inProgress && IsAccepted(t, o) && 0 < t.calls[c].attempts)
      && (r == LoopDetected ==> t.calls[c].loopDetected)
  {
  }

  /** Some step before position n, with its answer, is of this kind. */
  ghost predicate Earlier(run: seq<Timed>, responses: seq<Response>, n: nat, p: (Timed, Response) -> bool)
    requires n <= |run| == |responses|
  {
    exists j :: 0 <= j < n && p(run[j], responses[j])
  }

  lemma EarlierCons(run: seq<Timed>, responses: seq<Response>, n: nat, p: (Timed, Response) -> bool)
    requires 0 < n <= |run| == |responses|
    ensures Earlier(run, responses, n, p)
      <==> p(run[0], responses[0]) || Earlier(run[1..], responses[1..], n - 1, p)
  {
    if j :| 0 <= j < n && p(run[j], responses[j]) {
      assert j != 0 ==> run[1..][j - 1] == run[j] && responses[1..][j - 1] == responses[j];
    }
    if j :| 0 <= j < n - 1 && p(run[1..][j], responses[1..][j]) {
      assert run[j + 1] == run[1..][j] && responses[j + 1] == responses[1..][j];
    }
  }

  /** Progress and loop flag of the call as last reported before position n. */
  function Reported(run: seq<Timed>, n: nat, c: nat, start: (bool, bool)): (bool, bool)
    requires n <= |run|
  {
    if n == 0 then start
    else
      var next := match run[0].step
                  case CallChanges(callId, inProgress, loop) => if callId == c then (inProgress, loop) else start
                  case _ => start;
      Reported(run[1..], n - 1, c, next)
  }

  predicate WonBy(o: nat, e: Timed, r: Response) {
    e.step.Accept? && e.step.offerId == o && r == Won
  }

  predicate AttemptOn(c: nat, e: Timed, r: Response) {
    e.step.Transfer? && e.step.callId == c && r in {TransferStarted, NoTargetPhone}
  }

  predicate IsAccepted(t: Tables, o: nat) {
    o in t.offers && t.offers[o].status == Accepted
  }

  /** What one step changes of what a transfer depends on. */
  lemma StepMovesGuards(t: Tables, now: int, step: Step, c: nat, o: nat)
    requires c in t.calls
    ensures
      var (t', r) := Perform(t, now, step);
      && c in t'.calls
      && (IsAccepted(t', o) <==> IsAccepted(t, o) || WonBy(o, Timed(now, step), r))
      && (t'.calls[c].attempts == 0 <==> t.calls[c].attempts == 0 && !AttemptOn(c, Timed(now, step), r))
      && (t'.calls[c].inProgress, t'.calls[c].loopDetected)
           == Reported([Timed(now, step)], 1, c, (t.calls[c].inProgress, t.calls[c].loopDetected))
  {
    assert [Timed(now, step)][1..] == [];
  }

  /** A step starts a transfer if and only if it asks for one with a phone, the call was last reported in progress and
      without a loop, the named offer was won before or was accepted at the start, and no attempt came before. */
  lemma {:induction false} StartsIff(t: Tables, run: seq<Timed>, c: nat, i: nat)
    requires c in t.calls && i < |run| && run[i].step.Transfer? && run[i].step.callId == c
    ensures
      var responses, o := Responses(t, run), run[i].step.offerId;
      Starts(run, responses, i, c) <==>
        && run[i].step.hasTarget
        && Reported(run, i, c, (t.calls[c].inProgress, t.calls[c].loopDetected)) == (true, false)
        && (IsAccepted(t, o) || Earlier(run, responses, i, (e, r) => WonBy(o, e, r)))
        && t.calls[c].attempts == 0 && !Earlier(run, responses, i, (e, r) => AttemptOn(c, e, r))
    decreases |run|
  {
    var responses, o := Responses(t, run), run[i].step.offerId;
    if 0 < i {
      var now, step := run[0].at, run[0].step;
      var t', rest := Perform(t, now, step).0, run[1..];
      assert rest[i - 1] == run[i] && responses[1..] == Responses(t', rest);
      StepMovesGuards(t, now, step, c, o);
      assert [run[0]][1..] == [];
      EarlierCons(run, responses, i, (e, r) => WonBy(o, e, r));
      EarlierCons(run, responses, i, (e, r) => AttemptOn(c, e, r));
      StartsIff(t', rest, c, i - 1);
    }
  }

  predicate StartOn(c: nat, e: Timed, r: Response) {
    e.step.Transfer? && e.step.callId == c && r == TransferStarted
  }

  predicate NoPhoneOn(c: nat, e: Timed, r: Response) {
    e.step.Transfer? && e.step.callId == c && r == NoTargetPhone
  }

  lemma {:induction false} NoAttemptAfterAttempt(t: Tables, run: seq<Timed>, c: nat)
    requires c in t.calls && 0 < t.calls[c].attempts
    ensures !Earlier(run, Responses(t, run), |run|, (e, r) => StartOn(c, e, r))
    ensures !Earlier(run, Responses(t, run), |run|, (e, r) => NoPhoneOn(c, e, r))
    decreases |run|
  {
    if run != [] {
      var responses, t' := Responses(t, run), Perform(t, run[0].at, run[0].step).0;
      assert responses[1..] == Responses(t', run[1..]);
      EarlierCons(run, responses, |run|, (e, r) => StartOn(c, e, r));
      EarlierCons(run, responses, |run|, (e, r) => NoPhoneOn(c, e, r));
      AttemptsNeverDrop(t, run[0].at, run[0].step, c);
      NoAttemptAfterAttempt(t', run[1..], c);
    }
  }

  /** The outcome tells what happened: in a run whose first attempt is backed the call ends with its transfer starting if
      and only if some step started it, and failed if and only if an attempt found no phone. */
  lemma {:induction false} OutcomeTellsAnswer(t: Tables, run: seq<Timed>, c: nat)
    requires Keyed(t) && c in t.calls && t.calls[c].attempts == 0 && !HasOutcome(t, c)
    requires BackedAtFirstAttempt(t, run, c)
    ensures
      var end, responses := After(t, run), Responses(t, run);
      && c in end.calls
      && (end.calls[c].handoff == TransferStarting <==> Earlier(run, responses, |run|, (e, r) => StartOn(c, e, r)))
      && (end.calls[c].handoff == Failed <==> Earlier(run, responses, |run|, (e, r) => NoPhoneOn(c, e, r)))
    decreases |run|
  {
    if run != [] {
      var now, step := run[0].at, run[0].step;
      var responses := Responses(t, run);
      var (t', first) := Perform(t, now, step);
      assert responses[1..] == Responses(t', run[1..]) && responses[0] == first;
      EarlierCons(run, responses, |run|, (e, r) => StartOn(c, e, r));
      EarlierCons(run, responses, |run|, (e, r) => NoPhoneOn(c, e, r));
      StepKeepsKeyed(t, now, step);
      if Attempts(t, now, step, c) {
        assert OwnOfferResolved(t', c);
        StatusKeptWhileOfferResolved(t', run[1..], c);
        NoAttemptAfterAttempt(t', run[1..], c);
      } else {
        assert t'.calls[c].attempts == 0 && !HasOutcome(t', c);
        OutcomeTellsAnswer(t', run[1..], c);
      }
    }
  }

  // ---------------------------------------------------------------------------------------------
  // The services on mutable tables
  // ---------------------------------------------------------------------------------------------

  lemma ExpireOneMore(offers: map<nat, Offer>, calls: map<nat, Call>, ids: set<nat>, o: nat)
    requires o in offers && o !in ids
    ensures o in ExpiredOffers(offers, ids) && ExpiredOffers(offers, ids)[o] == offers[o]
    ensures ExpiredOffers(offers, ids + {o}) == ExpiredOffers(offers, ids)[o := offers[o].(status := Expired)]
    ensures ExpiredCalls(offers, calls, ids + {o}) == Sync(ExpiredCalls(offers, calls, ids), offers[o].callId, Expired)
  {
    var now, next := ExpiredCalls(offers, calls, ids), ExpiredCalls(offers, calls, ids + {o});
    forall c | c in calls
      ensures next[c] == Sync(now, offers[o].callId, Expired)[c]
    {
      if c == offers[o].callId {
        assert o in ids + {o};
      } else if p :| p in ids && p in offers && offers[p].callId == c {
        assert p in ids + {o};
      }
    }
  }

  class HandoffService {
    var offers: map<nat, Offer>
    var calls: map<nat, Call>

    function State(): Tables
      reads this
    {
      Tables(offers, calls)
    }

    constructor (offers: map<nat, Offer>, calls: map<nat, Call>)
      ensures State() == Tables(offers, calls)
    {
      this.offers, this.calls := offers, calls;
    }

    method SyncCall(callId: nat, status: OfferStatus)
      modifies this`calls
      ensures calls == Sync(old(calls), callId, status)
    {
      if callId in calls {
        calls := calls[callId := calls[callId].(handoff := Mirrors(status))];
      }
    }

    method Create(now: int, offerId: nat, callId: nat, timeout: int) returns (r: Response)
      modifies this
      ensures (State(), r) == CreateOffer(old(State()), now, offerId, callId, timeout)
    {
      if offerId in offers || callId !in calls || HasOffer(State(), callId) {
        return Conflict;
      }
      var expiresAt := now + timeout;
      offers := offers[offerId := Offer(callId, Offered, expiresAt, None, None, None)];
      calls := calls[callId := calls[callId].(
        handoff := Mirrors(Offered), offeredAt := Some(now), offerExpiresAt := Some(expiresAt))];
      return Created;
    }

    method Accept(now: int, offerId: nat, device: nat) returns (r: Response)
      modifies this
      ensures (State(), r) == AcceptOffer(old(State()), now, offerId, device)
    {
      if offerId !in offers {
        return NotFound;
      }
      var offer := offers[offerId];
      if offer.status != Offered {
        return Lost(offer.status);
      }
      if offer.expiresAt < now {
        offers := offers[offerId := offer.(status := Expired)];
        SyncCall(offer.callId, Expired);
        return TooLate;
      }
      offers := offers[offerId := offer.(status := Accepted, device := Some(device), acceptedAt := Some(now))];
      SyncCall(offer.callId, Accepted);
      if offer.callId in calls {
        calls := calls[offer.callId := calls[offer.callId].(acceptedAt := Some(now), device := Some(device))];
      }
      return Won;
    }

    method Decline(now: int, offerId: nat) returns (r: Response)
      modifies this
      ensures (State(), r) == DeclineOffer(old(State()), now, offerId)
    {
      if offerId !in offers {
        return NotFound;
      }
      var offer := offers[offerId];
      if offer.status != Offered {
        return AlreadyResolved(offer.status);
      }
      offers := offers[offerId := offer.(status := Declined, declinedAt := Some(now))];
      SyncCall(offer.callId, Declined);
      return Withdrawn;
    }

    /** The sweeper selects the stale rows once and then expires them one by one. */
    method ExpireStaleOffers(now: int) returns (r: Response)
      modifies this
      ensures (State(), r) == SweepOffers(old(State()), now)
    {
      var stale := StaleIds(State(), now);
      var todo := stale;
      assert offers == ExpiredOffers(offers, {}) && calls == ExpiredCalls(offers, calls, {});
      assert stale - todo == {};
      while todo != {}
        invariant todo <= stale
        invariant forall o :: o in stale ==> o in old(offers)
        invariant offers == ExpiredOffers(old(offers), stale - todo)
        invariant calls == ExpiredCalls(old(offers), old(calls), stale - todo)
        decreases |todo|
      {
        Sets.HasMember(todo);
        var o :| o in todo;
        ExpireOneMore(old(offers), old(calls), stale - todo, o);
        assert stale - todo + {o} == stale - (todo - {o});
        var callId := offers[o].callId;
        offers := offers[o := offers[o].(status := Expired)];
        SyncCall(callId, Expired);
        todo := todo - {o};
      }
      assert stale - todo == stale;
      return Swept(|stale|);
    }

    method Transfer(callId: nat, offerId: nat, hasTarget: bool) returns (r: Response)
      requires callId in calls && offerId in offers
      modifies this
      ensures (State(), r) == InitiateTransfer(old(State()), callId, offerId, hasTarget)
    {
      if !calls[callId].inProgress {
        return CallNotInProgress;
      }
      if offers[offerId].status != Accepted {
        return OfferNotAccepted;
      }
      if calls[callId].attempts > 0 {
        return AlreadyAttempted;
      }
      if calls[callId].loopDetected {
        return LoopDetected;
      }
      calls := calls[callId := calls[callId].(attempts := calls[callId].attempts + 1, handoff := TransferStarting)];
      if !hasTarget {
        calls := calls[callId := calls[callId].(handoff := Failed)];
        assert calls == InitiateTransfer(old(State()), callId, offerId, hasTarget).0.calls;
        return NoTargetPhone;
      }
      return TransferStarted;
    }
  }
}
