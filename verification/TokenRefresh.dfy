/**
 The single-flight token refresh of the mobile client: mobile/src/api/client.ts, composed with the
 one-shot rotation of backend/app/services/session_service.py.

 JavaScript runs one segment between two awaits at a time, so each segment of the response interceptor is one
 action. A refresh token's number stands for the pair it was issued in.
*/
module TokenRefresh {
  import opened Options
  import Sets
  import Sessions

  /** Where a leading interceptor call is waiting. */
  datatype Phase =
    | Reading                        // await getSecureItem
    | HaveToken(read: Option<nat>)  // the value read, about to be used
    | Posting(token: nat)            // await axios.post
    | Storing(token: nat)            // await storeTokens, refresh token not yet written
    | Stored                         // await storeTokens, refresh token written
    | Clearing                       // await clearTokens, refresh token not yet removed
    | Cleared                        // await clearTokens, refresh token removed

  datatype Flight = Flight(request: nat, phase: Phase)

  /** `isRefreshing`, `queue`, `retried` (the requests marked `_retry`), `stored` and the flights are the client's state.
      The rest is history: tokens seen, tokens sent, requests that led, waiters settled and resolved. */
  datatype Client = Client(
    isRefreshing: bool, queue: seq<nat>, retried: set<nat>, stored: Option<nat>, flights: map<nat, Flight>,
    nextWaiter: nat, nextFlight: nat,
    known: set<nat>, sent: seq<nat>, leads: seq<nat>, settled: seq<nat>, resolved: set<nat>)

  datatype Action =
    | Unauthorized(request: nat)       // a 401 response reaches the interceptor
    | ReadToken(f: nat)
    | Send(f: nat)
    | Answer(f: nat, newToken: nat)    // the refresh endpoint answers with a new pair
    | WriteToken(f: nat)
    | Finish(f: nat)                   // the success path resumes
    | Breaks(f: nat)                   // an awaited call rejects: the catch block drains the queue
    | RemoveToken(f: nat)
    | Throw(f: nat)                    // the failure path resumes
    | ClearFails(f: nat)               // clearTokens itself rejects
    | OthersWrite(token: nat)          // login or session restore stores a pair it was issued
    | OthersClear                      // sign-out

  /** Suspended at an await of the `try` block. */
  predicate Awaiting(p: Phase) {
    p == Reading || p.Posting? || p.Storing? || p == Stored
  }

  predicate Enabled(c: Client, a: Action) {
    match a
    case Unauthorized(_) => true
    case ReadToken(f) => f in c.flights && c.flights[f].phase == Reading
    case Send(f) => f in c.flights && c.flights[f].phase.HaveToken?
    case Answer(f, newToken) => f in c.flights && c.flights[f].phase.Posting? && newToken !in c.known
    case WriteToken(f) => f in c.flights && c.flights[f].phase.Storing?
    case Finish(f) => f in c.flights && c.flights[f].phase == Stored
    case Breaks(f) => f in c.flights && Awaiting(c.flights[f].phase)
    case RemoveToken(f) => f in c.flights && c.flights[f].phase == Clearing
    case Throw(f) => f in c.flights && c.flights[f].phase == Cleared
    case ClearFails(f) => f in c.flights && c.flights[f].phase == Clearing
    case OthersWrite(token) => token !in c.known
    case OthersClear => true
  }

  function WithPhase(c: Client, f: nat, p: Phase): Client
    requires f in c.flights
  {
    c.(flights := c.flights[f := c.flights[f].(phase := p)])
  }

  function Members(s: seq<nat>): set<nat> {
    set x | x in s
  }

  /** processQueue: settle every waiter, with the new token or with the error. */
  function Drain(c: Client, success: bool): Client {
    c.(queue := [], settled := c.settled + c.queue,
       resolved := if success then c.resolved + Members(c.queue) else c.resolved)
  }

  /** The `finally` block. */
  function Land(c: Client, f: nat): Client {
    c.(flights := c.flights - {f}, isRefreshing := false)
  }

  function Apply(c: Client, a: Action): Client
    requires Enabled(c, a)
  {
    match a
    case Unauthorized(request) =>
      if request in c.retried then c
      else if c.isRefreshing then
        c.(queue := c.queue + [c.nextWaiter], nextWaiter := c.nextWaiter + 1)
      else
        c.(retried := c.retried + {request}, isRefreshing := true, leads := c.leads + [request],
           flights := c.flights[c.nextFlight := Flight(request, Reading)], nextFlight := c.nextFlight + 1)
    case ReadToken(f) => WithPhase(c, f, HaveToken(c.stored))
    case Send(f) =>
      (match c.flights[f].phase.read
       case None => WithPhase(Drain(c, false), f, Clearing)
       case Some(t) => WithPhase(c.(sent := c.sent + [t]), f, Posting(t)))
    case Answer(f, newToken) => WithPhase(c.(known := c.known + {newToken}), f, Storing(newToken))
    case WriteToken(f) => WithPhase(c.(stored := Some(c.flights[f].phase.token)), f, Stored)
    case Finish(f) => Land(Drain(c, true), f)
    case Breaks(f) => WithPhase(Drain(c, false), f, Clearing)
    case RemoveToken(f) => WithPhase(c.(stored := None), f, Cleared)
    case Throw(f) => Land(c, f)
    case ClearFails(f) => Land(c, f)
    case OthersWrite(token) => c.(stored := Some(token), known := c.known + {token})
    case OthersClear => c.(stored := None)
  }

  // ---------------------------------------------------------------------------------------------
  // The invariant of every interleaving
  // ---------------------------------------------------------------------------------------------

  ghost predicate NoDuplicates(s: seq<nat>) {
    forall i, j :: 0 <= i < j < |s| ==> s[i] != s[j]
  }

  /** The refresh token still stored has been sent and is about to be overwritten or removed. */
  predicate Dirty(p: Phase) {
    p.Posting? || p.Storing? || p == Clearing
  }

  ghost predicate SingleFlight(c: Client) {
    && (c.isRefreshing <==> exists f :: f in c.flights)
    && (forall f, g :: f in c.flights && g in c.flights ==> f == g)
    && (forall f :: f in c.flights ==> f < c.nextFlight)
  }

  ghost predicate LeadsOnce(c: Client) {
    NoDuplicates(c.leads) && forall i :: 0 <= i < |c.leads| ==> c.leads[i] in c.retried
  }

  ghost predicate SettlesOnce(c: Client) {
    && NoDuplicates(c.settled + c.queue)
    && (forall i :: 0 <= i < |c.settled + c.queue| ==> (c.settled + c.queue)[i] < c.nextWaiter)
  }

  ghost predicate SendsOnce(c: Client) {
    && NoDuplicates(c.sent)
    && (forall t :: t in c.sent ==> t in c.known)
    && (c.stored.Some? ==> c.stored.value in c.known)
    && (c.stored.Some? && c.stored.value in c.sent ==> exists f :: f in c.flights && Dirty(c.flights[f].phase))
    && (forall f :: f in c.flights ==>
          match c.flights[f].phase
          case HaveToken(Some(t)) => t in c.known && t !in c.sent
          case Storing(t) => t in c.known && t !in c.sent
          case _ => true)
  }

  ghost predicate Invariant(c: Client) {
    SingleFlight(c) && LeadsOnce(c) && SettlesOnce(c) && SendsOnce(c)
  }

  lemma StepKeepsSingleFlight(c: Client, a: Action)
    requires SingleFlight(c) && Enabled(c, a)
    ensures SingleFlight(Apply(c, a))
  {
    var c' := Apply(c, a);
    if f :| f in c.flights && f in c'.flights {
      assert c'.isRefreshing;
    } else if a.Unauthorized? && !c.isRefreshing && a.request !in c.retried {
      assert c.nextFlight in c'.flights;
    }
  }

  lemma StepKeepsLeadsOnce(c: Client, a: Action)
    requires LeadsOnce(c) && Enabled(c, a)
    ensures LeadsOnce(Apply(c, a))
  {
  }

  lemma StepKeepsSettlesOnce(c: Client, a: Action)
    requires SettlesOnce(c) && Enabled(c, a)
    ensures SettlesOnce(Apply(c, a))
  {
    var c' := Apply(c, a);
    if c'.queue != c.queue && c'.queue != [] {
      assert c'.settled + c'.queue == c.settled + c.queue + [c.nextWaiter];
    } else if c'.queue != c.queue {
      assert c'.settled + c'.queue == c.settled + c.queue;
    }
  }

  lemma StepKeepsSendsOnce(c: Client, a: Action)
    requires SingleFlight(c) && SendsOnce(c) && Enabled(c, a) && !a.ClearFails?
    ensures SendsOnce(Apply(c, a))
  {
    var c' := Apply(c, a);
    if c'.stored.Some? && c'.stored.value in c'.sent {
      if c.stored.Some? && c.stored.value in c.sent {
        var f :| f in c.flights && Dirty(c.flights[f].phase);
        assert f in c'.flights && Dirty(c'.flights[f].phase);
      } else {
        assert a.Send? && a.f in c'.flights && Dirty(c'.flights[a.f].phase);
      }
    }
  }

  ghost predicate Possible(c: Client, run: seq<Action>)
    decreases |run|
  {
    run == [] || (Enabled(c, run[0]) && Possible(Apply(c, run[0]), run[1..]))
  }

  function After(c: Client, run: seq<Action>): Client
    requires Possible(c, run)
    decreases |run|
  {
    if run == [] then c else After(Apply(c, run[0]), run[1..])
  }

  const START := Client(false, [], {}, None, map[], 0, 0, {}, [], [], [], {})

  /** In every interleaving: at most one refresh is in flight and the flag says so, each request leads at most
      one refresh, and each queued waiter is settled at most once, even when the keychain fails. */
  lemma {:induction false} ProtocolSafety(c: Client, run: seq<Action>)
    requires SingleFlight(c) && LeadsOnce(c) && SettlesOnce(c) && Possible(c, run)
    ensures SingleFlight(After(c, run)) && LeadsOnce(After(c, run)) && SettlesOnce(After(c, run))
    decreases |run|
  {
    if run != [] {
      StepKeepsSingleFlight(c, run[0]);
      StepKeepsLeadsOnce(c, run[0]);
      StepKeepsSettlesOnce(c, run[0]);
      ProtocolSafety(Apply(c, run[0]), run[1..]);
    }
  }

  ghost predicate ClearsWork(run: seq<Action>) {
    forall i :: 0 <= i < |run| ==> !run[i].ClearFails?
  }

  /** While removing the stored tokens works, the interceptor never sends the same refresh token twice. */
  lemma {:induction false} NoTokenSentTwice(c: Client, run: seq<Action>)
    requires SingleFlight(c) && SendsOnce(c) && Possible(c, run) && ClearsWork(run)
    ensures SendsOnce(After(c, run))
    decreases |run|
  {
    if run != [] {
      StepKeepsSingleFlight(c, run[0]);
      StepKeepsSendsOnce(c, run[0]);
      NoTokenSentTwice(Apply(c, run[0]), run[1..]);
    }
  }

  lemma RunFirst(c: Client, a: Action, rest: seq<Action>)
    requires Enabled(c, a) && Possible(Apply(c, a), rest)
    ensures Possible(c, [a] + rest) && After(c, [a] + rest) == After(Apply(c, a), rest)
  {
    assert ([a] + rest)[1..] == rest;
  }

  /** Between refreshes, no token will ever be sent again exactly when the stored token has not been sent:
      this is what a failed `clearTokens` breaks. */
  lemma ResendIffSentTokenLeftStored(c: Client)
    requires SingleFlight(c) && !c.isRefreshing && NoDuplicates(c.sent)
    requires forall t :: t in c.sent ==> t in c.known
    requires c.stored.Some? ==> c.stored.value in c.known
    ensures
      (forall run :: Possible(c, run) && ClearsWork(run) ==> NoDuplicates(After(c, run).sent))
      <==> (c.stored.Some? ==> c.stored.value !in c.sent)
  {
    if c.stored.Some? && c.stored.value in c.sent {
      var t, f := c.stored.value, c.nextFlight;
      var r := Sets.Bounded(c.retried);
      var run := [Unauthorized(r)] + ([ReadToken(f)] + ([Send(f)] + []));
      var c1 := Apply(c, run[0]);
      var c2 := Apply(c1, run[1]);
      var c3 := Apply(c2, run[2]);
      RunFirst(c2, Send(f), []);
      RunFirst(c1, ReadToken(f), [Send(f)] + []);
      RunFirst(c, Unauthorized(r), [ReadToken(f)] + ([Send(f)] + []));
      assert Possible(c, run) && After(c, run) == c3;
      var i :| 0 <= i < |c.sent| && c.sent[i] == t;
      assert c3.sent[i] == c3.sent[|c.sent|];
      assert ClearsWork(run);
    } else {
      forall run | Possible(c, run) && ClearsWork(run)
        ensures NoDuplicates(After(c, run).sent)
      {
        NoTokenSentTwice(c, run);
      }
    }
  }

  /** One leading request up to the post, as a prefix of a run. */
  lemma Leads(c: Client, r: nat, t: nat, c': Client, rest: seq<Action>) returns (run: seq<Action>)
    requires !c.isRefreshing && r !in c.retried && c.stored == Some(t)
    requires c' == c.(isRefreshing := true, retried := c.retried + {r}, leads := c.leads + [r], sent := c.sent + [t],
                      flights := c.flights[c.nextFlight := Flight(r, Posting(t))], nextFlight := c.nextFlight + 1)
    requires Possible(c', rest)
    ensures run == [Unauthorized(r)] + ([ReadToken(c.nextFlight)] + ([Send(c.nextFlight)] + rest))
    ensures Possible(c, run) && After(c, run) == After(c', rest)
  {
    var f := c.nextFlight;
    var c1 := Apply(c, Unauthorized(r));
    var c2 := Apply(c1, ReadToken(f));
    assert c2.flights == c.flights[f := Flight(r, HaveToken(Some(t)))];
    assert Apply(c2, Send(f)) == c';
    RunFirst(c2, Send(f), rest);
    RunFirst(c1, ReadToken(f), [Send(f)] + rest);
    RunFirst(c, Unauthorized(r), [ReadToken(f)] + ([Send(f)] + rest));
    run := [Unauthorized(r)] + ([ReadToken(f)] + ([Send(f)] + rest));
  }

  lemma LeftoverIsSentAgain(c: Client) returns (run: seq<Action>)
    requires c == Client(false, [], {0}, Some(5), map[], 0, 1, {5}, [5], [0], [], {})
    ensures Possible(c, run) && After(c, run).sent == [5, 5]
  {
    var again := c.(isRefreshing := true, retried := c.retried + {1}, leads := c.leads + [1], sent := c.sent + [5],
                    flights := c.flights[1 := Flight(1, Posting(5))], nextFlight := 2);
    run := Leads(c, 1, 5, again, []);
    assert After(again, []) == again;
  }

  /** The least failing run: the post breaks, clearing the keychain fails, and the next 401 sends the token again. */
  lemma FailedClearResends() returns (run: seq<Action>)
    ensures Possible(START, run) && After(START, run).sent == [5, 5]
  {
    var stored := Client(false, [], {}, Some(5), map[], 0, 0, {5}, [], [], [], {});
    var posted := stored.(isRefreshing := true, retried := stored.retried + {0}, leads := stored.leads + [0],
                          sent := stored.sent + [5], flights := stored.flights[0 := Flight(0, Posting(5))],
                          nextFlight := 1);
    var left := posted.(isRefreshing := false, flights := map[]);
    run := LeftoverIsSentAgain(left);
    BreaksUncleared(posted, left, run);
    run := [Breaks(0)] + ([ClearFails(0)] + run);
    run := Leads(stored, 0, 5, posted, run);
    assert Apply(START, OthersWrite(5)) == stored;
    RunFirst(START, OthersWrite(5), run);
    run := [OthersWrite(5)] + run;
  }

  lemma BreaksUncleared(c: Client, c': Client, rest: seq<Action>)
    requires c.isRefreshing && c.queue == [] && c.flights.Keys == {0} && c.flights[0].phase.Posting?
    requires c' == c.(isRefreshing := false, flights := map[]) && Possible(c', rest)
    ensures Possible(c, [Breaks(0)] + ([ClearFails(0)] + rest))
    ensures After(c, [Breaks(0)] + ([ClearFails(0)] + rest)) == After(c', rest)
  {
    var c1 := Apply(c, Breaks(0));
    assert c1.settled == c.settled && Apply(c1, ClearFails(0)) == c';
    RunFirst(c1, ClearFails(0), rest);
    RunFirst(c, Breaks(0), [ClearFails(0)] + rest);
  }

  /** On the success path every waiter is resolved with the new token and the queue is empty when the flag drops. */
  lemma SuccessLeavesNobodyWaiting(c: Client, f: nat)
    requires Invariant(c) && Enabled(c, Finish(f))
    ensures
      var c' := Apply(c, Finish(f));
      !c'.isRefreshing && c'.flights == map[] && c'.queue == [] && forall w :: w in c.queue ==> w in c'.resolved
  {
    assert forall g :: g in c.flights ==> g == f;
  }

  function Waiters(run: seq<Action>, c: Client): nat
    requires Possible(c, run)
    decreases |run|
  {
    if run == [] then 0
    else (if run[0].Unauthorized? && run[0].request !in c.retried then 1 else 0) + Waiters(run[1..], Apply(c, run[0]))
  }

  /** Actions that can come between draining the queue and dropping the flag on the failure path of flight `f`. */
  ghost predicate DuringClear(run: seq<Action>, f: nat) {
    forall i :: 0 <= i < |run| ==> run[i] in {RemoveToken(f), OthersClear} || run[i].Unauthorized? || run[i].OthersWrite?
  }

  /** On the failure path the flag drops, whether clearing works or fails, over exactly the waiters that were queued since
      the drain: the queue is empty then if and only if no unmarked request met a 401 in that gap. */
  lemma {:induction false} FailureStrandsTheGap(c: Client, run: seq<Action>, f: nat)
    requires SingleFlight(c) && f in c.flights && c.flights[f].phase in {Clearing, Cleared}
    requires Possible(c, run) && DuringClear(run, f)
    ensures
      var c' := After(c, run);
      && f in c'.flights && c'.flights[f].phase in {Clearing, Cleared}
      && |c'.queue| == |c.queue| + Waiters(run, c)
      && c'.settled == c.settled
      && var dropped := Apply(c', if c'.flights[f].phase == Cleared then Throw(f) else ClearFails(f));
         !dropped.isRefreshing && dropped.queue == c'.queue && dropped.settled == c.settled
    decreases |run|
  {
    if run != [] {
      StepKeepsSingleFlight(c, run[0]);
      assert c.isRefreshing;
      FailureStrandsTheGap(Apply(c, run[0]), run[1..], f);
    }
  }

  /** The action calls processQueue. */
  predicate Drains(c: Client, a: Action)
    requires Enabled(c, a)
  {
    a.Finish? || a.Breaks? || (a.Send? && c.flights[a.f].phase.read == None)
  }

  ghost predicate DrainsAlong(c: Client, run: seq<Action>)
    requires Possible(c, run)
    decreases |run|
  {
    run != [] && (Drains(c, run[0]) || DrainsAlong(Apply(c, run[0]), run[1..]))
  }

  /** A stranded waiter is settled in a continuation if and only if a later refresh drains the queue in it. */
  lemma {:induction false} StrandedSettledIffDrained(c: Client, run: seq<Action>, w: nat)
    requires SettlesOnce(c) && w in c.queue && Possible(c, run)
    ensures w in After(c, run).settled <==> DrainsAlong(c, run)
    decreases |run|
  {
    QueuedIsUnsettled(c, w);
    if run != [] {
      var c' := Apply(c, run[0]);
      StepKeepsSettlesOnce(c, run[0]);
      if Drains(c, run[0]) {
        SettledStays(c', run[1..], w);
      } else {
        assert w in c'.queue;
        StrandedSettledIffDrained(c', run[1..], w);
      }
    }
  }

  lemma QueuedIsUnsettled(c: Client, w: nat)
    requires SettlesOnce(c) && w in c.queue
    ensures w !in c.settled
  {
    var all := c.settled + c.queue;
    var i :| 0 <= i < |c.queue| && c.queue[i] == w;
    assert all[|c.settled| + i] == w;
    assert forall j :: 0 <= j < |c.settled| ==> all[j] == c.settled[j];
  }

  lemma {:induction false} SettledStays(c: Client, run: seq<Action>, w: nat)
    requires w in c.settled && Possible(c, run)
    ensures w in After(c, run).settled
    decreases |run|
  {
    if run != [] {
      SettledStays(Apply(c, run[0]), run[1..], w);
    }
  }

  /** The first action that drains the queue is the end of a successful refresh. */
  ghost predicate FirstDrainSucceeds(c: Client, run: seq<Action>)
    requires Possible(c, run)
    decreases |run|
  {
    run != [] && if Drains(c, run[0]) then run[0].Finish? else FirstDrainSucceeds(Apply(c, run[0]), run[1..])
  }

  /** A waiter gets the new token if and only if the drain that settles it is that of a successful refresh. */
  lemma {:induction false} ResolvedIffDrainSucceeds(c: Client, run: seq<Action>, w: nat)
    requires SettlesOnce(c) && w in c.queue && w !in c.resolved && Possible(c, run)
    ensures w in After(c, run).resolved <==> FirstDrainSucceeds(c, run)
    decreases |run|
  {
    if run != [] {
      var c' := Apply(c, run[0]);
      StepKeepsSettlesOnce(c, run[0]);
      if Drains(c, run[0]) {
        VerdictStays(c', run[1..], w);
      } else {
        assert w in c'.queue;
        ResolvedIffDrainSucceeds(c', run[1..], w);
      }
    }
  }

  lemma {:induction false} VerdictStays(c: Client, run: seq<Action>, w: nat)
    requires SettlesOnce(c) && w in c.settled && Possible(c, run)
    ensures w in After(c, run).resolved <==> w in c.resolved
    decreases |run|
  {
    if run != [] {
      if w in c.queue {
        QueuedIsUnsettled(c, w);
      }
      StepKeepsSettlesOnce(c, run[0]);
      VerdictStays(Apply(c, run[0]), run[1..], w);
    }
  }

  // ---------------------------------------------------------------------------------------------
  // What a refresh and a sign-out leave behind
  // ---------------------------------------------------------------------------------------------

  /** Flight f was answered with n: it is about to store n, has stored it, or has failed. */
  ghost predicate OnTrack(c: Client, f: nat, n: nat) {
    && f < c.nextFlight
    && (f in c.flights ==>
          match c.flights[f].phase
          case Storing(t) => t == n
          case Stored => c.stored == Some(n)
          case Clearing => true
          case Cleared => true
          case _ => false)
  }

  lemma StepKeepsOnTrack(c: Client, f: nat, n: nat, a: Action)
    requires SingleFlight(c) && OnTrack(c, f, n) && Enabled(c, a) && !a.OthersWrite? && !a.OthersClear?
    ensures OnTrack(Apply(c, a), f, n)
  {
  }

  /** No other flow writes or clears the stored tokens; any requests may meet a 401. */
  ghost predicate NoOtherWriter(run: seq<Action>) {
    forall i :: 0 <= i < |run| ==> !run[i].OthersWrite? && !run[i].OthersClear?
  }

  lemma {:induction false} FinishFromTrack(c: Client, f: nat, n: nat, mid: seq<Action>)
    requires SingleFlight(c) && OnTrack(c, f, n) && NoOtherWriter(mid) && Possible(c, mid + [Finish(f)])
    ensures After(c, mid + [Finish(f)]).stored == Some(n)
    decreases |mid|
  {
    var run := mid + [Finish(f)];
    if mid == [] {
      assert run[1..] == [];
    } else {
      assert run[0] == mid[0] && run[1..] == mid[1..] + [Finish(f)];
      StepKeepsSingleFlight(c, mid[0]);
      StepKeepsOnTrack(c, f, n, mid[0]);
      assert forall i :: 0 <= i < |mid[1..]| ==> mid[1..][i] == mid[i + 1];
      FinishFromTrack(Apply(c, mid[0]), f, n, mid[1..]);
    }
  }

  /** A refresh that was answered with n and finishes leaves n stored, whatever requests come in between. */
  lemma FinishedRefreshStores(c: Client, f: nat, n: nat, mid: seq<Action>)
    requires SingleFlight(c) && Possible(c, [Answer(f, n)] + (mid + [Finish(f)])) && NoOtherWriter(mid)
    ensures After(c, [Answer(f, n)] + (mid + [Finish(f)])).stored == Some(n)
  {
    var run := [Answer(f, n)] + (mid + [Finish(f)]);
    assert run[0] == Answer(f, n) && run[1..] == mid + [Finish(f)];
    StepKeepsSingleFlight(c, Answer(f, n));
    FinishFromTrack(Apply(c, Answer(f, n)), f, n, mid);
  }

  /** Flight f is failing, or has failed: it removes the stored token before it lands. */
  ghost predicate Failing(c: Client, f: nat) {
    && f < c.nextFlight
    && (f in c.flights ==> c.flights[f].phase == Clearing || (c.flights[f].phase == Cleared && c.stored == None))
  }

  lemma {:induction false} ThrowFromFailing(c: Client, f: nat, mid: seq<Action>)
    requires SingleFlight(c) && Failing(c, f) && NoOtherWriter(mid) && Possible(c, mid + [Throw(f)])
    ensures After(c, mid + [Throw(f)]).stored == None
    decreases |mid|
  {
    var run := mid + [Throw(f)];
    if mid == [] {
      assert run[1..] == [];
    } else {
      assert run[0] == mid[0] && run[1..] == mid[1..] + [Throw(f)];
      StepKeepsSingleFlight(c, mid[0]);
      assert forall i :: 0 <= i < |mid[1..]| ==> mid[1..][i] == mid[i + 1];
      ThrowFromFailing(Apply(c, mid[0]), f, mid[1..]);
    }
  }

  /** A refresh that fails, because there is nothing to send or an awaited call rejects, and lands through a working
      clean-up, leaves nothing stored. */
  lemma FailedRefreshRemoves(c: Client, a: Action, f: nat, mid: seq<Action>)
    requires SingleFlight(c) && Possible(c, [a] + (mid + [Throw(f)])) && NoOtherWriter(mid)
    requires Drains(c, a) && !a.Finish? && a.f == f
    ensures After(c, [a] + (mid + [Throw(f)])).stored == None
  {
    assert ([a] + (mid + [Throw(f)]))[1..] == mid + [Throw(f)];
    StepKeepsSingleFlight(c, a);
    ThrowFromFailing(Apply(c, a), f, mid);
  }

  /** Any awaited call of the `try` block may reject; the flight then lands with nothing stored and nobody waiting. */
  lemma EveryAwaitMayReject(c: Client, f: nat)
    requires SingleFlight(c) && f in c.flights
    requires c.flights[f].phase !in {Clearing, Cleared} && !c.flights[f].phase.HaveToken?
    ensures
      var run := [Breaks(f)] + ([RemoveToken(f)] + ([Throw(f)] + []));
      && Possible(c, run)
      && var end := After(c, run);
         end.stored == None && !end.isRefreshing && end.flights == map[] && end.queue == [] && end.resolved == c.resolved
  {
    var c1 := Apply(c, Breaks(f));
    var c2 := Apply(c1, RemoveToken(f));
    assert Apply(c2, Throw(f)).flights == map[];
    RunFirst(c2, Throw(f), []);
    RunFirst(c1, RemoveToken(f), [Throw(f)] + []);
    RunFirst(c, Breaks(f), [RemoveToken(f)] + ([Throw(f)] + []));
  }

  ghost predicate NothingWritten(run: seq<Action>) {
    forall i :: 0 <= i < |run| ==> !run[i].OthersWrite?
  }

  /** After a sign-out between refreshes nothing is sent, and nothing is stored, until another flow stores a token. */
  lemma {:induction false} SignedOutSendsNothing(c: Client, run: seq<Action>)
    requires SingleFlight(c) && c.stored == None && Possible(c, run) && NothingWritten(run)
    requires forall f :: f in c.flights ==>
      c.flights[f].phase in {Reading, HaveToken(None), Clearing, Cleared}
    ensures After(c, run).sent == c.sent && After(c, run).stored == None
    decreases |run|
  {
    if run != [] {
      StepKeepsSingleFlight(c, run[0]);
      assert forall i :: 0 <= i < |run[1..]| ==> run[1..][i] == run[i + 1];
      SignedOutSendsNothing(Apply(c, run[0]), run[1..]);
    }
  }

  lemma SignOutEndsSending(c: Client, run: seq<Action>)
    requires SingleFlight(c) && !c.isRefreshing && NothingWritten(run)
    requires Possible(c, [OthersClear] + run)
    ensures After(c, [OthersClear] + run).sent == c.sent && After(c, [OthersClear] + run).stored == None
  {
    assert ([OthersClear] + run)[1..] == run;
    SignedOutSendsNothing(Apply(c, OthersClear), run);
  }

  // ---------------------------------------------------------------------------------------------
  // Composed with the server
  // ---------------------------------------------------------------------------------------------

  /** The client, the posts and the answers on their way, by flight, the server's session table and the log of
      every successful redemption there. An answer is the new token, or none for a rejection. */
  datatype System = System(
    client: Client, posts: map<nat, nat>, answers: map<nat, Option<nat>>, server: Sessions.Tables, redeemed: seq<nat>)

  datatype Event =
    | ClientActs(a: Action)
    | Handle(f: nat, now: int, newToken: nat)      // the server handles the post of flight f, however late
    | Arrive(f: nat)                               // its answer reaches a client that still waits for it
    | ServerActs(now: int, step: Sessions.Step)    // other logins, refreshes, revocations
    | StoreIssued(token: nat)                      // another flow stores a token it was issued

  predicate Posted(c: Client, f: nat) {
    f in c.flights && c.flights[f].phase.Posting?
  }

  /** An answer under way carries a token the client does not have yet. */
  predicate Unknown(c: Client, answer: Option<nat>) {
    answer.Some? ==> answer.value !in c.known
  }

  /** New tokens are fresh on the server; what the client is told or stores was issued by the server, to it. Lost posts
      and answers are flights that break. `ArrivalsAreUnknown` shows that the last conjunct of Arrive always holds. */
  predicate Allowed(y: System, e: Event) {
    match e
    case ClientActs(a) => !a.Answer? && !a.OthersWrite? && Enabled(y.client, a)
    case Handle(f, _, newToken) => f in y.posts && newToken !in y.server.sessions
    case Arrive(f) => f in y.answers && Posted(y.client, f) && Unknown(y.client, y.answers[f])
    case ServerActs(_, step) => Sessions.FreshTokens(y.server, step)
    case StoreIssued(token) =>
      token in y.server.sessions && token !in y.client.known && Some(token) !in y.answers.Values
  }

  function Redemption(r: Option<Sessions.RefreshResult>, token: nat): seq<nat> {
    if r.Some? && r.value.Refreshed? then [token] else []
  }

  function ClientNext(y: System, a: Action): System
    requires Enabled(y.client, a)
  {
    var posts := if a.Send? && y.client.flights[a.f].phase.read.Some?
                 then y.posts[a.f := y.client.flights[a.f].phase.read.value] else y.posts;
    y.(client := Apply(y.client, a), posts := posts)
  }

  function Next(y: System, cfg: Sessions.Settings, e: Event): System
    requires Allowed(y, e)
  {
    match e
    case ClientActs(a) => ClientNext(y, a)
    case Handle(f, now, newToken) =>
      var token := y.posts[f];
      var (server', r) := Sessions.RefreshSession(y.server, cfg, now, token, newToken);
      var answer := if r.Refreshed? then Some(newToken) else None;
      System(y.client, y.posts - {f}, y.answers[f := answer], server', y.redeemed + Redemption(Some(r), token))
    case Arrive(f) =>
      var a := if y.answers[f].Some? then Answer(f, y.answers[f].value) else Breaks(f);
      y.(client := Apply(y.client, a), answers := y.answers - {f})
    case ServerActs(now, step) =>
      var (server', r) := Sessions.Perform(y.server, cfg, now, step);
      y.(server := server', redeemed := y.redeemed + Redemption(r, if step.Refresh? then step.token else 0))
    case StoreIssued(token) => y.(client := Apply(y.client, OthersWrite(token)))
  }

  ghost predicate Spent(sessions: map<nat, Sessions.Session>, redeemed: seq<nat>) {
    forall i :: 0 <= i < |redeemed| ==> redeemed[i] in sessions && !Sessions.Live(sessions[redeemed[i]])
  }

  /** Whatever the client stores, sends or is about to store is a token it was given. */
  ghost predicate FromKnown(c: Client) {
    && (forall t :: t in c.sent ==> t in c.known)
    && (c.stored.Some? ==> c.stored.value in c.known)
    && (forall f :: f in c.flights ==>
          match c.flights[f].phase
          case HaveToken(Some(t)) => t in c.known
          case Storing(t) => t in c.known
          case _ => true)
  }

  lemma StepKeepsFromKnown(c: Client, a: Action)
    requires FromKnown(c) && Enabled(c, a)
    ensures FromKnown(Apply(c, a))
  {
  }

  /** Known tokens and tokens under way were issued by the server, and no token is under way twice. */
  ghost predicate Issued(known: set<nat>, answers: map<nat, Option<nat>>, sessions: map<nat, Sessions.Session>) {
    && (forall t :: t in known ==> t in sessions)
    && (forall f :: f in answers && answers[f].Some? ==> answers[f].value in sessions && answers[f].value !in known)
    && (forall f, g :: f in answers && g in answers && answers[f].Some? && answers[f] == answers[g] ==> f == g)
  }

  /** A post under way belongs to a flight that has sent it and has no answer yet. */
  ghost predicate PostsAreSent(c: Client, posts: map<nat, nat>, answers: map<nat, Option<nat>>) {
    forall f :: f in posts ==>
      && f < c.nextFlight && f !in answers
      && (f in c.flights ==> c.flights[f].phase.Posting? || c.flights[f].phase in {Clearing, Cleared})
  }

  ghost predicate AnswersAreSent(c: Client, answers: map<nat, Option<nat>>) {
    forall f :: f in answers ==>
      f < c.nextFlight && (f in c.flights ==> c.flights[f].phase != Reading && !c.flights[f].phase.HaveToken?)
  }

  ghost predicate SystemInvariant(y: System) {
    && SingleFlight(y.client) && FromKnown(y.client)
    && PostsAreSent(y.client, y.posts, y.answers) && AnswersAreSent(y.client, y.answers)
    && Issued(y.client.known, y.answers, y.server.sessions)
    && NoDuplicates(y.redeemed)
    && Spent(y.server.sessions, y.redeemed)
  }

  lemma ArrivalsAreUnknown(y: System, f: nat)
    requires SystemInvariant(y) && f in y.answers && Posted(y.client, f)
    ensures Allowed(y, Arrive(f))
  {
  }

  lemma ServerStepKeepsSpent(
    t: Sessions.Tables, cfg: Sessions.Settings, now: int, step: Sessions.Step, redeemed: seq<nat>)
    requires Sessions.FreshTokens(t, step) && NoDuplicates(redeemed) && Spent(t.sessions, redeemed)
    ensures
      var (t', r) := Sessions.Perform(t, cfg, now, step);
      var log := redeemed + Redemption(r, if step.Refresh? then step.token else 0);
      && NoDuplicates(log) && Spent(t'.sessions, log)
      && (forall k :: k in t.sessions ==> k in t'.sessions)
  {
    var (t', r) := Sessions.Perform(t, cfg, now, step);
    forall i | 0 <= i < |redeemed|
      ensures redeemed[i] in t'.sessions && !Sessions.Live(t'.sessions[redeemed[i]])
    {
      Sessions.RevokedForever(t, cfg, now, step, redeemed[i]);
    }
    if step.Refresh? && r.value.Refreshed? {
      Sessions.RedemptionRevokes(t, cfg, now, step.token, step.newToken);
    }
  }

  /** What an event does to the client, if anything. */
  function ClientAction(y: System, e: Event): Option<Action>
    requires Allowed(y, e)
  {
    match e
    case ClientActs(a) => Some(a)
    case Arrive(f) => Some(if y.answers[f].Some? then Answer(f, y.answers[f].value) else Breaks(f))
    case StoreIssued(token) => Some(OthersWrite(token))
    case _ => None
  }

  lemma EventsActOnClient(y: System, cfg: Sessions.Settings, e: Event)
    requires Allowed(y, e)
    ensures
      match ClientAction(y, e)
      case None => Next(y, cfg, e).client == y.client
      case Some(a) => Enabled(y.client, a) && Next(y, cfg, e).client == Apply(y.client, a)
  {
  }

  lemma NextKeepsClient(y: System, cfg: Sessions.Settings, e: Event)
    requires SingleFlight(y.client) && FromKnown(y.client) && Allowed(y, e)
    ensures SingleFlight(Next(y, cfg, e).client) && FromKnown(Next(y, cfg, e).client)
  {
    EventsActOnClient(y, cfg, e);
    var action := ClientAction(y, e);
    if action.Some? {
      StepKeepsSingleFlight(y.client, action.value);
      StepKeepsFromKnown(y.client, action.value);
    }
  }

  lemma NextKeepsServer(y: System, cfg: Sessions.Settings, e: Event)
    requires NoDuplicates(y.redeemed) && Spent(y.server.sessions, y.redeemed) && Allowed(y, e)
    ensures NoDuplicates(Next(y, cfg, e).redeemed) && Spent(Next(y, cfg, e).server.sessions, Next(y, cfg, e).redeemed)
    ensures forall k :: k in y.server.sessions ==> k in Next(y, cfg, e).server.sessions
  {
    match e
    case Handle(f, now, newToken) =>
      ServerStepKeepsSpent(y.server, cfg, now, Sessions.Refresh(y.posts[f], newToken), y.redeemed);
    case ServerActs(now, step) =>
      ServerStepKeepsSpent(y.server, cfg, now, step, y.redeemed);
    case _ =>
  }

  lemma NextKeepsIssued(y: System, cfg: Sessions.Settings, e: Event)
    requires Issued(y.client.known, y.answers, y.server.sessions) && Allowed(y, e)
    requires forall k :: k in y.server.sessions ==> k in Next(y, cfg, e).server.sessions
    ensures var y' := Next(y, cfg, e); Issued(y'.client.known, y'.answers, y'.server.sessions)
  {
    match e
    case StoreIssued(token) =>
      assert forall f :: f in y.answers ==> y.answers[f] in y.answers.Values;
    case _ =>
  }

  lemma NextKeepsPosts(y: System, cfg: Sessions.Settings, e: Event)
    requires SingleFlight(y.client) && Allowed(y, e)
    requires PostsAreSent(y.client, y.posts, y.answers) && AnswersAreSent(y.client, y.answers)
    ensures
      var y' := Next(y, cfg, e);
      PostsAreSent(y'.client, y'.posts, y'.answers) && AnswersAreSent(y'.client, y'.answers)
  {
  }

  lemma NextKeepsInvariant(y: System, cfg: Sessions.Settings, e: Event)
    requires SystemInvariant(y) && Allowed(y, e)
    ensures SystemInvariant(Next(y, cfg, e))
  {
    NextKeepsClient(y, cfg, e);
    NextKeepsPosts(y, cfg, e);
    NextKeepsServer(y, cfg, e);
    NextKeepsIssued(y, cfg, e);
  }

  lemma NextKeepsSendsOnce(y: System, cfg: Sessions.Settings, e: Event)
    requires SingleFlight(y.client) && SendsOnce(y.client) && Allowed(y, e)
    requires !(e.ClientActs? && e.a.ClearFails?)
    ensures SendsOnce(Next(y, cfg, e).client)
  {
    EventsActOnClient(y, cfg, e);
    var action := ClientAction(y, e);
    if action.Some? {
      StepKeepsSendsOnce(y.client, action.value);
    }
  }

  ghost predicate SystemPossible(y: System, cfg: Sessions.Settings, run: seq<Event>)
    decreases |run|
  {
    run == [] || (Allowed(y, run[0]) && SystemPossible(Next(y, cfg, run[0]), cfg, run[1..]))
  }

  function SystemAfter(y: System, cfg: Sessions.Settings, run: seq<Event>): System
    requires SystemPossible(y, cfg, run)
    decreases |run|
  {
    if run == [] then y else SystemAfter(Next(y, cfg, run[0]), cfg, run[1..])
  }

  lemma {:induction false} SystemInvariantAlongRun(y: System, cfg: Sessions.Settings, run: seq<Event>)
    requires SystemInvariant(y) && SystemPossible(y, cfg, run)
    ensures SystemInvariant(SystemAfter(y, cfg, run))
    decreases |run|
  {
    if run != [] {
      NextKeepsInvariant(y, cfg, run[0]);
      SystemInvariantAlongRun(Next(y, cfg, run[0]), cfg, run[1..]);
    }
  }

  /** A client that has just started, in front of any session table. */
  function Fresh(server: Sessions.Tables): System {
    System(START, map[], map[], server, [])
  }

  /** Client and server together, with posts and answers delayed or lost at will and clearing that may fail: every
      token the client stores or sends was issued by the server, and no token is ever redeemed twice. */
  lemma NoTokenRedeemedTwice(server: Sessions.Tables, cfg: Sessions.Settings, run: seq<Event>)
    requires SystemPossible(Fresh(server), cfg, run)
    ensures
      var y := SystemAfter(Fresh(server), cfg, run);
      && NoDuplicates(y.redeemed)
      && (forall t :: t in y.client.sent ==> t in y.server.sessions)
      && (y.client.stored.Some? ==> y.client.stored.value in y.server.sessions)
  {
    SystemInvariantAlongRun(Fresh(server), cfg, run);
  }

  /** The server handled the post of flight f with the new token n, and the client has not gone another way. */
  ghost predicate Delivered(y: System, f: nat, n: nat) {
    && f < y.client.nextFlight && f !in y.posts
    && (f in y.client.flights ==>
          match y.client.flights[f].phase
          case Posting(_) => f in y.answers ==> y.answers[f] == Some(n)
          case Storing(t) => t == n
          case Stored => y.client.stored == Some(n)
          case Clearing => true
          case Cleared => true
          case _ => false)
  }

  /** No other flow writes or clears the client's tokens. */
  predicate LeavesTokens(e: Event) {
    !e.StoreIssued? && !(e.ClientActs? && e.a.OthersClear?)
  }

  lemma NextKeepsDelivered(y: System, cfg: Sessions.Settings, e: Event, f: nat, n: nat)
    requires SystemInvariant(y) && Delivered(y, f, n) && Allowed(y, e) && LeavesTokens(e)
    ensures Delivered(Next(y, cfg, e), f, n)
  {
  }

  /** The event may end the session of token n, which belongs to this user and device. */
  predicate EndsSession(y: System, e: Event, n: nat, user: nat, device: nat) {
    match e
    case Handle(g, _, _) => g in y.posts && y.posts[g] == n
    case ServerActs(_, step) => Sessions.MayRevoke(step, n, user, device)
    case _ => false
  }

  ghost predicate SessionLeftAlone(y: System, cfg: Sessions.Settings, run: seq<Event>, n: nat, user: nat, device: nat)
    requires SystemPossible(y, cfg, run)
    decreases |run|
  {
    run == [] ||
    (!EndsSession(y, run[0], n, user, device) && SessionLeftAlone(Next(y, cfg, run[0]), cfg, run[1..], n, user, device))
  }

  predicate BelongsTo(y: System, n: nat, user: nat, device: nat) {
    && n in y.server.sessions
    && y.server.sessions[n].user == user && y.server.sessions[n].device == device
  }

  lemma NextKeepsOwner(y: System, cfg: Sessions.Settings, e: Event, n: nat, user: nat, device: nat)
    requires Allowed(y, e) && BelongsTo(y, n, user, device)
    ensures BelongsTo(Next(y, cfg, e), n, user, device)
    ensures Sessions.Live(y.server.sessions[n]) && !EndsSession(y, e, n, user, device) ==>
      Sessions.Live(Next(y, cfg, e).server.sessions[n])
  {
    match e
    case Handle(g, now, newToken) =>
      var step := Sessions.Refresh(y.posts[g], newToken);
      if y.posts[g] != n {
        Sessions.SessionKept(y.server, cfg, now, step, n);
      }
    case ServerActs(now, step) =>
      if !Sessions.MayRevoke(step, n, user, device) {
        Sessions.SessionKept(y.server, cfg, now, step, n);
      }
    case _ =>
  }

  lemma {:induction false} FinishFromDelivery(
    y: System, cfg: Sessions.Settings, f: nat, n: nat, mid: seq<Event>, user: nat, device: nat)
    requires SystemInvariant(y) && Delivered(y, f, n) && BelongsTo(y, n, user, device)
    requires forall i :: 0 <= i < |mid| ==> LeavesTokens(mid[i])
    requires SystemPossible(y, cfg, mid + [ClientActs(Finish(f))])
    ensures
      var run := mid + [ClientActs(Finish(f))];
      var end := SystemAfter(y, cfg, run);
      && end.client.stored == Some(n) && BelongsTo(end, n, user, device)
      && (Sessions.Live(y.server.sessions[n]) && SessionLeftAlone(y, cfg, run, n, user, device) ==>
            Sessions.Live(end.server.sessions[n]))
    decreases |mid|
  {
    var run := mid + [ClientActs(Finish(f))];
    NextKeepsOwner(y, cfg, run[0], n, user, device);
    if mid == [] {
      assert run[1..] == [];
    } else {
      assert run[0] == mid[0] && run[1..] == mid[1..] + [ClientActs(Finish(f))];
      NextKeepsInvariant(y, cfg, mid[0]);
      NextKeepsDelivered(y, cfg, mid[0], f, n);
      assert forall i :: 0 <= i < |mid[1..]| ==> mid[1..][i] == mid[i + 1];
      FinishFromDelivery(Next(y, cfg, mid[0]), cfg, f, n, mid[1..], user, device);
    }
  }

  lemma HandleDelivers(y: System, cfg: Sessions.Settings, f: nat, now: int, n: nat)
    requires SystemInvariant(y) && Allowed(y, Handle(f, now, n))
    requires Sessions.RefreshSession(y.server, cfg, now, y.posts[f], n).1.Refreshed?
    ensures y.posts[f] in y.server.sessions
    ensures
      var old_, y' := y.server.sessions[y.posts[f]], Next(y, cfg, Handle(f, now, n));
      && SystemInvariant(y') && Delivered(y', f, n)
      && BelongsTo(y', n, old_.user, old_.device) && Sessions.Live(y'.server.sessions[n])
  {
    NextKeepsInvariant(y, cfg, Handle(f, now, n));
  }

  /** When the server redeems the token of flight f for n and the refresh finishes, the client holds n. The session of n
      has the user and device of the redeemed one, and it is live unless a later server step ended it. */
  lemma FinishedRefreshHoldsIssued(y: System, cfg: Sessions.Settings, f: nat, now: int, n: nat, mid: seq<Event>)
    requires SystemInvariant(y) && f in y.posts
    requires Sessions.RefreshSession(y.server, cfg, now, y.posts[f], n).1.Refreshed?
    requires forall i :: 0 <= i < |mid| ==> LeavesTokens(mid[i])
    requires SystemPossible(y, cfg, [Handle(f, now, n)] + (mid + [ClientActs(Finish(f))]))
    ensures y.posts[f] in y.server.sessions
    ensures
      var old_, first := y.server.sessions[y.posts[f]], Next(y, cfg, Handle(f, now, n));
      var rest := mid + [ClientActs(Finish(f))];
      var end := SystemAfter(y, cfg, [Handle(f, now, n)] + rest);
      && end.client.stored == Some(n) && BelongsTo(end, n, old_.user, old_.device)
      && SystemPossible(first, cfg, rest)
      && (SessionLeftAlone(first, cfg, rest, n, old_.user, old_.device) ==> Sessions.Live(end.server.sessions[n]))
  {
    var rest := mid + [ClientActs(Finish(f))];
    var run := [Handle(f, now, n)] + rest;
    assert run[0] == Handle(f, now, n) && run[1..] == rest;
    HandleDelivers(y, cfg, f, now, n);
    var old_ := y.server.sessions[y.posts[f]];
    FinishFromDelivery(Next(y, cfg, run[0]), cfg, f, n, mid, old_.user, old_.device);
  }

  lemma SystemRunFirst(y: System, cfg: Sessions.Settings, e: Event, rest: seq<Event>)
    requires Allowed(y, e) && SystemPossible(Next(y, cfg, e), cfg, rest)
    ensures SystemPossible(y, cfg, [e] + rest)
    ensures SystemAfter(y, cfg, [e] + rest) == SystemAfter(Next(y, cfg, e), cfg, rest)
  {
    assert ([e] + rest)[1..] == rest;
  }

  /** The system with a refresh for request r just posted. */
  function Sent(y: System, r: nat, t: nat): System {
    var c := y.client;
    y.(client := c.(isRefreshing := true, retried := c.retried + {r}, leads := c.leads + [r], sent := c.sent + [t],
                    flights := c.flights[c.nextFlight := Flight(r, Posting(t))], nextFlight := c.nextFlight + 1),
       posts := y.posts[c.nextFlight := t])
  }

  lemma PostGoesOut(y: System, cfg: Sessions.Settings, r: nat, t: nat, rest: seq<Event>) returns (run: seq<Event>)
    requires !y.client.isRefreshing && r !in y.client.retried && y.client.stored == Some(t)
    requires SystemPossible(Sent(y, r, t), cfg, rest)
    ensures SystemPossible(y, cfg, run) && SystemAfter(y, cfg, run) == SystemAfter(Sent(y, r, t), cfg, rest)
  {
    var f := y.client.nextFlight;
    var read, send := ClientActs(ReadToken(f)), ClientActs(Send(f));
    var y1 := Next(y, cfg, ClientActs(Unauthorized(r)));
    var y2 := Next(y1, cfg, read);
    assert y2.client.flights == y.client.flights[f := Flight(r, HaveToken(Some(t)))];
    assert Next(y2, cfg, send) == Sent(y, r, t);
    SystemRunFirst(y2, cfg, send, rest);
    SystemRunFirst(y1, cfg, read, [send] + rest);
    SystemRunFirst(y, cfg, ClientActs(Unauthorized(r)), [read] + ([send] + rest));
    run := [ClientActs(Unauthorized(r))] + ([read] + ([send] + rest));
  }

  lemma AnswerComesIn(y: System, cfg: Sessions.Settings, f: nat, now: int, n: nat) returns (run: seq<Event>)
    requires SystemInvariant(y) && Posted(y.client, f) && f in y.posts && n !in y.server.sessions
    requires Sessions.RefreshSession(y.server, cfg, now, y.posts[f], n).1 == Sessions.Refreshed(n)
    ensures SystemPossible(y, cfg, run)
    ensures
      var end := SystemAfter(y, cfg, run);
      && end.client.stored == Some(n) && !end.client.isRefreshing && end.client.sent == y.client.sent
      && Members(y.client.queue) <= end.client.resolved
      && end.redeemed == y.redeemed + [y.posts[f]]
      && end.server == Sessions.RefreshSession(y.server, cfg, now, y.posts[f], n).0
  {
    var write, finish := ClientActs(WriteToken(f)), ClientActs(Finish(f));
    var y1 := Next(y, cfg, Handle(f, now, n));
    var y2 := Next(y1, cfg, Arrive(f));
    var y3 := Next(y2, cfg, write);
    SystemRunFirst(y3, cfg, finish, []);
    SystemRunFirst(y2, cfg, write, [finish] + []);
    SystemRunFirst(y1, cfg, Arrive(f), [write] + ([finish] + []));
    SystemRunFirst(y, cfg, Handle(f, now, n), [Arrive(f)] + ([write] + ([finish] + [])));
    run := [Handle(f, now, n)] + ([Arrive(f)] + ([write] + ([finish] + [])));
  }

  /** A 401 on a fresh request can be answered: whenever the server would redeem the stored token, some run of the system
      sends it, redeems it, and ends with the new token stored on both sides. */
  lemma RefreshCanSucceed(y: System, cfg: Sessions.Settings, r: nat, t: nat, now: int, n: nat) returns (run: seq<Event>)
    requires SystemInvariant(y) && !y.client.isRefreshing && r !in y.client.retried && y.client.stored == Some(t)
    requires n !in y.server.sessions
    requires Sessions.RefreshSession(y.server, cfg, now, t, n).1 == Sessions.Refreshed(n)
    ensures SystemPossible(y, cfg, run)
    ensures
      var end := SystemAfter(y, cfg, run);
      && end.client.stored == Some(n) && !end.client.isRefreshing && end.client.sent == y.client.sent + [t]
      && Members(y.client.queue) <= end.client.resolved
      && end.redeemed == y.redeemed + [t]
      && end.server == Sessions.RefreshSession(y.server, cfg, now, t, n).0
  {
    assert SystemInvariant(Sent(y, r, t)) by {
      assert y.client.nextFlight in Sent(y, r, t).client.flights;
    }
    run := AnswerComesIn(Sent(y, r, t), cfg, y.client.nextFlight, now, n);
    run := PostGoesOut(y, cfg, r, t, run);
  }

  /** Every rotation on the server is in the log of redemptions, unless it was there before. */
  ghost predicate RotationsLogged(y: System, before: map<nat, Sessions.Session>) {
    forall k :: k in y.server.sessions && y.server.sessions[k].reason == Some(Sessions.Rotated) ==>
      k in y.redeemed || (k in before && before[k].reason == Some(Sessions.Rotated))
  }

  lemma NextKeepsRotations(y: System, cfg: Sessions.Settings, e: Event, before: map<nat, Sessions.Session>)
    requires RotationsLogged(y, before) && Allowed(y, e)
    ensures RotationsLogged(Next(y, cfg, e), before)
  {
    var y' := Next(y, cfg, e);
    var log := y'.redeemed[|y.redeemed|..];
    assert y'.redeemed == y.redeemed + log;
  }

  lemma {:induction false} RotationsLoggedFrom(
    y: System, cfg: Sessions.Settings, run: seq<Event>, before: map<nat, Sessions.Session>)
    requires RotationsLogged(y, before) && SystemPossible(y, cfg, run)
    ensures RotationsLogged(SystemAfter(y, cfg, run), before)
    decreases |run|
  {
    if run != [] {
      NextKeepsRotations(y, cfg, run[0], before);
      RotationsLoggedFrom(Next(y, cfg, run[0]), cfg, run[1..], before);
    }
  }

  /** The log is complete: a session the server rotates in any run of the system has been redeemed in it. */
  lemma EveryRotationIsLogged(server: Sessions.Tables, cfg: Sessions.Settings, run: seq<Event>)
    requires SystemPossible(Fresh(server), cfg, run)
    ensures RotationsLogged(SystemAfter(Fresh(server), cfg, run), server.sessions)
  {
    RotationsLoggedFrom(Fresh(server), cfg, run, server.sessions);
  }

  ghost predicate ClearingWorks(run: seq<Event>) {
    forall i :: 0 <= i < |run| ==> !(run[i].ClientActs? && run[i].a.ClearFails?)
  }

  lemma {:induction false} SendsOnceAlongRun(y: System, cfg: Sessions.Settings, run: seq<Event>)
    requires SystemInvariant(y) && SendsOnce(y.client) && SystemPossible(y, cfg, run) && ClearingWorks(run)
    ensures SendsOnce(SystemAfter(y, cfg, run).client)
    decreases |run|
  {
    if run != [] {
      NextKeepsInvariant(y, cfg, run[0]);
      NextKeepsSendsOnce(y, cfg, run[0]);
      SendsOnceAlongRun(Next(y, cfg, run[0]), cfg, run[1..]);
    }
  }

  /** While clearing works the interceptor also sends each token at most once. */
  lemma NoTokenSentTwiceInSystem(server: Sessions.Tables, cfg: Sessions.Settings, run: seq<Event>)
    requires SystemPossible(Fresh(server), cfg, run) && ClearingWorks(run)
    ensures NoDuplicates(SystemAfter(Fresh(server), cfg, run).client.sent)
  {
    SendsOnceAlongRun(Fresh(server), cfg, run);
  }

  // ---------------------------------------------------------------------------------------------
  // The interceptor's segments on the module's variables
  // ---------------------------------------------------------------------------------------------

  class Interceptor {
    var isRefreshing: bool
    var failedQueue: seq<nat>
    var retried: set<nat>
    var stored: Option<nat>
    var flights: map<nat, Flight>
    var nextWaiter: nat
    var nextFlight: nat
    ghost var known: set<nat>
    ghost var sent: seq<nat>
    ghost var leads: seq<nat>
    ghost var settled: seq<nat>
    ghost var resolved: set<nat>

    ghost function State(): Client
      reads this
    {
      Client(isRefreshing, failedQueue, retried, stored, flights, nextWaiter, nextFlight,
             known, sent, leads, settled, resolved)
    }

    constructor ()
      ensures State() == START && Invariant(State())
    {
      isRefreshing, failedQueue, retried, stored, flights, nextWaiter, nextFlight := false, [], {}, None, map[], 0, 0;
      known, sent, leads, settled, resolved := {}, [], [], [], {};
    }

    method ProcessQueue(success: bool)
      modifies this`failedQueue, this`settled, this`resolved
      ensures State() == Drain(old(State()), success)
    {
      var i := 0;
      while i < |failedQueue|
        invariant 0 <= i <= |failedQueue| && failedQueue == old(failedQueue)
        invariant settled == old(settled) + failedQueue[..i]
        invariant resolved == if success then old(resolved) + Members(failedQueue[..i]) else old(resolved)
      {
        settled := settled + [failedQueue[i]];
        if success {
          resolved := resolved + {failedQueue[i]};
          assert forall x :: x in failedQueue[..i + 1] <==> x in failedQueue[..i] || x == failedQueue[i];
        }
        assert failedQueue[..i + 1] == failedQueue[..i] + [failedQueue[i]];
        i := i + 1;
      }
      assert failedQueue[..i] == failedQueue;
      failedQueue := [];
    }

    method OnUnauthorized(request: nat)
      modifies this
      ensures State() == Apply(old(State()), Unauthorized(request))
    {
      if request !in retried {
        if isRefreshing {
          failedQueue := failedQueue + [nextWaiter];
          nextWaiter := nextWaiter + 1;
          return;
        }
        retried := retried + {request};
        isRefreshing := true;
        leads := leads + [request];
        flights := flights[nextFlight := Flight(request, Reading)];
        nextFlight := nextFlight + 1;
      }
    }

    method OnTokenRead(f: nat)
      requires Enabled(State(), ReadToken(f))
      modifies this
      ensures State() == Apply(old(State()), ReadToken(f))
    {
      flights := flights[f := flights[f].(phase := HaveToken(stored))];
    }

    method SendRefresh(f: nat)
      requires Enabled(State(), Send(f))
      modifies this
      ensures State() == Apply(old(State()), Send(f))
    {
      var read := flights[f].phase.read;
      if read == None {
        ProcessQueue(false);
        flights := flights[f := flights[f].(phase := Clearing)];
        return;
      }
      sent := sent + [read.value];
      flights := flights[f := flights[f].(phase := Posting(read.value))];
    }

    method OnAnswer(f: nat, newToken: nat)
      requires Enabled(State(), Answer(f, newToken))
      modifies this
      ensures State() == Apply(old(State()), Answer(f, newToken))
    {
      known := known + {newToken};
      flights := flights[f := flights[f].(phase := Storing(newToken))];
    }

    method OnTokenWritten(f: nat)
      requires Enabled(State(), WriteToken(f))
      modifies this
      ensures State() == Apply(old(State()), WriteToken(f))
    {
      stored := Some(flights[f].phase.token);
      flights := flights[f := flights[f].(phase := Stored)];
    }

    method OnStored(f: nat)
      requires Enabled(State(), Finish(f))
      modifies this
      ensures State() == Apply(old(State()), Finish(f))
    {
      ProcessQueue(true);
      flights := flights - {f};
      isRefreshing := false;
    }

    method OnError(f: nat)
      requires Enabled(State(), Breaks(f))
      modifies this
      ensures State() == Apply(old(State()), Breaks(f))
    {
      ProcessQueue(false);
      flights := flights[f := flights[f].(phase := Clearing)];
    }

    method OnTokenRemoved(f: nat)
      requires Enabled(State(), RemoveToken(f))
      modifies this
      ensures State() == Apply(old(State()), RemoveToken(f))
    {
      stored := None;
      flights := flights[f := flights[f].(phase := Cleared)];
    }

    method OnCleared(f: nat)
      requires Enabled(State(), Throw(f))
      modifies this
      ensures State() == Apply(old(State()), Throw(f))
    {
      flights := flights - {f};
      isRefreshing := false;
    }
  }
}
