/**
 The sliding-window limiter: `check_rate_limit` in backend/app/core/rate_limiter.py.

 Times are real seconds. The Redis branch keeps a sorted set whose members are their own
 scores; a pipeline runs as one atomic step, but the ZREM of a rejected request is a separate command,
 so other pipelines and the key's expiry can come between.
*/
module RateLimiter {
  import Sets

  datatype Decision = Decision(allowed: bool, remaining: int)

  // ---------------------------------------------------------------------------------------------
  // Redis branch, one key
  // ---------------------------------------------------------------------------------------------

  /** `entries` and `expiry` are what Redis holds. `pending` are the rejected stamps whose ZREM is still
      to come, `granted` the stamps of all allowed requests so far, repeats included, `clock` the last time seen. */
  datatype Key = Key(entries: set<real>, expiry: real, pending: multiset<real>, granted: seq<real>, clock: real)

  const EMPTY_KEY := Key({}, 0.0, multiset{}, [], 0.0)

  /** ZREMRANGEBYSCORE key 0 upTo */
  function Pruned(entries: set<real>, upTo: real): set<real> {
    set t | t in entries && !(0.0 <= t <= upTo)
  }

  function Added(k: Key, now: real, window: nat): set<real> {
    Pruned(k.entries, now - window as real) + {now}
  }

  function Pipeline(k: Key, now: real, max: int, window: nat): (Key, Decision) {
    var entries := Added(k, now, window);
    var count := |entries|;
    var k' := k.(entries := entries, expiry := now + window as real + 1.0, clock := now);
    if count > max then
      (k'.(pending := k.pending + multiset{now}), Decision(false, 0))
    else
      (k'.(granted := k.granted + [now]), Decision(true, max - count))
  }

  function Zrem(k: Key, t: real): Key {
    k.(entries := k.entries - {t}, pending := k.pending - multiset{t})
  }

  function Expire(k: Key, now: real): Key {
    k.(entries := {}, clock := now)
  }

  datatype Action =
    | Request(now: real)   // one pipeline
    | Cleanup(stamp: real) // the ZREM of an earlier rejection
    | KeyExpires(now: real)

  /** Pipelines come in clock order, possibly with equal stamps; a cleanup belongs to some rejection;
      Redis may drop the key once its expiry time is reached. */
  predicate Enabled(k: Key, a: Action) {
    match a
    case Request(now) => k.clock <= now
    case Cleanup(stamp) => stamp in k.pending
    case KeyExpires(now) => k.clock <= now && k.expiry <= now
  }

  function Apply(k: Key, a: Action, max: int, window: nat): Key {
    match a
    case Request(now) => Pipeline(k, now, max, window).0
    case Cleanup(stamp) => Zrem(k, stamp)
    case KeyExpires(now) => Expire(k, now)
  }

  ghost predicate Possible(k: Key, run: seq<Action>, max: int, window: nat)
    decreases |run|
  {
    run == [] || (Enabled(k, run[0]) && Possible(Apply(k, run[0], max, window), run[1..], max, window))
  }

  function After(k: Key, run: seq<Action>, max: int, window: nat): Key
    decreases |run|
  {
    if run == [] then k else After(Apply(k, run[0], max, window), run[1..], max, window)
  }

  predicate Within(a: real, t: real, window: nat) {
    t - window as real < a <= t
  }

  /** How many requests were allowed in the window (t - window, t]. */
  function AllowedIn(granted: seq<real>, t: real, window: nat): nat {
    if granted == [] then 0
    else (if Within(granted[0], t, window) then 1 else 0) + AllowedIn(granted[1..], t, window)
  }

  /** The distinct allowed stamps in the window. */
  function InWindow(granted: seq<real>, t: real, window: nat): set<real> {
    set a | a in granted && Within(a, t, window)
  }

  /** The rejected stamps in the window that are still to be cleaned up. */
  function PendingIn(pending: multiset<real>, t: real, window: nat): set<real> {
    set a | a in pending && Within(a, t, window)
  }

  ghost predicate Distinct(stamps: seq<real>) {
    forall i, j :: 0 <= i < j < |stamps| ==> stamps[i] != stamps[j]
  }

  /** The stamp is new to the key. */
  predicate Unseen(k: Key, now: real) {
    k.clock <= now && now !in k.granted && now !in k.pending
  }

  /** What runs with distinct stamps keep. */
  ghost predicate Invariant(k: Key, max: int, window: nat) {
    && 0.0 <= k.clock && k.expiry <= k.clock + window as real + 1.0
    && (forall a :: a in k.granted ==> 0.0 <= a <= k.clock)
    && (forall a :: a in k.pending ==> 0.0 <= a <= k.clock && k.pending[a] == 1 && a !in k.granted)
    && (forall a :: a in k.entries ==> 0.0 <= a && a + window as real + 1.0 <= k.expiry)
    && (forall a :: a in k.entries ==> a in k.granted || a in k.pending)
    && (forall a :: a in k.granted && k.clock - window as real < a ==> a in k.entries)
    && (forall a :: a in k.pending && k.clock - window as real < a ==> a in k.entries)
    && (forall a :: a in k.granted ==> |InWindow(k.granted, a, window)| <= max)
    && Distinct(k.granted)
  }

  lemma RequestKeepsLimit(k: Key, now: real, max: int, window: nat)
    requires Invariant(k, max, window) && Unseen(k, now)
    ensures
      var k' := Apply(k, Request(now), max, window);
      forall a :: a in k'.granted ==> |InWindow(k'.granted, a, window)| <= max
  {
    var k' := Apply(k, Request(now), max, window);
    forall a | a in k'.granted
      ensures |InWindow(k'.granted, a, window)| <= max
    {
      if a == now {
        assert InWindow(k'.granted, now, window) <= k'.entries;
        Sets.SubsetSize(InWindow(k'.granted, now, window), k'.entries);
      } else {
        assert InWindow(k'.granted, a, window) == InWindow(k.granted, a, window);
      }
    }
  }

  lemma RequestKeepsInvariant(k: Key, now: real, max: int, window: nat)
    requires Invariant(k, max, window) && Unseen(k, now)
    ensures Invariant(Apply(k, Request(now), max, window), max, window)
  {
    RequestKeepsLimit(k, now, max, window);
  }

  /** A key that expires holds no stamp that is still inside any later window. */
  lemma ExpiryDropsNothingLive(k: Key, now: real, max: int, window: nat)
    requires Invariant(k, max, window) && Enabled(k, KeyExpires(now))
    ensures forall a :: a in k.entries ==> a < now - window as real
    ensures Pruned(k.entries, now - window as real) == {}
    ensures Invariant(Apply(k, KeyExpires(now), max, window), max, window)
    ensures Apply(k, KeyExpires(now), max, window).entries == {}
  {
  }

  lemma CleanupKeepsInvariant(k: Key, stamp: real, max: int, window: nat)
    requires Invariant(k, max, window) && stamp in k.pending
    ensures Invariant(Apply(k, Cleanup(stamp), max, window), max, window)
  {
  }

  /** The stamps of the requests of a run. */
  function StampsOf(run: seq<Action>): seq<real> {
    if run == [] then []
    else if run[0].Request? then [run[0].now] + StampsOf(run[1..])
    else StampsOf(run[1..])
  }

  ghost predicate AllNew(k: Key, stamps: seq<real>) {
    Distinct(stamps) && forall a :: a in stamps ==> a !in k.granted && a !in k.pending
  }

  lemma NewAfterRequest(k: Key, now: real, rest: seq<real>, max: int, window: nat)
    requires AllNew(k, [now] + rest)
    ensures AllNew(Apply(k, Request(now), max, window), rest)
  {
    var all := [now] + rest;
    assert all[0] == now;
    assert forall i :: 0 <= i < |rest| ==> rest[i] == all[i + 1] && rest[i] in all;
  }

  lemma {:induction false} InvariantAlongRun(k: Key, run: seq<Action>, max: int, window: nat)
    requires Invariant(k, max, window) && Possible(k, run, max, window) && AllNew(k, StampsOf(run))
    ensures Invariant(After(k, run, max, window), max, window)
    decreases |run|
  {
    if run != [] {
      match run[0] {
        case Request(now) =>
          assert now in StampsOf(run);
          RequestKeepsInvariant(k, now, max, window);
          NewAfterRequest(k, now, StampsOf(run[1..]), max, window);
        case Cleanup(stamp) => CleanupKeepsInvariant(k, stamp, max, window);
        case KeyExpires(now) => ExpiryDropsNothingLive(k, now, max, window);
      }
      InvariantAlongRun(Apply(k, run[0], max, window), run[1..], max, window);
    }
  }

  lemma {:induction false} CountIsSize(granted: seq<real>, t: real, window: nat)
    requires Distinct(granted)
    ensures AllowedIn(granted, t, window) == |InWindow(granted, t, window)|
    decreases |granted|
  {
    if granted != [] {
      var rest := granted[1..];
      CountIsSize(rest, t, window);
      assert granted[0] !in rest;
      assert forall a :: a in granted <==> a == granted[0] || a in rest;
      assert InWindow(granted, t, window)
        == InWindow(rest, t, window) + if Within(granted[0], t, window) then {granted[0]} else {};
    } else {
      assert InWindow(granted, t, window) == {};
    }
  }

  lemma {:induction false} Latest(s: set<real>) returns (m: real)
    requires s != {}
    ensures m in s && forall t :: t in s ==> t <= m
    decreases |s|
  {
    var x := Sets.Member(s);
    var rest := s - {x};
    assert s == rest + {x};
    if rest == {} {
      m := x;
    } else {
      var r := Latest(rest);
      m := if r < x then x else r;
      assert forall t :: t in s ==> t == x || t in rest;
    }
  }

  lemma LimitHoldsNow(k: Key, t: real, max: nat, window: nat)
    requires Invariant(k, max, window)
    ensures AllowedIn(k.granted, t, window) <= max
  {
    CountIsSize(k.granted, t, window);
    var w := InWindow(k.granted, t, window);
    if w != {} {
      var last := Latest(w);
      assert w <= InWindow(k.granted, last, window);
      Sets.SubsetSize(w, InWindow(k.granted, last, window));
    }
  }

  /** Safety for every interleaving: whatever the delays of the cleanups and whenever the key expires, no window of
      the configured length ever holds more than `max` allowed requests, if no two requests have the same stamp. */
  lemma LimitHoldsInEveryWindow(run: seq<Action>, t: real, max: nat, window: nat)
    requires Possible(EMPTY_KEY, run, max, window) && Distinct(StampsOf(run))
    ensures AllowedIn(After(EMPTY_KEY, run, max, window).granted, t, window) <= max
  {
    InvariantAlongRun(EMPTY_KEY, run, max, window);
    LimitHoldsNow(After(EMPTY_KEY, run, max, window), t, max, window);
  }

  /** What a decision means in any interleaving: a request is allowed exactly when its window holds fewer
      than `max` allowed requests and rejections not yet cleaned up. */
  lemma DecisionIsExact(k: Key, now: real, max: int, window: nat)
    requires Invariant(k, max, window) && Unseen(k, now)
    ensures
      var used := |InWindow(k.granted, now, window)| + |PendingIn(k.pending, now, window)|;
      Pipeline(k, now, max, window).1 == if used < max then Decision(true, max - used - 1) else Decision(false, 0)
  {
    var g, p := InWindow(k.granted, now, window), PendingIn(k.pending, now, window);
    assert g !! p;
    assert Pruned(k.entries, now - window as real) == g + p;
    assert now !in g + p;
    assert |g + p| == |g| + |p|;
  }

  // ---------------------------------------------------------------------------------------------
  // Equal stamps
  // ---------------------------------------------------------------------------------------------

  /** Requests with the same stamp share one member: the next one gets the same answer, whatever the limit. */
  lemma EqualStampsCountOnce(k: Key, now: real, max: int, window: nat)
    ensures
      var (k', first) := Pipeline(k, now, max, window);
      Pipeline(k', now, max, window).1 == first
  {
    var k' := Pipeline(k, now, max, window).0;
    assert Added(k', now, window) == k'.entries;
  }

  lemma RunFirst(k: Key, a: Action, k': Key, rest: seq<Action>, max: int, window: nat)
    requires Enabled(k, a) && Apply(k, a, max, window) == k' && Possible(k', rest, max, window)
    ensures Possible(k, [a] + rest, max, window)
    ensures After(k, [a] + rest, max, window) == After(k', rest, max, window)
    ensures StampsOf([a] + rest) == (if a.Request? then [a.now] else []) + StampsOf(rest)
  {
    assert ([a] + rest)[1..] == rest;
  }

  /** One pipeline for window 10, given what pruning leaves. */
  lemma PipelineGives(k: Key, now: real, max: int, live: set<real>, k': Key)
    requires Pruned(k.entries, now - 10.0) == live
    requires k' == if |live + {now}| > max
                   then Key(live + {now}, now + 11.0, k.pending + multiset{now}, k.granted, now)
                   else Key(live + {now}, now + 11.0, k.pending, k.granted + [now], now)
    ensures Apply(k, Request(now), max, 10) == k'
  {
  }

  lemma TwoInWindow()
    ensures AllowedIn([1.0, 11.5, 12.0], 12.0, 10) == 2
  {
    assert [1.0, 11.5, 12.0][1..] == [11.5, 12.0] && [11.5, 12.0][1..] == [12.0] && [12.0][1..] == [];
  }

  /** A rejection's ZREM is under way when a request with the same stamp is allowed and loses its member to it. */
  lemma LateCleanup(k: Key) returns (run: seq<Action>)
    requires k == Key({5.0, 11.5}, 22.5, multiset{5.0, 11.5}, [1.0], 11.5)
    ensures StampsOf(run) == [11.5, 12.0]
    ensures Possible(k, run, 1, 10) && After(k, run, 1, 10).granted == [1.0, 11.5, 12.0]
  {
    var k4 := Key({11.5}, 22.5, multiset{11.5}, [1.0], 11.5);
    var k5 := Key({11.5}, 22.5, multiset{11.5}, [1.0, 11.5], 11.5);
    var k6 := Key({}, 22.5, multiset{}, [1.0, 11.5], 11.5);
    var k7 := Key({12.0}, 23.0, multiset{}, [1.0, 11.5, 12.0], 12.0);
    PipelineGives(k6, 12.0, 1, {}, k7);
    RunFirst(k6, Request(12.0), k7, [], 1, 10);
    run := [Request(12.0)] + [];
    RunFirst(k5, Cleanup(11.5), k6, run, 1, 10);
    run := [Cleanup(11.5)] + run;
    PipelineGives(k4, 11.5, 1, {11.5}, k5);
    RunFirst(k4, Request(11.5), k5, run, 1, 10);
    run := [Request(11.5)] + run;
    RunFirst(k, Cleanup(5.0), k4, run, 1, 10);
    run := [Cleanup(5.0)] + run;
  }

  lemma TwoRejections(k: Key, k': Key, run: seq<Action>)
    requires k == Key({1.0}, 12.0, multiset{}, [1.0], 1.0)
    requires k' == Key({5.0, 11.5}, 22.5, multiset{5.0, 11.5}, [1.0], 11.5) && Possible(k', run, 1, 10)
    ensures
      var all := [Request(5.0)] + ([Request(11.5)] + run);
      && StampsOf(all) == [5.0, 11.5] + StampsOf(run)
      && Possible(k, all, 1, 10) && After(k, all, 1, 10) == After(k', run, 1, 10)
  {
    var k2 := Key({1.0, 5.0}, 16.0, multiset{5.0}, [1.0], 5.0);
    PipelineGives(k2, 11.5, 1, {5.0}, k');
    RunFirst(k2, Request(11.5), k', run, 1, 10);
    PipelineGives(k, 5.0, 1, {1.0}, k2);
    RunFirst(k, Request(5.0), k2, [Request(11.5)] + run, 1, 10);
  }

  /** The late ZREM of a rejection removes the member of an allowed request with the same stamp, so that
      a later request with a stamp of its own is let in as well: two in a window for a limit of one. */
  lemma LateCleanupFreesGrantedSlot() returns (run: seq<Action>)
    ensures StampsOf(run) == [1.0, 5.0, 11.5, 11.5, 12.0]
    ensures Possible(EMPTY_KEY, run, 1, 10)
    ensures After(EMPTY_KEY, run, 1, 10).granted == [1.0, 11.5, 12.0]
    ensures AllowedIn([1.0, 11.5, 12.0], 12.0, 10) == 2
  {
    var k1 := Key({1.0}, 12.0, multiset{}, [1.0], 1.0);
    var k3 := Key({5.0, 11.5}, 22.5, multiset{5.0, 11.5}, [1.0], 11.5);
    run := LateCleanup(k3);
    TwoRejections(k1, k3, run);
    run := [Request(5.0)] + ([Request(11.5)] + run);
    PipelineGives(EMPTY_KEY, 1.0, 1, {}, k1);
    RunFirst(EMPTY_KEY, Request(1.0), k1, run, 1, 10);
    run := [Request(1.0)] + run;
    TwoInWindow();
  }

  /** What a clock can hand out: positive times that never go back. */
  ghost predicate ClockOrdered(stamps: seq<real>) {
    && (forall i :: 0 <= i < |stamps| ==> 0.0 < stamps[i])
    && (forall i, j :: 0 <= i < j < |stamps| ==> stamps[i] <= stamps[j])
  }

  function Requests(stamps: seq<real>): (run: seq<Action>)
    ensures StampsOf(run) == stamps
  {
    if stamps == [] then []
    else
      var run := [Request(stamps[0])] + Requests(stamps[1..]);
      assert run[1..] == Requests(stamps[1..]);
      run
  }

  function Members(stamps: seq<real>): set<real> {
    set a | a in stamps
  }

  lemma {:induction false} SizeOfMembers(stamps: seq<real>)
    ensures |Members(stamps)| <= |stamps|
    ensures |Members(stamps)| == |stamps| <==> Distinct(stamps)
    decreases |stamps|
  {
    if stamps == [] {
      assert Members(stamps) == {};
    } else {
      var rest := stamps[1..];
      SizeOfMembers(rest);
      assert Members(stamps) == Members(rest) + {stamps[0]};
      if stamps[0] in rest {
        assert Members(stamps) == Members(rest);
        var i :| 0 <= i < |rest| && rest[i] == stamps[0];
        assert stamps[i + 1] == stamps[0];
      } else {
        assert forall i :: 0 <= i < |rest| ==> rest[i] == stamps[i + 1];
      }
    }
  }

  /** Nothing has been pruned, rejected or dropped. */
  ghost predicate Untouched(k: Key) {
    k.entries == Members(k.granted) && k.pending == multiset{} && 0.0 <= k.clock
  }

  ghost predicate FitsOneWindow(k: Key, stamps: seq<real>, max: int, window: nat) {
    && ClockOrdered(stamps)
    && (forall i :: 0 <= i < |stamps| ==> k.clock <= stamps[i] < window as real)
    && |Members(k.granted + stamps)| <= max
  }

  lemma FitsAfterNext(k: Key, stamps: seq<real>, max: int, window: nat)
    requires stamps != [] && FitsOneWindow(k, stamps, max, window)
    ensures
      var k' := Pipeline(k, stamps[0], max, window).0;
      FitsOneWindow(k'.(granted := k.granted + [stamps[0]]), stamps[1..], max, window)
  {
    var rest := stamps[1..];
    assert forall i :: 0 <= i < |rest| ==> rest[i] == stamps[i + 1];
    assert k.granted + stamps == (k.granted + [stamps[0]]) + rest;
  }

  /** The next of some requests that fit one window, by distinct stamps, is allowed. */
  lemma NextIsAllowed(k: Key, stamps: seq<real>, max: int, window: nat)
    requires Untouched(k) && stamps != [] && FitsOneWindow(k, stamps, max, window)
    ensures
      var (k', d) := Pipeline(k, stamps[0], max, window);
      && d == Decision(true, max - |Members(k.granted + [stamps[0]])|)
      && k'.granted == k.granted + [stamps[0]] && Untouched(k')
      && FitsOneWindow(k', stamps[1..], max, window)
  {
    var now, rest := stamps[0], stamps[1..];
    assert now - window as real < 0.0;
    assert Added(k, now, window) == Members(k.granted + [now]);
    assert Members(k.granted + [now]) <= Members(k.granted + stamps);
    Sets.SubsetSize(Members(k.granted + [now]), Members(k.granted + stamps));
    FitsAfterNext(k, stamps, max, window);
  }

  lemma NextRuns(k: Key, stamps: seq<real>, max: int, window: nat)
    requires Untouched(k) && stamps != [] && FitsOneWindow(k, stamps, max, window)
    ensures Enabled(k, Request(stamps[0]))
    ensures
      var k' := Apply(k, Request(stamps[0]), max, window);
      && Untouched(k') && FitsOneWindow(k', stamps[1..], max, window)
      && k'.granted + stamps[1..] == k.granted + stamps
  {
    NextIsAllowed(k, stamps, max, window);
    assert k.granted + stamps == k.granted + [stamps[0]] + stamps[1..];
  }

  lemma {:induction false} AllAreAllowed(k: Key, stamps: seq<real>, max: int, window: nat)
    requires Untouched(k) && FitsOneWindow(k, stamps, max, window)
    ensures Possible(k, Requests(stamps), max, window)
    ensures After(k, Requests(stamps), max, window).granted == k.granted + stamps
    decreases |stamps|
  {
    if stamps == [] {
      assert k.granted + stamps == k.granted;
    } else {
      NextRuns(k, stamps, max, window);
      var a := Request(stamps[0]);
      AllAreAllowed(Apply(k, a, max, window), stamps[1..], max, window);
      RunFirst(k, a, Apply(k, a, max, window), Requests(stamps[1..]), max, window);
    }
  }

  lemma {:induction false} AllInOneWindow(stamps: seq<real>, t: real, window: nat)
    requires forall i :: 0 <= i < |stamps| ==> Within(stamps[i], t, window)
    ensures AllowedIn(stamps, t, window) == |stamps|
    decreases |stamps|
  {
    if stamps != [] {
      AllInOneWindow(stamps[1..], t, window);
    }
  }

  lemma WindowBeyond(t: real) returns (window: nat)
    requires 0.0 < t
    ensures t < window as real
  {
    window := t.Floor + 1;
  }

  lemma NoneAfterLast(stamps: seq<real>, i: nat)
    requires ClockOrdered(stamps) && i < |stamps|
    ensures 0.0 < stamps[i] <= stamps[|stamps| - 1]
  {
  }

  lemma AllBefore(stamps: seq<real>, window: nat)
    requires ClockOrdered(stamps) && (stamps != [] ==> stamps[|stamps| - 1] < window as real)
    ensures forall i :: 0 <= i < |stamps| ==> 0.0 < stamps[i] <= stamps[|stamps| - 1] < window as real
  {
    forall i | 0 <= i < |stamps|
      ensures 0.0 < stamps[i] <= stamps[|stamps| - 1] < window as real
    {
      NoneAfterLast(stamps, i);
    }
  }

  lemma AllFitFromStart(stamps: seq<real>, max: int, window: nat)
    requires ClockOrdered(stamps) && |Members(stamps)| <= max
    requires stamps != [] ==> stamps[|stamps| - 1] < window as real
    ensures Untouched(EMPTY_KEY) && FitsOneWindow(EMPTY_KEY, stamps, max, window)
    ensures EMPTY_KEY.granted + stamps == stamps
  {
    AllBefore(stamps, window);
    assert EMPTY_KEY.granted + stamps == stamps;
    assert Members([]) == {};
  }

  lemma LastWindowHoldsAll(stamps: seq<real>, window: nat)
    requires ClockOrdered(stamps) && stamps != [] && stamps[|stamps| - 1] < window as real
    ensures AllowedIn(stamps, stamps[|stamps| - 1], window) == |stamps|
  {
    AllBefore(stamps, window);
    AllInOneWindow(stamps, stamps[|stamps| - 1], window);
  }

  lemma AllAllowedFromStart(stamps: seq<real>, max: int, window: nat)
    requires ClockOrdered(stamps) && |Members(stamps)| <= max
    requires stamps != [] ==> stamps[|stamps| - 1] < window as real
    ensures Possible(EMPTY_KEY, Requests(stamps), max, window)
    ensures After(EMPTY_KEY, Requests(stamps), max, window).granted == stamps
  {
    AllFitFromStart(stamps, max, window);
    AllAreAllowed(EMPTY_KEY, stamps, max, window);
  }

  /** Requests with a repeated stamp overrun the limit that counts them once. */
  lemma RepeatsOverrun(stamps: seq<real>) returns (max: nat, window: nat, run: seq<Action>, t: real)
    requires ClockOrdered(stamps) && !Distinct(stamps)
    ensures Possible(EMPTY_KEY, run, max, window) && StampsOf(run) == stamps
    ensures max < AllowedIn(After(EMPTY_KEY, run, max, window).granted, t, window)
  {
    run, max, t := Requests(stamps), |Members(stamps)|, stamps[|stamps| - 1];
    window := WindowBeyond(t);
    AllAllowedFromStart(stamps, max, window);
    LastWindowHoldsAll(stamps, window);
    SizeOfMembers(stamps);
  }

  /** For a list of request stamps in clock order, every limit, window and interleaving keeps at most `max` allowed
      requests in each window if and only if no two of the stamps are equal. */
  lemma LimitHoldsIffStampsDistinct(stamps: seq<real>)
    requires ClockOrdered(stamps)
    ensures
      (forall max: nat, window: nat, run, t :: Possible(EMPTY_KEY, run, max, window) && StampsOf(run) == stamps ==>
         AllowedIn(After(EMPTY_KEY, run, max, window).granted, t, window) <= max)
      <==> Distinct(stamps)
  {
    if Distinct(stamps) {
      forall max: nat, window: nat, run, t | Possible(EMPTY_KEY, run, max, window) && StampsOf(run) == stamps
        ensures AllowedIn(After(EMPTY_KEY, run, max, window).granted, t, window) <= max
      {
        LimitHoldsInEveryWindow(run, t, max, window);
      }
    } else {
      var max, window, run, t := RepeatsOverrun(stamps);
    }
  }

  // ---------------------------------------------------------------------------------------------
  // Late pipelines
  // ---------------------------------------------------------------------------------------------

  /** When the stamp is allowed, every allowed stamp closer than a window to it is still in the set. */
  ghost predicate NothingMissing(k: Key, now: real, max: int, window: nat) {
    Pipeline(k, now, max, window).1.allowed ==>
      forall a :: a in k.granted && now - window as real < a < now + window as real ==> a in Added(k, now, window)
  }

  /** Pipelines, clean-ups and expiry in any order of stamps, as long as no request misses an allowed one near it. */
  ghost predicate NeverMissing(k: Key, run: seq<Action>, max: int, window: nat)
    decreases |run|
  {
    run == [] ||
    (&& (run[0].Request? ==> NothingMissing(k, run[0].now, max, window))
     && NeverMissing(Apply(k, run[0], max, window), run[1..], max, window))
  }

  lemma RequestKeepsWindows(k: Key, now: real, max: int, window: nat, t: real)
    requires NothingMissing(k, now, max, window) && |InWindow(k.granted, t, window)| <= max
    ensures |InWindow(Apply(k, Request(now), max, window).granted, t, window)| <= max
  {
    var k' := Apply(k, Request(now), max, window);
    var w := InWindow(k'.granted, t, window);
    if k'.granted == k.granted || !Within(now, t, window) {
      assert w == InWindow(k.granted, t, window);
    } else {
      assert w <= Added(k, now, window);
      Sets.SubsetSize(w, Added(k, now, window));
    }
  }

  /** Stamps that reach Redis out of order are safe, at any delay, as long as none misses an allowed stamp near it. */
  lemma {:induction false} LimitHoldsWhileNothingMissing(k: Key, run: seq<Action>, max: int, window: nat)
    requires forall t :: |InWindow(k.granted, t, window)| <= max
    requires NeverMissing(k, run, max, window)
    ensures forall t :: |InWindow(After(k, run, max, window).granted, t, window)| <= max
    decreases |run|
  {
    if run != [] {
      if run[0].Request? {
        forall t
          ensures |InWindow(Apply(k, run[0], max, window).granted, t, window)| <= max
        {
          RequestKeepsWindows(k, run[0].now, max, window, t);
        }
      }
      LimitHoldsWhileNothingMissing(Apply(k, run[0], max, window), run[1..], max, window);
    }
  }

  lemma AfterFirst(k: Key, a: Action, rest: seq<Action>, max: int, window: nat)
    ensures After(k, [a] + rest, max, window) == After(Apply(k, a, max, window), rest, max, window)
  {
    assert ([a] + rest)[1..] == rest;
  }

  /** Distinct stamps alone are not enough: a stamp read at 5.0 whose pipeline comes after that of 12.5 finds the stamps
      1.0 and 2.0 pruned, and is the third allowed request in a window for a limit of two. */
  lemma LatePipelineOverruns()
    ensures
      var run := [Request(1.0)] + ([Request(2.0)] + ([Request(12.5)] + ([Request(5.0)] + [])));
      After(EMPTY_KEY, run, 2, 10).granted == [1.0, 2.0, 12.5, 5.0]
    ensures AllowedIn([1.0, 2.0, 12.5, 5.0], 5.0, 10) == 3
  {
    var k1 := Key({1.0}, 12.0, multiset{}, [1.0], 1.0);
    var k2 := Key({1.0, 2.0}, 13.0, multiset{}, [1.0, 2.0], 2.0);
    var k3 := Key({12.5}, 23.5, multiset{}, [1.0, 2.0, 12.5], 12.5);
    var k4 := Key({12.5, 5.0}, 16.0, multiset{}, [1.0, 2.0, 12.5, 5.0], 5.0);
    PipelineGives(EMPTY_KEY, 1.0, 2, {}, k1);
    PipelineGives(k1, 2.0, 2, {1.0}, k2);
    PipelineGives(k2, 12.5, 2, {}, k3);
    PipelineGives(k3, 5.0, 2, {12.5}, k4);
    AfterFirst(k3, Request(5.0), [], 2, 10);
    AfterFirst(k2, Request(12.5), [Request(5.0)] + [], 2, 10);
    AfterFirst(k1, Request(2.0), [Request(12.5)] + ([Request(5.0)] + []), 2, 10);
    AfterFirst(EMPTY_KEY, Request(1.0), [Request(2.0)] + ([Request(12.5)] + ([Request(5.0)] + [])), 2, 10);
    ThreeInWindow();
  }

  lemma ThreeInWindow()
    ensures AllowedIn([1.0, 2.0, 12.5, 5.0], 5.0, 10) == 3
  {
    assert [1.0, 2.0, 12.5, 5.0][1..] == [2.0, 12.5, 5.0] && [2.0, 12.5, 5.0][1..] == [12.5, 5.0];
    assert [12.5, 5.0][1..] == [5.0] && [5.0][1..] == [];
  }

  // ---------------------------------------------------------------------------------------------
  // In-memory branch, one key
  // ---------------------------------------------------------------------------------------------

  function Kept(stamps: seq<real>, after: real): (r: seq<real>)
    ensures forall t :: t in r <==> t in stamps && after < t
  {
    if stamps == [] then []
    else if after < stamps[0] then [stamps[0]] + Kept(stamps[1..], after)
    else Kept(stamps[1..], after)
  }

  function MemoryCheck(stamps: seq<real>, now: real, max: int, window: nat): (seq<real>, Decision) {
    var kept := Kept(stamps, now - window as real);
    if |kept| >= max then (kept, Decision(false, 0))
    else (kept + [now], Decision(true, max - (|kept| + 1)))
  }

  // ---------------------------------------------------------------------------------------------
  // The two branches agree when nothing interleaves
  // ---------------------------------------------------------------------------------------------

  /** One call run to its end: the pipeline and, on rejection, its ZREM. */
  function UninterruptedCheck(k: Key, now: real, max: int, window: nat): (Key, Decision) {
    var (k', d) := Pipeline(k, now, max, window);
    (if d.allowed then k' else Zrem(k', now), d)
  }

  datatype Event = Call(now: real) | Idle(now: real) // Idle: Redis drops the expired key

  ghost predicate Ordered(k: Key, events: seq<Event>, max: int, window: nat)
    decreases |events|
  {
    events == [] ||
    match events[0]
    case Call(now) => k.clock < now && Ordered(UninterruptedCheck(k, now, max, window).0, events[1..], max, window)
    case Idle(now) => Enabled(k, KeyExpires(now)) && Ordered(Expire(k, now), events[1..], max, window)
  }

  function RedisDecisions(k: Key, events: seq<Event>, max: int, window: nat): seq<Decision>
    decreases |events|
  {
    if events == [] then []
    else match events[0]
      case Call(now) =>
        var (k', d) := UninterruptedCheck(k, now, max, window);
        [d] + RedisDecisions(k', events[1..], max, window)
      case Idle(now) => RedisDecisions(Expire(k, now), events[1..], max, window)
  }

  function MemoryDecisions(stamps: seq<real>, events: seq<Event>, max: int, window: nat): seq<Decision>
    decreases |events|
  {
    if events == [] then []
    else match events[0]
      case Call(now) =>
        var (stamps', d) := MemoryCheck(stamps, now, max, window);
        [d] + MemoryDecisions(stamps', events[1..], max, window)
      case Idle(_) => MemoryDecisions(stamps, events[1..], max, window)
  }

  ghost predicate Increasing(s: seq<real>) {
    forall i, j :: 0 <= i < j < |s| ==> s[i] < s[j]
  }

  /** The list and the sorted set hold the same live stamps. */
  ghost predicate SameLive(entries: set<real>, stamps: seq<real>, clock: real, window: nat) {
    && Increasing(stamps)
    && (forall t :: t in stamps ==> t <= clock)
    && (forall t :: clock - window as real < t ==> (t in stamps <==> t in entries))
  }

  ghost predicate Mirror(k: Key, stamps: seq<real>, max: int, window: nat) {
    Settled(k, max, window) && SameLive(k.entries, stamps, k.clock, window)
  }

  lemma {:induction false} KeptIncreasing(stamps: seq<real>, after: real)
    requires Increasing(stamps)
    ensures Increasing(Kept(stamps, after))
    decreases |stamps|
  {
    if stamps != [] {
      KeptIncreasing(stamps[1..], after);
      var rest := Kept(stamps[1..], after);
      forall i | 0 <= i < |rest|
        ensures stamps[0] < rest[i]
      {
        assert rest[i] in stamps[1..];
        var j :| 0 <= j < |stamps[1..]| && stamps[1..][j] == rest[i];
        assert stamps[j + 1] == rest[i];
      }
    }
  }

  lemma SameSizeAfterPrune(entries: set<real>, stamps: seq<real>, clock: real, now: real, window: nat)
    requires SameLive(entries, stamps, clock, window) && clock < now
    requires forall t :: t in entries ==> 0.0 <= t <= clock
    ensures |Pruned(entries, now - window as real)| == |Kept(stamps, now - window as real)|
  {
    var pruned, kept := Pruned(entries, now - window as real), Kept(stamps, now - window as real);
    KeptIncreasing(stamps, now - window as real);
    SizeOfMembers(kept);
    assert pruned == Members(kept);
  }

  /** Both branches drop the same stamps, up to any cut. */
  lemma SameLiveAfterCut(entries: set<real>, stamps: seq<real>, clock: real, cut: real, window: nat)
    requires SameLive(entries, stamps, clock, window)
    requires forall t :: t in entries ==> 0.0 <= t <= clock
    ensures SameLive(Pruned(entries, cut), Kept(stamps, cut), clock, window)
  {
    KeptIncreasing(stamps, cut);
    var pruned, kept := Pruned(entries, cut), Kept(stamps, cut);
    forall t | clock - window as real < t
      ensures t in kept <==> t in pruned
    {
      assert t in stamps <==> t in entries;
    }
  }

  lemma SameLiveLater(entries: set<real>, stamps: seq<real>, clock: real, now: real, window: nat)
    requires SameLive(entries, stamps, clock, window) && clock < now
    ensures now !in entries && SameLive(entries, stamps, now, window)
  {
  }

  lemma SameLiveAfterAppend(entries: set<real>, stamps: seq<real>, clock: real, now: real, window: nat)
    requires SameLive(entries, stamps, clock, window) && clock < now
    ensures SameLive(entries + {now}, stamps + [now], now, window)
  {
    forall i | 0 <= i < |stamps|
      ensures stamps[i] < now
    {
      assert stamps[i] in stamps;
    }
  }

  /** List and sorted set are of one size and agree on live stamps, before and after the stamp is added. */
  ghost predicate InStep(entries: set<real>, stamps: seq<real>, now: real, window: nat) {
    && |entries| == |stamps| && now !in entries
    && SameLive(entries, stamps, now, window) && SameLive(entries + {now}, stamps + [now], now, window)
  }

  lemma InStepAfterTick(entries: set<real>, stamps: seq<real>, clock: real, now: real, window: nat)
    requires SameLive(entries, stamps, clock, window) && |entries| == |stamps| && clock < now
    ensures InStep(entries, stamps, now, window)
  {
    SameLiveLater(entries, stamps, clock, now, window);
    SameLiveAfterAppend(entries, stamps, clock, now, window);
  }

  lemma SameLiveAfterPrune(entries: set<real>, stamps: seq<real>, clock: real, now: real, window: nat)
    requires SameLive(entries, stamps, clock, window) && clock < now
    requires forall t :: t in entries ==> 0.0 <= t <= clock
    ensures InStep(Pruned(entries, now - window as real), Kept(stamps, now - window as real), now, window)
  {
    var cut := now - window as real;
    SameSizeAfterPrune(entries, stamps, clock, now, window);
    SameLiveAfterCut(entries, stamps, clock, cut, window);
    InStepAfterTick(Pruned(entries, cut), Kept(stamps, cut), clock, now, window);
  }

  /** Nothing interleaves: every rejection has been cleaned up. */
  ghost predicate Settled(k: Key, max: int, window: nat) {
    Invariant(k, max, window) && k.pending == multiset{}
  }

  lemma UninterruptedKeepsSettled(k: Key, now: real, max: int, window: nat)
    requires Settled(k, max, window) && k.clock < now
    ensures Settled(UninterruptedCheck(k, now, max, window).0, max, window)
  {
    RequestKeepsInvariant(k, now, max, window);
    var (k', d) := Pipeline(k, now, max, window);
    if !d.allowed {
      CleanupKeepsInvariant(k', now, max, window);
    }
  }

  lemma MirrorAfterCheck(k: Key, stamps: seq<real>, now: real, max: int, window: nat)
    requires Mirror(k, stamps, max, window) && k.clock < now
    ensures UninterruptedCheck(k, now, max, window).1 == MemoryCheck(stamps, now, max, window).1
    ensures Mirror(UninterruptedCheck(k, now, max, window).0, MemoryCheck(stamps, now, max, window).0, max, window)
  {
    SameLiveAfterPrune(k.entries, stamps, k.clock, now, window);
    UninterruptedKeepsSettled(k, now, max, window);
    var pruned := Pruned(k.entries, now - window as real);
    assert |pruned + {now}| == |pruned| + 1;
    assert pruned + {now} - {now} == pruned;
  }

  lemma {:induction false} BranchesAgreeFrom(k: Key, stamps: seq<real>, events: seq<Event>, max: int, window: nat)
    requires Mirror(k, stamps, max, window) && Ordered(k, events, max, window)
    ensures RedisDecisions(k, events, max, window) == MemoryDecisions(stamps, events, max, window)
    decreases |events|
  {
    if events != [] {
      match events[0] {
        case Call(now) =>
          MirrorAfterCheck(k, stamps, now, max, window);
          var k', stamps' := UninterruptedCheck(k, now, max, window).0, MemoryCheck(stamps, now, max, window).0;
          BranchesAgreeFrom(k', stamps', events[1..], max, window);
        case Idle(now) =>
          ExpiryDropsNothingLive(k, now, max, window);
          BranchesAgreeFrom(Expire(k, now), stamps, events[1..], max, window);
      }
    }
  }

  /** Run one after another with strictly increasing stamps, the Redis and the in-memory branch
      return the same (allowed, remaining) every time, for every limit and window. */
  lemma BranchesAgree(events: seq<Event>, max: int, window: nat)
    requires Ordered(EMPTY_KEY, events, max, window)
    ensures RedisDecisions(EMPTY_KEY, events, max, window) == MemoryDecisions([], events, max, window)
  {
    BranchesAgreeFrom(EMPTY_KEY, [], events, max, window);
  }

  function Calls(stamps: seq<real>): seq<Event> {
    if stamps == [] then [] else [Call(stamps[0])] + Calls(stamps[1..])
  }

  lemma {:induction false} DistinctCallsAreOrdered(k: Key, stamps: seq<real>, max: int, window: nat)
    requires ClockOrdered(stamps) && Distinct(stamps) && (stamps != [] ==> k.clock < stamps[0])
    ensures Ordered(k, Calls(stamps), max, window)
    decreases |stamps|
  {
    if stamps != [] {
      var rest, events := stamps[1..], Calls(stamps);
      assert forall i :: 0 <= i < |rest| ==> rest[i] == stamps[i + 1];
      assert rest != [] ==> stamps[0] < stamps[1];
      DistinctCallsAreOrdered(UninterruptedCheck(k, stamps[0], max, window).0, rest, max, window);
      assert events[0] == Call(stamps[0]) && events[1..] == Calls(rest);
    }
  }

  lemma {:induction false} LastRedisDecision(k: Key, stamps: seq<real>, max: int, window: nat) returns (ds: seq<Decision>)
    requires Untouched(k) && stamps != [] && FitsOneWindow(k, stamps, max, window)
    ensures ds == RedisDecisions(k, Calls(stamps), max, window) && ds != []
    ensures ds[|ds| - 1] == Decision(true, max - |Members(k.granted + stamps)|)
    decreases |stamps|
  {
    var now, rest, events := stamps[0], stamps[1..], Calls(stamps);
    assert events[0] == Call(now) && events[1..] == Calls(rest);
    NextIsAllowed(k, stamps, max, window);
    var (k', d) := Pipeline(k, now, max, window);
    assert UninterruptedCheck(k, now, max, window) == (k', d);
    assert k.granted + stamps == k'.granted + rest;
    if rest == [] {
      assert k'.granted + rest == k'.granted;
      ds := [d];
    } else {
      var more := LastRedisDecision(k', rest, max, window);
      ds := [d] + more;
    }
  }

  lemma {:induction false} KeepsAll(stamps: seq<real>, after: real)
    requires forall i :: 0 <= i < |stamps| ==> after < stamps[i]
    ensures Kept(stamps, after) == stamps
    decreases |stamps|
  {
    if stamps != [] {
      KeepsAll(stamps[1..], after);
    }
  }

  lemma {:induction false} LastMemoryDecision(kept: seq<real>, stamps: seq<real>, max: int, window: nat)
    returns (ds: seq<Decision>)
    requires stamps != [] && |kept| + |stamps| <= max
    requires forall i :: 0 <= i < |kept| ==> 0.0 < kept[i]
    requires forall i :: 0 <= i < |stamps| ==> 0.0 < stamps[i] < window as real
    ensures ds == MemoryDecisions(kept, Calls(stamps), max, window) && ds != []
    ensures ds[|ds| - 1] == Decision(true, max - |kept| - |stamps|)
    decreases |stamps|
  {
    var now, rest, events := stamps[0], stamps[1..], Calls(stamps);
    assert events[0] == Call(now) && events[1..] == Calls(rest);
    KeepsAll(kept, now - window as real);
    var (kept', d) := MemoryCheck(kept, now, max, window);
    if rest == [] {
      ds := [d];
    } else {
      var more := LastMemoryDecision(kept', rest, max, window);
      ds := [d] + more;
    }
  }

  lemma RedisCountsMembers(stamps: seq<real>, max: int, window: nat) returns (ds: seq<Decision>)
    requires ClockOrdered(stamps) && stamps != []
    requires |Members(stamps)| <= max && stamps[|stamps| - 1] < window as real
    ensures ds == RedisDecisions(EMPTY_KEY, Calls(stamps), max, window) && ds != []
    ensures ds[|ds| - 1].remaining == max - |Members(stamps)|
  {
    AllFitFromStart(stamps, max, window);
    ds := LastRedisDecision(EMPTY_KEY, stamps, max, window);
  }

  lemma MemoryCountsAll(stamps: seq<real>, max: int, window: nat) returns (ds: seq<Decision>)
    requires ClockOrdered(stamps) && stamps != []
    requires |stamps| <= max && stamps[|stamps| - 1] < window as real
    ensures ds == MemoryDecisions([], Calls(stamps), max, window) && ds != []
    ensures ds[|ds| - 1].remaining == max - |stamps|
  {
    AllBefore(stamps, window);
    ds := LastMemoryDecision([], stamps, max, window);
  }

  lemma RepeatsSplitBranches(stamps: seq<real>) returns (max: int, window: nat)
    requires ClockOrdered(stamps) && !Distinct(stamps)
    ensures RedisDecisions(EMPTY_KEY, Calls(stamps), max, window) != MemoryDecisions([], Calls(stamps), max, window)
  {
    max := |stamps|;
    window := WindowBeyond(stamps[|stamps| - 1]);
    SizeOfMembers(stamps);
    var redis := RedisCountsMembers(stamps, max, window);
    var memory := MemoryCountsAll(stamps, max, window);
    assert redis[|redis| - 1].remaining != memory[|memory| - 1].remaining;
  }

  /** Called one after another with stamps in clock order, the Redis and the in-memory branch answer alike
      for every limit and window if and only if no two stamps are equal. */
  lemma BranchesAgreeIffStampsDistinct(stamps: seq<real>)
    requires ClockOrdered(stamps)
    ensures
      (forall max: int, window: nat ::
         RedisDecisions(EMPTY_KEY, Calls(stamps), max, window) == MemoryDecisions([], Calls(stamps), max, window))
      <==> Distinct(stamps)
  {
    if Distinct(stamps) {
      forall max: int, window: nat
        ensures RedisDecisions(EMPTY_KEY, Calls(stamps), max, window) == MemoryDecisions([], Calls(stamps), max, window)
      {
        DistinctCallsAreOrdered(EMPTY_KEY, stamps, max, window);
        BranchesAgree(Calls(stamps), max, window);
      }
    } else {
      var max, window := RepeatsSplitBranches(stamps);
    }
  }

  // ---------------------------------------------------------------------------------------------
  // Denials
  // ---------------------------------------------------------------------------------------------

  /** The same requests were allowed; `k` may have last been touched earlier than `k'`. */
  ghost predicate SameAllowed(k: Key, k': Key, max: int, window: nat) {
    && Settled(k, max, window) && Settled(k', max, window)
    && k.granted == k'.granted && k.clock <= k'.clock && k.expiry <= k'.expiry
  }

  lemma SettledDecision(k: Key, now: real, max: int, window: nat)
    requires Settled(k, max, window) && k.clock < now
    ensures
      var used := |InWindow(k.granted, now, window)|;
      UninterruptedCheck(k, now, max, window).1
        == if used < max then Decision(true, max - used - 1) else Decision(false, 0)
  {
    DecisionIsExact(k, now, max, window);
    assert PendingIn(k.pending, now, window) == {};
  }

  lemma SameAllowedSameCheck(k: Key, k': Key, now: real, max: int, window: nat)
    requires SameAllowed(k, k', max, window) && k'.clock < now
    ensures UninterruptedCheck(k, now, max, window).1 == UninterruptedCheck(k', now, max, window).1
    ensures
      var next, next' := UninterruptedCheck(k, now, max, window).0, UninterruptedCheck(k', now, max, window).0;
      SameAllowed(next, next', max, window)
  {
    SettledDecision(k, now, max, window);
    SettledDecision(k', now, max, window);
    UninterruptedKeepsSettled(k, now, max, window);
    UninterruptedKeepsSettled(k', now, max, window);
  }

  lemma SameAllowedAfterExpiry(k: Key, k': Key, now: real, max: int, window: nat)
    requires SameAllowed(k, k', max, window) && Enabled(k', KeyExpires(now))
    ensures SameAllowed(Expire(k, now), Expire(k', now), max, window)
  {
    ExpiryDropsNothingLive(k, now, max, window);
    ExpiryDropsNothingLive(k', now, max, window);
  }

  /** Two settled keys that allowed the same requests decide every possible future alike. */
  lemma {:induction false} SameAllowedSameFuture(k: Key, k': Key, events: seq<Event>, max: int, window: nat)
    requires SameAllowed(k, k', max, window) && Ordered(k', events, max, window)
    ensures RedisDecisions(k', events, max, window) == RedisDecisions(k, events, max, window)
    decreases |events|
  {
    if events != [] {
      match events[0] {
        case Call(now) =>
          SameAllowedSameCheck(k, k', now, max, window);
          var next, next' := UninterruptedCheck(k, now, max, window).0, UninterruptedCheck(k', now, max, window).0;
          SameAllowedSameFuture(next, next', events[1..], max, window);
        case Idle(now) =>
          SameAllowedAfterExpiry(k, k', now, max, window);
          SameAllowedSameFuture(Expire(k, now), Expire(k', now), events[1..], max, window);
      }
    }
  }

  lemma DenialAllowsNothing(k: Key, now: real, max: int, window: nat)
    requires Settled(k, max, window) && k.clock < now
    ensures
      var (k', d) := UninterruptedCheck(k, now, max, window);
      !d.allowed ==> SameAllowed(k, k', max, window)
  {
    UninterruptedKeepsSettled(k, now, max, window);
    var (k', d) := Pipeline(k, now, max, window);
    if !d.allowed {
      assert k'.granted == k.granted && k'.clock == now && k'.expiry == now + window as real + 1.0;
      assert UninterruptedCheck(k, now, max, window).0 == Zrem(k', now);
    }
  }

  /** Without interleaving a denial means the window already holds exactly `max` allowed requests, and it leaves
      no trace: every later run of calls is decided as if the denied one had never been made. */
  lemma DenialsAreExactAndFree(k: Key, now: real, max: nat, window: nat)
    requires Settled(k, max, window) && k.clock < now
    ensures
      var (k', d) := UninterruptedCheck(k, now, max, window);
      && AllowedIn(k.granted, now, window) <= max
      && (d.allowed <==> AllowedIn(k.granted, now, window) < max)
      && (!d.allowed ==> forall events :: Ordered(k', events, max, window) ==>
            RedisDecisions(k', events, max, window) == RedisDecisions(k, events, max, window))
  {
    SettledDecision(k, now, max, window);
    CountIsSize(k.granted, now, window);
    LimitHoldsNow(k, now, max, window);
    var (k', d) := UninterruptedCheck(k, now, max, window);
    if !d.allowed {
      DenialAllowsNothing(k, now, max, window);
      forall events | Ordered(k', events, max, window)
        ensures RedisDecisions(k', events, max, window) == RedisDecisions(k, events, max, window)
      {
        SameAllowedSameFuture(k, k', events, max, window);
      }
    }
  }

  // ---------------------------------------------------------------------------------------------
  // The stateful forms
  // ---------------------------------------------------------------------------------------------

  /** One rate-limit key on the Redis server, with the history the specification speaks of. */
  class RedisKey {
    var entries: set<real>
    var expiry: real
    ghost var pending: multiset<real>
    ghost var granted: seq<real>
    ghost var clock: real

    ghost function State(): Key
      reads this
    {
      Key(entries, expiry, pending, granted, clock)
    }

    constructor ()
      ensures State() == EMPTY_KEY
    {
      entries, expiry, pending, granted, clock := {}, 0.0, multiset{}, [], 0.0;
    }

    /** The atomic pipeline and the decision taken from its third result. */
    method RunPipeline(now: real, max: int, window: nat) returns (d: Decision)
      modifies this
      ensures (State(), d) == Pipeline(old(State()), now, max, window)
    {
      entries := Pruned(entries, now - window as real);
      entries := entries + {now};
      var count := |entries|;
      expiry := now + window as real + 1.0;
      clock := now;
      if count > max {
        pending := pending + multiset{now};
        return Decision(false, 0);
      }
      granted := granted + [now];
      return Decision(true, max - count);
    }

    /** The separate ZREM a rejected request sends later. */
    method RemoveRejected(stamp: real)
      requires stamp in pending
      modifies this
      ensures State() == Zrem(old(State()), stamp)
    {
      entries := entries - {stamp};
      pending := pending - multiset{stamp};
    }
  }

  /** The module-level dictionary of the fallback branch. */
  class MemoryStore {
    var store: map<string, seq<real>>

    constructor ()
      ensures store == map[]
    {
      store := map[];
    }

    function Stamps(key: string): seq<real>
      reads this
    {
      if key in store then store[key] else []
    }

    method Check(key: string, now: real, max: int, window: nat) returns (d: Decision)
      modifies this
      ensures (Stamps(key), d) == MemoryCheck(old(Stamps(key)), now, max, window)
      ensures forall other :: other != key ==> Stamps(other) == old(Stamps(other))
    {
      store := store[key := Kept(Stamps(key), now - window as real)];
      if |store[key]| >= max {
        return Decision(false, 0);
      }
      store := store[key := store[key] + [now]];
      return Decision(true, max - |store[key]|);
    }
  }
}
