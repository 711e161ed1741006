/**
 Sessions, push tokens and device revocation:
 backend/app/services/session_service.py, push_service.py and device_service.py.

 A session row is keyed by its refresh token: the token hash is unique in the table and
 hashing is taken as injective. New tokens are parameters and must be fresh.
*/
module Sessions {

  import opened Options

  datatype RevokeReason = NewDeviceLogin | Rotated | DeviceGone | Logout | LogoutAll

  datatype Session = Session(
    user: nat, device: nat, createdAt: int, refreshExpiresAt: int,
    revokedAt: Option<int>, reason: Option<RevokeReason>)

  datatype Device = Device(owner: nat, revokedAt: Option<int>)

  datatype UserStatus = Active | Locked | Deleted

  datatype Provider = Fcm | Apns

  datatype PushToken = PushToken(device: nat, provider: Provider, token: nat, revokedAt: Option<int>)

  datatype Tables = Tables(
    sessions: map<nat, Session>, devices: map<nat, Device>, users: map<nat, UserStatus>, push: seq<PushToken>)

  datatype RefreshResult =
    | Refreshed(token: nat)
    | InvalidToken
    | SessionRevoked
    | TokenExpired
    | SessionExpired
    | DeviceRevoked
    | AccountDisabled

  const SECONDS_PER_DAY := 86400

  datatype Settings = Settings(refreshDays: nat, absoluteDays: nat)

  predicate Live(s: Session) {
    s.revokedAt == None
  }

  function Revoke(s: Session, now: int, reason: RevokeReason): Session {
    s.(revokedAt := Some(now), reason := Some(reason))
  }

  /** UPDATE sessions SET revoked ... WHERE owner_user_id = user AND revoked_at IS NULL */
  function RevokeUser(sessions: map<nat, Session>, user: nat, now: int, reason: RevokeReason): map<nat, Session> {
    map t | t in sessions ::
      if sessions[t].user == user && Live(sessions[t]) then Revoke(sessions[t], now, reason) else sessions[t]
  }

  function RevokeDeviceSessions(sessions: map<nat, Session>, device: nat, now: int): map<nat, Session> {
    map t | t in sessions ::
      if sessions[t].device == device && Live(sessions[t]) then Revoke(sessions[t], now, DeviceGone) else sessions[t]
  }

  function CreateSession(t: Tables, cfg: Settings, now: int, user: nat, device: nat, token: nat): Tables {
    var fresh_ := Session(user, device, now, now + cfg.refreshDays * SECONDS_PER_DAY, None, None);
    t.(sessions := RevokeUser(t.sessions, user, now, NewDeviceLogin)[token := fresh_])
  }

  function RefreshSession(t: Tables, cfg: Settings, now: int, token: nat, newToken: nat): (Tables, RefreshResult) {
    if token !in t.sessions then (t, InvalidToken)
    else
      var s := t.sessions[token];
      if !Live(s) then (t, SessionRevoked)
      else if s.refreshExpiresAt < now then (t, TokenExpired)
      else if (now - s.createdAt) / SECONDS_PER_DAY > cfg.absoluteDays then (t, SessionExpired)
      else if s.device !in t.devices || t.devices[s.device].revokedAt.Some? then
        (t.(sessions := t.sessions[token := Revoke(s, now, DeviceGone)]), DeviceRevoked)
      else if s.user !in t.users || t.users[s.user] != Active then (t, AccountDisabled)
      else
        var rotated := t.sessions[token := Revoke(s, now, Rotated)];
        var next := Session(s.user, s.device, now, now + cfg.refreshDays * SECONDS_PER_DAY, None, None);
        (t.(sessions := rotated[newToken := next]), Refreshed(newToken))
  }

  function RevokeSession(t: Tables, now: int, token: nat): Tables {
    if token in t.sessions then t.(sessions := t.sessions[token := Revoke(t.sessions[token], now, Logout)]) else t
  }

  function RevokeAll(t: Tables, now: int, user: nat): Tables {
    t.(sessions := RevokeUser(t.sessions, user, now, LogoutAll))
  }

  function RevokePush(push: seq<PushToken>, device: nat, provider: Option<Provider>, now: int): (r: seq<PushToken>)
    ensures |r| == |push|
  {
    seq(|push|, i requires 0 <= i < |push| =>
      if push[i].device == device && (provider == None || provider == Some(push[i].provider)) && push[i].revokedAt == None
      then push[i].(revokedAt := Some(now)) else push[i])
  }

  function RevokePushToken(push: seq<PushToken>, provider: Provider, token: nat, now: int): (r: seq<PushToken>)
    ensures |r| == |push|
  {
    seq(|push|, i requires 0 <= i < |push| =>
      if push[i].provider == provider && push[i].token == token && push[i].revokedAt == None
      then push[i].(revokedAt := Some(now)) else push[i])
  }

  function RegisterPush(t: Tables, now: int, device: nat, provider: Provider, token: nat): Tables {
    var mine := RevokePush(t.push, device, Some(provider), now);
    var others := RevokePushToken(mine, provider, token, now);
    t.(push := others + [PushToken(device, provider, token, None)])
  }

  function RevokeDevice(t: Tables, now: int, device: nat): Tables {
    if device !in t.devices then t
    else
      Tables(RevokeDeviceSessions(t.sessions, device, now),
             t.devices[device := t.devices[device].(revokedAt := Some(now))],
             t.users,
             RevokePush(t.push, device, None, now))
  }

  datatype Step =
    | Login(user: nat, device: nat, token: nat)
    | Refresh(token: nat, newToken: nat)
    | LogoutOne(token: nat)
    | LogoutEverywhere(user: nat)
    | RegisterToken(device: nat, provider: Provider, token: nat)
    | DropDevice(device: nat)
    | AccountChanges(user: nat, status: UserStatus) // the rest of the system
    | DeviceAdded(device: nat, owner: nat)

  function Perform(t: Tables, cfg: Settings, now: int, step: Step): (Tables, Option<RefreshResult>) {
    match step
    case Login(user, device, token) => (CreateSession(t, cfg, now, user, device, token), None)
    case Refresh(token, newToken) =>
      var (t', r) := RefreshSession(t, cfg, now, token, newToken);
      (t', Some(r))
    case LogoutOne(token) => (RevokeSession(t, now, token), None)
    case LogoutEverywhere(user) => (RevokeAll(t, now, user), None)
    case RegisterToken(device, provider, token) => (RegisterPush(t, now, device, provider, token), None)
    case DropDevice(device) => (RevokeDevice(t, now, device), None)
    case AccountChanges(user, status) => (t.(users := t.users[user := status]), None)
    case DeviceAdded(device, owner) =>
      (if device in t.devices then t else t.(devices := t.devices[device := Device(owner, None)]), None)
  }

  /** `generate_token` never repeats itself. */
  predicate FreshTokens(t: Tables, step: Step) {
    match step
    case Login(_, _, token) => token !in t.sessions
    case Refresh(_, newToken) => newToken !in t.sessions
    case _ => true
  }

  // ---------------------------------------------------------------------------------------------
  // Uniqueness invariants
  // ---------------------------------------------------------------------------------------------

  ghost predicate OneLiveSession(t: Tables) {
    forall a, b ::
      && a in t.sessions && Live(t.sessions[a])
      && b in t.sessions && Live(t.sessions[b]) && t.sessions[a].user == t.sessions[b].user
      ==> a == b
  }

  /** Active push tokens pair each (device, provider) with at most one (provider, token) and back. */
  ghost predicate PushBijection(push: seq<PushToken>) {
    forall i, j ::
      (0 <= i < j < |push| && push[i].revokedAt == None && push[j].revokedAt == None && push[i].provider == push[j].provider)
      ==> push[i].device != push[j].device && push[i].token != push[j].token
  }

  ghost predicate Unique(t: Tables) {
    OneLiveSession(t) && PushBijection(t.push)
  }

  lemma SessionStepsKeepOneLive(t: Tables, cfg: Settings, now: int, step: Step)
    requires OneLiveSession(t) && FreshTokens(t, step)
    ensures OneLiveSession(Perform(t, cfg, now, step).0)
  {
  }

  lemma RegisterKeepsBijection(push: seq<PushToken>, now: int, device: nat, provider: Provider, token: nat)
    requires PushBijection(push)
    ensures
      var others := RevokePushToken(RevokePush(push, device, Some(provider), now), provider, token, now);
      PushBijection(others + [PushToken(device, provider, token, None)])
  {
    var others := RevokePushToken(RevokePush(push, device, Some(provider), now), provider, token, now);
    forall i | 0 <= i < |others| && others[i].revokedAt == None
      ensures others[i] == push[i]
      ensures others[i].provider == provider ==> others[i].device != device && others[i].token != token
    {
    }
  }

  lemma StepKeepsUnique(t: Tables, cfg: Settings, now: int, step: Step)
    requires Unique(t) && FreshTokens(t, step)
    ensures Unique(Perform(t, cfg, now, step).0)
  {
    SessionStepsKeepOneLive(t, cfg, now, step);
    match step
    case RegisterToken(device, provider, token) => RegisterKeepsBijection(t.push, now, device, provider, token);
    case DropDevice(device) =>
    case _ =>
  }

  datatype Timed = Timed(at: int, step: Step)

  function After(t: Tables, cfg: Settings, run: seq<Timed>): Tables
    decreases |run|
  {
    if run == [] then t else After(Perform(t, cfg, run[0].at, run[0].step).0, cfg, run[1..])
  }

  ghost predicate AlwaysFresh(t: Tables, cfg: Settings, run: seq<Timed>)
    decreases |run|
  {
    run == [] || (FreshTokens(t, run[0].step) && AlwaysFresh(Perform(t, cfg, run[0].at, run[0].step).0, cfg, run[1..]))
  }

  /** Over all runs each user has at most one unrevoked session and active push tokens form a partial bijection. */
  lemma {:induction false} UniqueOverRuns(t: Tables, cfg: Settings, run: seq<Timed>)
    requires Unique(t) && AlwaysFresh(t, cfg, run)
    ensures Unique(After(t, cfg, run))
    decreases |run|
  {
    if run != [] {
      StepKeepsUnique(t, cfg, run[0].at, run[0].step);
      UniqueOverRuns(Perform(t, cfg, run[0].at, run[0].step).0, cfg, run[1..]);
    }
  }

  /** Login leaves exactly the new session live for the user and no other user's session changed. */
  lemma LoginLeavesOnlyNewSession(t: Tables, cfg: Settings, now: int, user: nat, device: nat, token: nat)
    requires token !in t.sessions
    ensures
      var t' := CreateSession(t, cfg, now, user, device, token);
      && t'.sessions.Keys == t.sessions.Keys + {token}
      && (forall k :: k in t'.sessions && t'.sessions[k].user == user ==> (Live(t'.sessions[k]) <==> k == token))
      && (forall k :: k in t.sessions && t.sessions[k].user != user ==> t'.sessions[k] == t.sessions[k])
      && t'.sessions[token].device == device
  {
  }

  /** Device revocation leaves the device without live session or active token and touches nothing else. */
  lemma RevokedDeviceHasNothingLive(t: Tables, now: int, device: nat)
    requires device in t.devices
    ensures
      var t' := RevokeDevice(t, now, device);
      && t'.devices == t.devices[device := Device(t.devices[device].owner, Some(now))] && t'.users == t.users
      && t'.sessions.Keys == t.sessions.Keys && |t'.push| == |t.push|
      && (forall k :: k in t'.sessions && t'.sessions[k].device == device ==> !Live(t'.sessions[k]))
      && (forall i :: 0 <= i < |t'.push| && t'.push[i].device == device ==> t'.push[i].revokedAt != None)
      && (forall k :: k in t.sessions && (t.sessions[k].device != device || !Live(t.sessions[k])) ==>
            t'.sessions[k] == t.sessions[k])
      && (forall i :: 0 <= i < |t.push| && (t.push[i].device != device || t.push[i].revokedAt != None) ==>
            t'.push[i] == t.push[i])
  {
  }

  // ---------------------------------------------------------------------------------------------
  // Rotation is one-shot
  // ---------------------------------------------------------------------------------------------

  /** A revoked session stays revoked. */
  lemma RevokedForever(t: Tables, cfg: Settings, now: int, step: Step, token: nat)
    requires token in t.sessions && !Live(t.sessions[token]) && FreshTokens(t, step)
    ensures
      var t' := Perform(t, cfg, now, step).0;
      token in t'.sessions && !Live(t'.sessions[token])
  {
  }

  predicate Redeems(t: Tables, cfg: Settings, run: seq<Timed>, i: nat, token: nat)
    decreases |run|
  {
    i < |run| &&
    if i == 0 then
      && run[0].step.Refresh? && run[0].step.token == token
      && RefreshSession(t, cfg, run[0].at, token, run[0].step.newToken).1.Refreshed?
    else Redeems(Perform(t, cfg, run[0].at, run[0].step).0, cfg, run[1..], i - 1, token)
  }

  lemma {:induction false} RevokedNeverRedeemed(t: Tables, cfg: Settings, run: seq<Timed>, i: nat, token: nat)
    requires token in t.sessions && !Live(t.sessions[token]) && AlwaysFresh(t, cfg, run)
    ensures !Redeems(t, cfg, run, i, token)
    decreases |run|
  {
    if 0 < i < |run| {
      RevokedForever(t, cfg, run[0].at, run[0].step, token);
      RevokedNeverRedeemed(Perform(t, cfg, run[0].at, run[0].step).0, cfg, run[1..], i - 1, token);
    }
  }

  lemma RedemptionRevokes(t: Tables, cfg: Settings, now: int, token: nat, newToken: nat)
    requires newToken !in t.sessions
    requires RefreshSession(t, cfg, now, token, newToken).1.Refreshed?
    ensures
      var t' := Perform(t, cfg, now, Refresh(token, newToken)).0;
      token in t'.sessions && !Live(t'.sessions[token])
  {
  }

  lemma FirstRedemptionIsLast(t: Tables, cfg: Settings, run: seq<Timed>, j: nat, token: nat)
    requires AlwaysFresh(t, cfg, run) && 0 < j
    requires Redeems(t, cfg, run, 0, token)
    ensures !Redeems(t, cfg, run, j, token)
  {
    var now, newToken := run[0].at, run[0].step.newToken;
    assert run[0].step == Refresh(token, newToken);
    RedemptionRevokes(t, cfg, now, token, newToken);
    RevokedNeverRedeemed(Perform(t, cfg, now, run[0].step).0, cfg, run[1..], j - 1, token);
  }

  /** No refresh token is redeemed twice, in any run of logins, refreshes and revocations. */
  lemma {:induction false} RedeemedAtMostOnce(t: Tables, cfg: Settings, run: seq<Timed>, i: nat, j: nat, token: nat)
    requires AlwaysFresh(t, cfg, run)
    requires i < j && Redeems(t, cfg, run, i, token)
    ensures !Redeems(t, cfg, run, j, token)
    decreases |run|
  {
    if i == 0 {
      FirstRedemptionIsLast(t, cfg, run, j, token);
    } else {
      RedeemedAtMostOnce(Perform(t, cfg, run[0].at, run[0].step).0, cfg, run[1..], i - 1, j - 1, token);
    }
  }

  /** A refresh succeeds only for a live, unexpired session of a live device and an active account; it
      then hands that user and device over to the new token. */
  lemma RefreshHandsOver(t: Tables, cfg: Settings, now: int, token: nat, newToken: nat)
    requires newToken !in t.sessions && OneLiveSession(t)
    requires RefreshSession(t, cfg, now, token, newToken).1.Refreshed?
    ensures
      var t' := RefreshSession(t, cfg, now, token, newToken).0;
      && token in t.sessions && Live(t.sessions[token]) && now <= t.sessions[token].refreshExpiresAt
      && now - t.sessions[token].createdAt < (cfg.absoluteDays + 1) * SECONDS_PER_DAY
      && newToken in t'.sessions
      && t'.sessions[newToken].user == t.sessions[token].user
      && t'.sessions[newToken].device == t.sessions[token].device
      && (forall k :: k in t'.sessions && t'.sessions[k].user == t.sessions[token].user ==>
            (Live(t'.sessions[k]) <==> k == newToken))
      && (forall k :: k in t.sessions && k != token ==> t'.sessions[k] == t.sessions[k])
  {
  }

  // ---------------------------------------------------------------------------------------------
  // When a refresh succeeds
  // ---------------------------------------------------------------------------------------------

  predicate DeviceLive(t: Tables, device: nat) {
    device in t.devices && t.devices[device].revokedAt == None
  }

  predicate AccountActive(t: Tables, user: nat) {
    user in t.users && t.users[user] == Active
  }

  /** The deadline of a session created at `since`: the refresh token's, and the absolute age counted in whole days. */
  predicate OnTime(cfg: Settings, since: int, now: int) {
    now <= since + cfg.refreshDays * SECONDS_PER_DAY && now - since < (cfg.absoluteDays + 1) * SECONDS_PER_DAY
  }

  /** A refresh succeeds if and only if the token's session is live, unexpired and within the absolute age, its device is
      present and not revoked, and the account is active. */
  lemma RefreshSucceedsIff(t: Tables, cfg: Settings, now: int, token: nat, newToken: nat)
    ensures RefreshSession(t, cfg, now, token, newToken).1 == Refreshed(newToken)
      <==>
        && token in t.sessions && Live(t.sessions[token])
        && now <= t.sessions[token].refreshExpiresAt
        && now - t.sessions[token].createdAt < (cfg.absoluteDays + 1) * SECONDS_PER_DAY
        && DeviceLive(t, t.sessions[token].device)
        && AccountActive(t, t.sessions[token].user)
  {
  }

  /** What a refused refresh leaves: a missing or revoked device ends the session, so that the next attempt finds it
      revoked; an inactive account leaves it as it is, so that the same attempt succeeds once the account is active;
      no refusal changes anything else. */
  lemma RefusalsDiffer(t: Tables, cfg: Settings, now: int, token: nat, newToken: nat)
    requires newToken !in t.sessions
    ensures
      var (t', r) := RefreshSession(t, cfg, now, token, newToken);
      && (r == DeviceRevoked <==>
            && token in t.sessions && t' != t
            && !r.Refreshed? && RefreshSession(t', cfg, now, token, newToken) == (t', SessionRevoked))
      && (r == DeviceRevoked ==>
            && !DeviceLive(t, t.sessions[token].device)
            && t' == t.(sessions := t'.sessions) && t'.sessions[token].revokedAt == Some(now)
            && t'.sessions == t.sessions[token := t'.sessions[token]])
      && (r == AccountDisabled <==>
            && token in t.sessions && t' == t && !r.Refreshed?
            && var active := Perform(t, cfg, now, AccountChanges(t.sessions[token].user, Active)).0;
               RefreshSession(active, cfg, now, token, newToken).1 == Refreshed(newToken))
      && (r == InvalidToken <==> token !in t.sessions)
      && (r == SessionRevoked <==> token in t.sessions && !Live(t.sessions[token]))
      && (r == TokenExpired <==>
            token in t.sessions && Live(t.sessions[token]) && t.sessions[token].refreshExpiresAt < now)
  {
    var (t', r) := RefreshSession(t, cfg, now, token, newToken);
    if r == DeviceRevoked {
      assert Live(t.sessions[token]) && !Live(t'.sessions[token]);
    } else if token in t.sessions && t' != t {
      assert r.Refreshed?;
    }
  }

  /** Why a step ends a session. */
  function ReasonOf(step: Step, r: Option<RefreshResult>): Option<RevokeReason> {
    match step
    case Login(_, _, _) => Some(NewDeviceLogin)
    case Refresh(_, _) => if r == Some(DeviceRevoked) then Some(DeviceGone) else Some(Rotated)
    case LogoutOne(_) => Some(Logout)
    case LogoutEverywhere(_) => Some(LogoutAll)
    case DropDevice(_) => Some(DeviceGone)
    case _ => None
  }

  /** Every session a step ends records the time and the reason, and keeps its user, device and dates. */
  lemma EndedSessionsSayWhy(t: Tables, cfg: Settings, now: int, step: Step, token: nat)
    requires token in t.sessions && FreshTokens(t, step)
    ensures
      var (t', r) := Perform(t, cfg, now, step);
      && token in t'.sessions
      && t'.sessions[token].(revokedAt := None, reason := None) == t.sessions[token].(revokedAt := None, reason := None)
      && (Live(t.sessions[token]) && !Live(t'.sessions[token]) ==>
            t'.sessions[token].revokedAt == Some(now) && t'.sessions[token].reason == ReasonOf(step, r))
      && (Live(t'.sessions[token]) ==> t'.sessions[token] == t.sessions[token])
  {
  }

  /** The step may end a live session with this token, user and device. */
  predicate MayRevoke(step: Step, token: nat, user: nat, device: nat) {
    match step
    case Login(u, _, _) => u == user
    case Refresh(k, _) => k == token
    case LogoutOne(k) => k == token
    case LogoutEverywhere(u) => u == user
    case DropDevice(d) => d == device
    case _ => false
  }

  /** No other step touches the session. */
  lemma SessionKept(t: Tables, cfg: Settings, now: int, step: Step, token: nat)
    requires token in t.sessions && FreshTokens(t, step)
    requires !MayRevoke(step, token, t.sessions[token].user, t.sessions[token].device)
    ensures token in Perform(t, cfg, now, step).0.sessions
    ensures Perform(t, cfg, now, step).0.sessions[token] == t.sessions[token]
  {
  }

  /** The session as a login or a refresh at `since` leaves it, usable. */
  ghost predicate Usable(t: Tables, cfg: Settings, user: nat, device: nat, token: nat, since: int) {
    && token in t.sessions
    && t.sessions[token] == Session(user, device, since, since + cfg.refreshDays * SECONDS_PER_DAY, None, None)
    && DeviceLive(t, device) && AccountActive(t, user)
  }

  /** Nobody logs in as the user, logs out, drops the device or changes the account, and each refresh
      of the chain that starts with `token` comes before its deadline. */
  ghost predicate ChainKept(cfg: Settings, run: seq<Timed>, user: nat, device: nat, token: nat, since: int)
    decreases |run|
  {
    run == [] ||
    match run[0].step
    case Refresh(k, newToken) =>
      if k == token then OnTime(cfg, since, run[0].at) && ChainKept(cfg, run[1..], user, device, newToken, run[0].at)
      else ChainKept(cfg, run[1..], user, device, token, since)
    case AccountChanges(u, _) => u != user && ChainKept(cfg, run[1..], user, device, token, since)
    case step => !MayRevoke(step, token, user, device) && ChainKept(cfg, run[1..], user, device, token, since)
  }

  /** Every refresh of the chain is answered with its new token. */
  ghost predicate ChainAnswered(t: Tables, cfg: Settings, run: seq<Timed>, token: nat)
    decreases |run|
  {
    run == [] ||
    var t' := Perform(t, cfg, run[0].at, run[0].step).0;
    if run[0].step.Refresh? && run[0].step.token == token then
      && RefreshSession(t, cfg, run[0].at, token, run[0].step.newToken).1 == Refreshed(run[0].step.newToken)
      && ChainAnswered(t', cfg, run[1..], run[0].step.newToken)
    else ChainAnswered(t', cfg, run[1..], token)
  }

  lemma UsableKept(t: Tables, cfg: Settings, now: int, step: Step, user: nat, device: nat, token: nat, since: int)
    requires Usable(t, cfg, user, device, token, since) && FreshTokens(t, step)
    requires !MayRevoke(step, token, user, device) && !(step.AccountChanges? && step.user == user)
    ensures Usable(Perform(t, cfg, now, step).0, cfg, user, device, token, since)
  {
    SessionKept(t, cfg, now, step, token);
  }

  lemma UsableRotates(t: Tables, cfg: Settings, now: int, user: nat, device: nat, token: nat, since: int, newToken: nat)
    requires Usable(t, cfg, user, device, token, since) && newToken !in t.sessions && OnTime(cfg, since, now)
    ensures RefreshSession(t, cfg, now, token, newToken).1 == Refreshed(newToken)
    ensures Usable(RefreshSession(t, cfg, now, token, newToken).0, cfg, user, device, newToken, now)
  {
    RefreshSucceedsIff(t, cfg, now, token, newToken);
  }

  lemma {:induction false} ChainFrom(
    t: Tables, cfg: Settings, run: seq<Timed>, user: nat, device: nat, token: nat, since: int)
    requires Usable(t, cfg, user, device, token, since)
    requires AlwaysFresh(t, cfg, run) && ChainKept(cfg, run, user, device, token, since)
    ensures ChainAnswered(t, cfg, run, token)
    decreases |run|
  {
    if run != [] {
      var now, step := run[0].at, run[0].step;
      var t' := Perform(t, cfg, now, step).0;
      if step.Refresh? && step.token == token {
        UsableRotates(t, cfg, now, user, device, token, since, step.newToken);
        ChainFrom(t', cfg, run[1..], user, device, step.newToken, now);
      } else {
        UsableKept(t, cfg, now, step, user, device, token, since);
        ChainFrom(t', cfg, run[1..], user, device, token, since);
      }
    }
  }

  /** After a login of an active user on a live device every refresh of the chain succeeds, for as long as the user
      likes: each rotation starts both deadlines afresh, so the absolute age never ends a session kept in use. */
  lemma LoginChainSucceeds(t: Tables, cfg: Settings, run: seq<Timed>, now: int, user: nat, device: nat, token: nat)
    requires DeviceLive(t, device) && AccountActive(t, user) && token !in t.sessions
    requires AlwaysFresh(CreateSession(t, cfg, now, user, device, token), cfg, run)
    requires ChainKept(cfg, run, user, device, token, now)
    ensures ChainAnswered(CreateSession(t, cfg, now, user, device, token), cfg, run, token)
  {
    ChainFrom(CreateSession(t, cfg, now, user, device, token), cfg, run, user, device, token, now);
  }

  /** From any tables a new device gets there: once it is added, the account is active and the user logs in on it, the
      session can be refreshed up to its deadline. */
  lemma NewDeviceCanRefresh(
    t: Tables, cfg: Settings, now: int, user: nat, device: nat, token: nat, later: int, newToken: nat)
    requires device !in t.devices && token !in t.sessions && OnTime(cfg, now, later)
    ensures
      var added := Perform(t, cfg, now, DeviceAdded(device, user)).0;
      var active := Perform(added, cfg, now, AccountChanges(user, Active)).0;
      var ready := Perform(active, cfg, now, Login(user, device, token)).0;
      Perform(ready, cfg, later, Refresh(token, newToken)).1 == Some(Refreshed(newToken))
  {
  }

  /** A revoked device stays revoked with its owner and time, unless it is revoked again. */
  lemma {:induction false} RevokedDeviceForever(t: Tables, cfg: Settings, run: seq<Timed>, device: nat)
    requires device in t.devices && t.devices[device].revokedAt != None
    ensures device in After(t, cfg, run).devices && !DeviceLive(After(t, cfg, run), device)
    ensures After(t, cfg, run).devices[device].owner == t.devices[device].owner
    ensures (forall i :: 0 <= i < |run| ==> run[i].step != DropDevice(device)) ==>
      After(t, cfg, run).devices[device] == t.devices[device]
    decreases |run|
  {
    if run != [] {
      assert forall i :: 0 <= i < |run[1..]| ==> run[1..][i] == run[i + 1];
      RevokedDeviceForever(Perform(t, cfg, run[0].at, run[0].step).0, cfg, run[1..], device);
    }
  }

  ghost predicate NeverReactivated(run: seq<Timed>, user: nat) {
    forall i :: 0 <= i < |run| ==> run[i].step != AccountChanges(user, Active)
  }

  /** A locked, deleted or missing user redeems nothing until the account is active again. */
  lemma {:induction false} LockedRedeemsNothing(t: Tables, cfg: Settings, run: seq<Timed>, i: nat, token: nat, user: nat)
    requires !AccountActive(t, user) && NeverReactivated(run, user)
    requires i < |run|
    requires
      var before := After(t, cfg, run[..i]);
      token in before.sessions && before.sessions[token].user == user
    ensures !Redeems(t, cfg, run, i, token)
    decreases |run|
  {
    if i == 0 {
      assert run[..0] == [];
      if run[0].step.Refresh? && run[0].step.token == token {
        RefreshSucceedsIff(t, cfg, run[0].at, token, run[0].step.newToken);
      }
    } else {
      var t' := Perform(t, cfg, run[0].at, run[0].step).0;
      assert run[..i][1..] == run[1..][..i - 1];
      assert forall k :: 0 <= k < |run[1..]| ==> run[1..][k] == run[k + 1];
      LockedRedeemsNothing(t', cfg, run[1..], i - 1, token, user);
    }
  }

  // ---------------------------------------------------------------------------------------------
  // What logging out and registering achieve
  // ---------------------------------------------------------------------------------------------

  /** A session that was logged out redeems nothing in any continuation; the other sessions are untouched. */
  lemma LogoutEndsSession(t: Tables, cfg: Settings, now: int, token: nat, run: seq<Timed>, i: nat)
    requires token in t.sessions
    requires AlwaysFresh(Perform(t, cfg, now, LogoutOne(token)).0, cfg, run)
    ensures
      var t' := Perform(t, cfg, now, LogoutOne(token)).0;
      && !Redeems(t', cfg, run, i, token)
      && t'.sessions[token].revokedAt == Some(now)
      && (forall k :: k in t.sessions && k != token ==> k in t'.sessions && t'.sessions[k] == t.sessions[k])
  {
    RevokedNeverRedeemed(Perform(t, cfg, now, LogoutOne(token)).0, cfg, run, i, token);
  }

  /** Logging out everywhere ends every session the user has and no other. */
  lemma LogoutEverywhereEndsAll(t: Tables, cfg: Settings, now: int, user: nat, token: nat, run: seq<Timed>, i: nat)
    requires token in t.sessions
    requires AlwaysFresh(Perform(t, cfg, now, LogoutEverywhere(user)).0, cfg, run)
    ensures
      var t' := Perform(t, cfg, now, LogoutEverywhere(user)).0;
      && (t.sessions[token].user == user ==> !Redeems(t', cfg, run, i, token))
      && (t.sessions[token].user != user ==> token in t'.sessions && t'.sessions[token] == t.sessions[token])
  {
    if t.sessions[token].user == user {
      RevokedNeverRedeemed(Perform(t, cfg, now, LogoutEverywhere(user)).0, cfg, run, i, token);
    }
  }

  predicate ActivePush(t: Tables, device: nat, provider: Provider, token: nat) {
    PushToken(device, provider, token, None) in t.push
  }

  /** The step replaces or revokes the active token of this device and provider. */
  predicate EndsPush(step: Step, device: nat, provider: Provider, token: nat) {
    match step
    case RegisterToken(d, p, k) => p == provider && (d == device || k == token)
    case DropDevice(d) => d == device
    case _ => false
  }

  /** A registered push token is active, and stays so until it or its device and provider are registered again, or
      the device is dropped. */
  lemma {:induction false} RegisteredStaysActive(
    t: Tables, cfg: Settings, run: seq<Timed>, device: nat, provider: Provider, token: nat)
    requires ActivePush(t, device, provider, token)
    requires forall i :: 0 <= i < |run| ==> !EndsPush(run[i].step, device, provider, token)
    ensures ActivePush(After(t, cfg, run), device, provider, token)
    decreases |run|
  {
    if run != [] {
      ActivePushKept(t, cfg, run[0].at, run[0].step, device, provider, token);
      assert forall i :: 0 <= i < |run[1..]| ==> run[1..][i] == run[i + 1];
      RegisteredStaysActive(Perform(t, cfg, run[0].at, run[0].step).0, cfg, run[1..], device, provider, token);
    }
  }

  lemma ActivePushKept(
    t: Tables, cfg: Settings, now: int, step: Step, device: nat, provider: Provider, token: nat)
    requires ActivePush(t, device, provider, token) && !EndsPush(step, device, provider, token)
    ensures ActivePush(Perform(t, cfg, now, step).0, device, provider, token)
  {
    var i :| 0 <= i < |t.push| && t.push[i] == PushToken(device, provider, token, None);
    var t' := Perform(t, cfg, now, step).0;
    assert t'.push[i] == t.push[i];
  }

  /** Right after registration the token is active and nothing else is for its device and provider. */
  lemma RegisteredIsOnlyActive(t: Tables, now: int, device: nat, provider: Provider, token: nat)
    ensures
      var t' := RegisterPush(t, now, device, provider, token);
      && ActivePush(t', device, provider, token)
      && (forall i :: 0 <= i < |t'.push| && t'.push[i].revokedAt == None && t'.push[i].provider == provider ==>
            (t'.push[i].device == device || t'.push[i].token == token) ==>
              t'.push[i] == PushToken(device, provider, token, None))
      && t'.sessions == t.sessions && t'.devices == t.devices && t'.users == t.users
  {
    var t' := RegisterPush(t, now, device, provider, token);
    assert t'.push[|t'.push| - 1] == PushToken(device, provider, token, None);
  }

  // ---------------------------------------------------------------------------------------------
  // The services on mutable tables
  // ---------------------------------------------------------------------------------------------

  class IdentityService {
    const cfg: Settings
    var sessions: map<nat, Session>
    var devices: map<nat, Device>
    var users: map<nat, UserStatus>
    var push: seq<PushToken>

    function State(): Tables
      reads this
    {
      Tables(sessions, devices, users, push)
    }

    constructor (cfg: Settings, devices: map<nat, Device>, users: map<nat, UserStatus>)
      ensures State() == Tables(map[], devices, users, []) && this.cfg == cfg && Unique(State())
    {
      this.cfg := cfg;
      this.sessions, this.devices, this.users, this.push := map[], devices, users, [];
    }

    method StartSession(now: int, user: nat, device: nat, token: nat)
      requires token !in sessions
      modifies this
      ensures State() == CreateSession(old(State()), cfg, now, user, device, token)
      ensures old(Unique(State())) ==> Unique(State())
    {
      StepKeepsUniqueIf(State(), cfg, now, Login(user, device, token));
      sessions := RevokeUser(sessions, user, now, NewDeviceLogin);
      sessions := sessions[token := Session(user, device, now, now + cfg.refreshDays * SECONDS_PER_DAY, None, None)];
    }

    method RotateSession(now: int, token: nat, newToken: nat) returns (r: RefreshResult)
      requires newToken !in sessions
      modifies this
      ensures (State(), r) == RefreshSession(old(State()), cfg, now, token, newToken)
      ensures old(Unique(State())) ==> Unique(State())
    {
      StepKeepsUniqueIf(State(), cfg, now, Refresh(token, newToken));
      if token !in sessions {
        return InvalidToken;
      }
      var s := sessions[token];
      if s.revokedAt != None {
        return SessionRevoked;
      }
      if s.refreshExpiresAt < now {
        return TokenExpired;
      }
      if (now - s.createdAt) / SECONDS_PER_DAY > cfg.absoluteDays {
        return SessionExpired;
      }
      if s.device !in devices || devices[s.device].revokedAt != None {
        sessions := sessions[token := Revoke(s, now, DeviceGone)];
        return DeviceRevoked;
      }
      if s.user !in users || users[s.user] != Active {
        return AccountDisabled;
      }
      sessions := sessions[token := Revoke(s, now, Rotated)];
      var next := Session(s.user, s.device, now, now + cfg.refreshDays * SECONDS_PER_DAY, None, None);
      sessions := sessions[newToken := next];
      return Refreshed(newToken);
    }

    method EndSession(now: int, token: nat)
      modifies this
      ensures State() == RevokeSession(old(State()), now, token)
    {
      if token in sessions {
        sessions := sessions[token := Revoke(sessions[token], now, Logout)];
      }
    }

    /** Returns the number of sessions the bulk update revoked. */
    method EndAllSessions(now: int, user: nat) returns (count: nat)
      modifies this
      ensures State() == RevokeAll(old(State()), now, user)
      ensures count == |set t | t in old(sessions) && old(sessions)[t].user == user && Live(old(sessions)[t])|
    {
      count := |set t | t in sessions && sessions[t].user == user && Live(sessions[t])|;
      sessions := RevokeUser(sessions, user, now, LogoutAll);
    }

    method RegisterPushToken(now: int, device: nat, provider: Provider, token: nat)
      modifies this
      ensures State() == RegisterPush(old(State()), now, device, provider, token)
      ensures old(Unique(State())) ==> Unique(State())
    {
      StepKeepsUniqueIf(State(), cfg, now, RegisterToken(device, provider, token));
      push := RevokePush(push, device, Some(provider), now);
      push := RevokePushToken(push, provider, token, now);
      push := push + [PushToken(device, provider, token, None)];
    }

    method RemoveDevice(now: int, device: nat)
      requires device in devices
      modifies this
      ensures State() == RevokeDevice(old(State()), now, device)
    {
      devices := devices[device := devices[device].(revokedAt := Some(now))];
      sessions := RevokeDeviceSessions(sessions, device, now);
      push := RevokePush(push, device, None, now);
    }
  }

  lemma StepKeepsUniqueIf(t: Tables, cfg: Settings, now: int, step: Step)
    requires FreshTokens(t, step)
    ensures Unique(t) ==> Unique(Perform(t, cfg, now, step).0)
  {
    if Unique(t) {
      StepKeepsUnique(t, cfg, now, step);
    }
  }
}
