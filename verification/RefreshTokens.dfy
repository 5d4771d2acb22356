/**
 Refresh-token families: issue, rotate, log out, switch tenant, reset.

 The `RefreshToken`, `User` and `TenantMember` tables are maps. Every call is one
 atomic step over them; `Step` is the specification of a step, `TokenService` the
 imperative service that is proved against it, and the lemmas at the end speak about
 every run of steps. The design is the rotation scheme of section 4.14.2 of RFC 9700.
 Times are in milliseconds.
 */
module RefreshTokens {
  import opened Options

  const CLI_PREFIX := "cli:"
  /** 9999-12-31T23:59:59Z. */
  const PERSISTENT_EXPIRY := 253402300799000
  const DEFAULT_REFRESH_TTL := 7 * 24 * 3600 * 1000

  datatype Config = Config(tokenBinding: bool, refreshCookieTTL: int)

  datatype Row = Row(
    userId: string,
    family: string,
    familyCreatedAt: int,
    expiresAt: int,
    ipUaHash: Option<string>,
    revokedAt: Option<int>)

  datatype Member = Member(expiresAt: Option<int>, isActive: bool, accepted: bool)

  /** `users` maps a user to its `enabled` flag; `members` is keyed by (tenant, user);
      `used` is every random id drawn so far. */
  datatype State = State(
    tokens: map<string, Row>,
    users: map<string, bool>,
    members: map<(string, string), Member>,
    used: set<string>)

  datatype Reply = Issued(token: string, cookieTTL: int) | Refused(status: int) | LoggedOut(user: string)

  /** What a request brings along: the caller's binding hash, the clock, the refresh
      lifetime of the user's active tenant, and the random ids drawn if tokens are issued. */
  datatype Request = Request(
    binding: string,
    now: int,
    tenantRefreshSeconds: Option<int>,
    newToken: string,
    newFamily: string)

  datatype Op =
    | Login(user: string, req: Request)
    | DeviceLogin(user: string, req: Request)
    | Refresh(token: string, req: Request)
    | Logout(token: string)
    | SwitchTenant(user: string, tenant: string, req: Request)
    | ResetPassword(user: string)
    | PutUser(user: string, enabled: bool)
    | DropUser(user: string)
    | PutMember(tenant: string, user: string, member: Member)

  // ---------------------------------------------------------------- identifiers

  /** The textual form of a random UUID: hexadecimal digits and dashes. */
  predicate IsUuid(s: string) {
    |s| == 36 && forall i :: 0 <= i < |s| ==> s[i] in "0123456789abcdef-"
  }

  predicate IsCliFamily(family: string) {
    CLI_PREFIX <= family
  }

  /** The random part of a family name. */
  function FamilyUuid(family: string): string {
    if IsCliFamily(family) then family[4..] else family
  }

  predicate FreshIds(s: State, req: Request) {
    && IsUuid(req.newToken) && IsUuid(req.newFamily)
    && req.newToken !in s.used && req.newFamily !in s.used
    && req.newToken != req.newFamily
  }

  predicate ValidOp(s: State, op: Op) {
    (op.Login? || op.DeviceLogin? || op.Refresh? || op.SwitchTenant?) ==> FreshIds(s, op.req)
  }

  // ---------------------------------------------------------------- the step specification

  function RefreshTTL(cfg: Config, tenantRefreshSeconds: Option<int>): int {
    if tenantRefreshSeconds.Some? && tenantRefreshSeconds.value > 0 then tenantRefreshSeconds.value * 1000
    else if cfg.refreshCookieTTL <= 0 then DEFAULT_REFRESH_TTL
    else cfg.refreshCookieTTL
  }

  function WithoutFamily(tokens: map<string, Row>, family: string): map<string, Row> {
    map t | t in tokens && tokens[t].family != family :: tokens[t]
  }

  function WithoutUser(tokens: map<string, Row>, user: string): map<string, Row> {
    map t | t in tokens && tokens[t].userId != user :: tokens[t]
  }

  /** Insert one token row of `family`; command-line families never expire and set no cookie lifetime. */
  function IssueFor(cfg: Config, s: State, user: string, family: string, createdAt: int, req: Request): (State, Reply) {
    var ttl := RefreshTTL(cfg, req.tenantRefreshSeconds);
    var row := Row(user, family, createdAt,
                   if IsCliFamily(family) then PERSISTENT_EXPIRY else req.now + ttl,
                   if cfg.tokenBinding then Some(req.binding) else None,
                   None);
    (s.(tokens := s.tokens[req.newToken := row], used := s.used + {req.newToken, req.newFamily}),
     Issued(req.newToken, if IsCliFamily(family) then 0 else ttl))
  }

  predicate BindingMismatch(cfg: Config, row: Row, binding: string) {
    cfg.tokenBinding && row.ipUaHash.Some? && row.ipUaHash.value != "" && binding != row.ipUaHash.value
  }

  function RefreshStep(cfg: Config, s: State, token: string, req: Request): (State, Reply) {
    if token == "" || token !in s.tokens || s.tokens[token].userId !in s.users then (s, Refused(401))
    else
      var row := s.tokens[token];
      if BindingMismatch(cfg, row, req.binding) || row.revokedAt.Some? then
        (s.(tokens := WithoutFamily(s.tokens, row.family)), Refused(401))
      else if row.expiresAt < req.now then (s.(tokens := s.tokens - {token}), Refused(401))
      else if !s.users[row.userId] then
        (s.(tokens := WithoutFamily(s.tokens, row.family)), Refused(401))
      else
        var revoked := s.(tokens := s.tokens[token := row.(revokedAt := Some(req.now))]);
        IssueFor(cfg, revoked, row.userId, row.family, row.familyCreatedAt, req)
  }

  function LogoutStep(s: State, token: string): (State, Reply) {
    if token == "" || token !in s.tokens then (s, LoggedOut(""))
    else
      var row := s.tokens[token];
      (s.(tokens := if row.family != "" then WithoutFamily(s.tokens, row.family) else s.tokens - {token}),
       LoggedOut(row.userId))
  }

  function SwitchMembers(members: map<(string, string), Member>, user: string, tenant: string)
    : map<(string, string), Member>
  {
    map k | k in members ::
      if k.1 != user then members[k]
      else if k.0 == tenant then members[k].(isActive := true, accepted := true)
      else members[k].(isActive := false)
  }

  function SwitchStep(cfg: Config, s: State, user: string, tenant: string, req: Request): (State, Reply) {
    if tenant == "" then (s, Refused(400))
    else if (tenant, user) !in s.members then (s, Refused(403))
    else if s.members[(tenant, user)].expiresAt.Some? && s.members[(tenant, user)].expiresAt.value <= req.now then
      (s, Refused(403))
    else
      var switched := s.(members := SwitchMembers(s.members, user, tenant), tokens := WithoutUser(s.tokens, user));
      if user !in s.users then (switched, Refused(500))
      else IssueFor(cfg, switched, user, req.newFamily, req.now, req)
  }

  /** One atomic step. The last three operations are the environment: administrators
      creating, disabling and deleting users (deletion cascades) and editing memberships. */
  function Step(cfg: Config, s: State, op: Op): (State, Reply) {
    match op
    case Login(user, req) =>
      if user !in s.users then (s, Refused(401)) else IssueFor(cfg, s, user, req.newFamily, req.now, req)
    case DeviceLogin(user, req) =>
      if user !in s.users then (s, Refused(401)) else IssueFor(cfg, s, user, CLI_PREFIX + req.newFamily, req.now, req)
    case Refresh(token, req) => RefreshStep(cfg, s, token, req)
    case Logout(token) => LogoutStep(s, token)
    case SwitchTenant(user, tenant, req) => SwitchStep(cfg, s, user, tenant, req)
    case ResetPassword(user) => (s.(tokens := WithoutUser(s.tokens, user)), LoggedOut(user))
    case PutUser(user, enabled) => (s.(users := s.users[user := enabled]), LoggedOut(user))
    case DropUser(user) => (s.(users := s.users - {user}, tokens := WithoutUser(s.tokens, user)), LoggedOut(user))
    case PutMember(tenant, user, member) => (s.(members := s.members[(tenant, user) := member]), LoggedOut(user))
  }

  function Run(cfg: Config, s: State, ops: seq<Op>): State
    decreases |ops|
  {
    if ops == [] then s else Run(cfg, Step(cfg, s, ops[0]).0, ops[1..])
  }

  ghost predicate ValidRun(cfg: Config, s: State, ops: seq<Op>)
    decreases |ops|
  {
    ops == [] || (ValidOp(s, ops[0]) && ValidRun(cfg, Step(cfg, s, ops[0]).0, ops[1..]))
  }

  // ---------------------------------------------------------------- the imperative service

  class TokenService {
    const cfg: Config
    var tokens: map<string, Row>
    var users: map<string, bool>
    var members: map<(string, string), Member>
    ghost var used: set<string>

    constructor (cfg: Config)
      ensures this.cfg == cfg && Abs() == State(map[], map[], map[], {})
    {
      this.cfg := cfg;
      tokens, users, members, used := map[], map[], map[], {};
    }

    ghost function Abs(): State
      reads this
    {
      State(tokens, users, members, used)
    }

    method DeleteFamily(family: string)
      modifies this`tokens
      ensures tokens == WithoutFamily(old(tokens), family)
    {
      tokens := map t | t in tokens && tokens[t].family != family :: tokens[t];
    }

    method IssueTokensForFamily(user: string, family: string, createdAt: int, req: Request) returns (r: Reply)
      modifies this`tokens, this`used
      ensures (Abs(), r) == IssueFor(cfg, old(Abs()), user, family, createdAt, req)
    {
      var ttl := cfg.refreshCookieTTL;
      if ttl <= 0 {
        ttl := DEFAULT_REFRESH_TTL;
      }
      if req.tenantRefreshSeconds.Some? && req.tenantRefreshSeconds.value > 0 {
        ttl := req.tenantRefreshSeconds.value * 1000;
      }
      var expiresAt, cookieTTL := req.now + ttl, ttl;
      if IsCliFamily(family) {
        expiresAt, cookieTTL := PERSISTENT_EXPIRY, 0;
      }
      var hash: Option<string> := None;
      if cfg.tokenBinding {
        hash := Some(req.binding);
      }
      tokens := tokens[req.newToken := Row(user, family, createdAt, expiresAt, hash, None)];
      used := used + {req.newToken, req.newFamily};
      r := Issued(req.newToken, cookieTTL);
    }

    method LoginUser(user: string, req: Request) returns (r: Reply)
      modifies this`tokens, this`used
      ensures (Abs(), r) == Step(cfg, old(Abs()), Login(user, req))
    {
      if user !in users {
        return Refused(401);
      }
      r := IssueTokensForFamily(user, req.newFamily, req.now, req);
    }

    method IssueDeviceAuthTokens(user: string, req: Request) returns (r: Reply)
      modifies this`tokens, this`used
      ensures (Abs(), r) == Step(cfg, old(Abs()), DeviceLogin(user, req))
    {
      if user !in users {
        return Refused(401);
      }
      r := IssueTokensForFamily(user, CLI_PREFIX + req.newFamily, req.now, req);
    }

    method RefreshToken(token: string, req: Request) returns (r: Reply)
      modifies this`tokens, this`used
      ensures (Abs(), r) == Step(cfg, old(Abs()), Refresh(token, req))
    {
      if token == "" || token !in tokens || tokens[token].userId !in users {
        return Refused(401);
      }
      var stored := tokens[token];
      if cfg.tokenBinding && stored.ipUaHash.Some? && stored.ipUaHash.value != "" {
        if req.binding != stored.ipUaHash.value {
          DeleteFamily(stored.family);
          return Refused(401);
        }
      }
      if stored.revokedAt.Some? {
        DeleteFamily(stored.family);
        return Refused(401);
      }
      if stored.expiresAt < req.now {
        tokens := tokens - {token};
        return Refused(401);
      }
      if !users[stored.userId] {
        DeleteFamily(stored.family);
        return Refused(401);
      }
      tokens := tokens[token := stored.(revokedAt := Some(req.now))];
      r := IssueTokensForFamily(stored.userId, stored.family, stored.familyCreatedAt, req);
    }

    method LogoutToken(token: string) returns (r: Reply)
      modifies this`tokens
      ensures (Abs(), r) == Step(cfg, old(Abs()), Logout(token))
    {
      if token == "" || token !in tokens {
        return LoggedOut("");
      }
      var stored := tokens[token];
      if stored.family != "" {
        DeleteFamily(stored.family);
      } else {
        tokens := tokens - {token};
      }
      r := LoggedOut(stored.userId);
    }

    method SwitchTenantTo(user: string, tenant: string, req: Request) returns (r: Reply)
      modifies this
      ensures (Abs(), r) == Step(cfg, old(Abs()), SwitchTenant(user, tenant, req))
    {
      if tenant == "" {
        return Refused(400);
      }
      if (tenant, user) !in members {
        return Refused(403);
      }
      var expiresAt := members[(tenant, user)].expiresAt;
      if expiresAt.Some? && expiresAt.value <= req.now {
        return Refused(403);
      }
      members := map k | k in members ::
        if k.1 == user && members[k].isActive then members[k].(isActive := false) else members[k];
      members := members[(tenant, user) := members[(tenant, user)].(isActive := true, accepted := true)];
      assert members == SwitchMembers(old(members), user, tenant);
      tokens := map t | t in tokens && tokens[t].userId != user :: tokens[t];
      if user !in users {
        return Refused(500);
      }
      r := IssueTokensForFamily(user, req.newFamily, req.now, req);
    }
  }

  // ---------------------------------------------------------------- what every run keeps

  /** All rows of a family share their user and creation time, and at most one is unrevoked. */
  ghost predicate FamiliesCoherent(tokens: map<string, Row>) {
    forall t, u :: t in tokens && u in tokens && tokens[t].family == tokens[u].family ==>
      && tokens[t].userId == tokens[u].userId
      && tokens[t].familyCreatedAt == tokens[u].familyCreatedAt
      && (tokens[t].revokedAt.None? && tokens[u].revokedAt.None? ==> t == u)
  }

  ghost predicate Inv(s: State) {
    && FamiliesCoherent(s.tokens)
    && (forall t :: t in s.tokens ==> t in s.used && IsUuid(t) && s.tokens[t].userId in s.users)
    && (forall t :: t in s.tokens ==>
         FamilyUuid(s.tokens[t].family) in s.used && IsUuid(FamilyUuid(s.tokens[t].family)))
    && (forall t :: t in s.tokens && IsCliFamily(s.tokens[t].family) ==> s.tokens[t].expiresAt == PERSISTENT_EXPIRY)
  }

  /** A UUID never looks like a command-line family, so the two kinds of family cannot collide. */
  lemma UuidFamilies(uuid: string)
    requires IsUuid(uuid)
    ensures !IsCliFamily(uuid) && FamilyUuid(uuid) == uuid
    ensures IsCliFamily(CLI_PREFIX + uuid) && FamilyUuid(CLI_PREFIX + uuid) == uuid
    ensures uuid != ""
  {
    assert uuid[3] != CLI_PREFIX[3];
    assert (CLI_PREFIX + uuid)[4..] == uuid;
  }

  lemma FamilyNotEmpty(family: string)
    requires IsUuid(FamilyUuid(family))
    ensures family != ""
  {
  }

  lemma IssueKeepsInv(cfg: Config, s: State, user: string, family: string, createdAt: int, req: Request)
    requires Inv(s) && FreshIds(s, req) && user in s.users
    requires FamilyUuid(family) in s.used + {req.newFamily} && IsUuid(FamilyUuid(family))
    requires forall t :: t in s.tokens && s.tokens[t].family == family ==>
      s.tokens[t].userId == user && s.tokens[t].familyCreatedAt == createdAt && s.tokens[t].revokedAt.Some?
    ensures Inv(IssueFor(cfg, s, user, family, createdAt, req).0)
  {
    hide IsUuid, IsCliFamily, FamilyUuid;
  }

  /** Deleting rows, or revoking one, keeps the invariant. */
  lemma ShrinkKeepsInv(s: State, s': State)
    requires Inv(s) && s.used == s'.used
    requires forall t :: t in s'.tokens ==>
      && t in s.tokens
      && s'.tokens[t] == s.tokens[t].(revokedAt := s'.tokens[t].revokedAt)
      && (s'.tokens[t].revokedAt.None? ==> s.tokens[t].revokedAt.None?)
      && s'.tokens[t].userId in s'.users
    ensures Inv(s')
  {
    hide IsUuid, IsCliFamily, FamilyUuid;
    forall t, u | t in s'.tokens && u in s'.tokens && s'.tokens[t].family == s'.tokens[u].family
      ensures s'.tokens[t].userId == s'.tokens[u].userId
      ensures s'.tokens[t].familyCreatedAt == s'.tokens[u].familyCreatedAt
      ensures s'.tokens[t].revokedAt.None? && s'.tokens[u].revokedAt.None? ==> t == u
    {
      assert s.tokens[t].family == s.tokens[u].family;
    }
  }

  lemma RefreshKeepsInv(cfg: Config, s: State, token: string, req: Request)
    requires Inv(s) && FreshIds(s, req)
    ensures Inv(RefreshStep(cfg, s, token, req).0)
  {
    hide IsUuid, IsCliFamily, FamilyUuid;
    var (s', r) := RefreshStep(cfg, s, token, req);
    if r.Issued? {
      var row := s.tokens[token];
      var revoked := s.(tokens := s.tokens[token := row.(revokedAt := Some(req.now))]);
      ShrinkKeepsInv(s, revoked);
      IssueKeepsInv(cfg, revoked, row.userId, row.family, row.familyCreatedAt, req);
    } else {
      ShrinkKeepsInv(s, s');
    }
  }

  lemma SwitchKeepsInv(cfg: Config, s: State, user: string, tenant: string, req: Request)
    requires Inv(s) && FreshIds(s, req)
    ensures Inv(SwitchStep(cfg, s, user, tenant, req).0)
  {
    hide IsUuid, IsCliFamily, FamilyUuid;
    var switched := s.(members := SwitchMembers(s.members, user, tenant), tokens := WithoutUser(s.tokens, user));
    ShrinkKeepsInv(s, switched);
    if user in s.users {
      UuidFamilies(req.newFamily);
      IssueKeepsInv(cfg, switched, user, req.newFamily, req.now, req);
    }
  }

  lemma StepKeepsInv(cfg: Config, s: State, op: Op)
    requires Inv(s) && ValidOp(s, op)
    ensures Inv(Step(cfg, s, op).0)
  {
    hide IsUuid, IsCliFamily, FamilyUuid;
    match op
    case Login(user, req) =>
      if user in s.users {
        UuidFamilies(req.newFamily);
        IssueKeepsInv(cfg, s, user, req.newFamily, req.now, req);
      }
    case DeviceLogin(user, req) =>
      if user in s.users {
        UuidFamilies(req.newFamily);
        IssueKeepsInv(cfg, s, user, CLI_PREFIX + req.newFamily, req.now, req);
      }
    case Refresh(token, req) => RefreshKeepsInv(cfg, s, token, req);
    case SwitchTenant(user, tenant, req) => SwitchKeepsInv(cfg, s, user, tenant, req);
    case _ => ShrinkKeepsInv(s, Step(cfg, s, op).0);
  }

  /** The family invariant holds after every run of calls from the empty tables. */
  lemma {:induction false} RunKeepsInv(cfg: Config, s: State, ops: seq<Op>)
    requires Inv(s) && ValidRun(cfg, s, ops)
    ensures Inv(Run(cfg, s, ops))
    decreases |ops|
  {
    hide IsUuid, IsCliFamily, FamilyUuid;
    if ops != [] {
      StepKeepsInv(cfg, s, ops[0]);
      RunKeepsInv(cfg, Step(cfg, s, ops[0]).0, ops[1..]);
    }
  }

  const NOTHING := State(map[], map[], map[], {})

  /** Over every run of calls from empty tables: the tokens of a family share one user and one creation time,
      at most one of them is unrevoked, and every token of a command-line family never expires. */
  lemma FamiliesOfEveryRun(cfg: Config, ops: seq<Op>, t: string, u: string)
    requires ValidRun(cfg, NOTHING, ops)
    requires var tokens := Run(cfg, NOTHING, ops).tokens;
             t in tokens && u in tokens && tokens[t].family == tokens[u].family
    ensures var tokens := Run(cfg, NOTHING, ops).tokens;
            && tokens[t].userId == tokens[u].userId && tokens[t].familyCreatedAt == tokens[u].familyCreatedAt
            && (t != u ==> tokens[t].revokedAt.Some? || tokens[u].revokedAt.Some?)
            && (IsCliFamily(tokens[t].family) ==> tokens[t].expiresAt == PERSISTENT_EXPIRY)
  {
    hide IsUuid, IsCliFamily, FamilyUuid, Run, ValidRun;
    RunKeepsInv(cfg, NOTHING, ops);
  }

  // ---------------------------------------------------------------- revocation is permanent

  /** No row of the family is left and its random part is spent. */
  ghost predicate DeadFamily(s: State, family: string) {
    FamilyUuid(family) in s.used && forall t :: t in s.tokens ==> s.tokens[t].family != family
  }

  ghost predicate DeadToken(s: State, token: string) {
    token in s.used && token !in s.tokens
  }

  /** The steps after which a family must never be usable again. */
  ghost predicate Kills(cfg: Config, s: State, op: Op, family: string) {
    match op
    case Refresh(token, req) =>
      && token in s.tokens && s.tokens[token].family == family
      && (|| s.tokens[token].revokedAt.Some?
          || BindingMismatch(cfg, s.tokens[token], req.binding)
          || (s.tokens[token].expiresAt >= req.now
              && s.tokens[token].userId in s.users && !s.users[s.tokens[token].userId]))
    case Logout(token) => token in s.tokens && s.tokens[token].family == family
    case SwitchTenant(user, tenant, req) =>
      && !Step(cfg, s, op).1.Refused?
      && exists t :: t in s.tokens && s.tokens[t].family == family && s.tokens[t].userId == user
    case ResetPassword(user) =>
      exists t :: t in s.tokens && s.tokens[t].family == family && s.tokens[t].userId == user
    case _ => false
  }

  lemma KillingStep(cfg: Config, s: State, op: Op, family: string)
    requires Inv(s) && ValidOp(s, op) && Kills(cfg, s, op, family)
    ensures DeadFamily(Step(cfg, s, op).0, family)
    ensures forall t :: t in s.tokens && s.tokens[t].family == family ==> DeadToken(Step(cfg, s, op).0, t)
  {
    hide IsUuid, IsCliFamily, FamilyUuid;
    if op.SwitchTenant? {
      UuidFamilies(op.req.newFamily);
    }
    if op.Refresh? || op.Logout? {
      UuidFamilies(op.token);
      FamilyNotEmpty(family);
    }
  }

  lemma StepKeepsDeadFamily(cfg: Config, s: State, op: Op, family: string)
    requires Inv(s) && ValidOp(s, op) && DeadFamily(s, family)
    ensures DeadFamily(Step(cfg, s, op).0, family)
  {
    hide IsUuid, IsCliFamily, FamilyUuid;
    if op.Login? || op.DeviceLogin? || op.SwitchTenant? {
      UuidFamilies(op.req.newFamily);
    }
  }

  lemma StepKeepsDeadToken(cfg: Config, s: State, op: Op, token: string)
    requires ValidOp(s, op) && DeadToken(s, token)
    ensures DeadToken(Step(cfg, s, op).0, token)
  {
    hide IsUuid, IsCliFamily, FamilyUuid;
  }

  lemma {:induction false} RunKeepsDead(cfg: Config, s: State, ops: seq<Op>, family: string, token: string)
    requires Inv(s) && ValidRun(cfg, s, ops) && DeadFamily(s, family) && DeadToken(s, token)
    ensures DeadFamily(Run(cfg, s, ops), family) && DeadToken(Run(cfg, s, ops), token)
    decreases |ops|
  {
    hide IsUuid, IsCliFamily, FamilyUuid;
    if ops != [] {
      StepKeepsInv(cfg, s, ops[0]);
      StepKeepsDeadFamily(cfg, s, ops[0], family);
      StepKeepsDeadToken(cfg, s, ops[0], token);
      RunKeepsDead(cfg, Step(cfg, s, ops[0]).0, ops[1..], family, token);
    }
  }

  /** Reuse, foreign binding, logout, tenant switch and reset end a family for good: in no
      continuation does any of its tokens refresh, nor is a token of the family ever stored again. */
  lemma KilledFamilyNeverRefreshes(
    cfg: Config, s: State, op: Op, ops: seq<Op>, family: string, token: string, req: Request)
    requires Inv(s) && ValidRun(cfg, s, [op] + ops) && Kills(cfg, s, op, family)
    requires token in s.tokens && s.tokens[token].family == family
    ensures var end := Run(cfg, s, [op] + ops);
            && DeadFamily(end, family)
            && Step(cfg, end, Refresh(token, req)) == (end, Refused(401))
  {
    hide IsUuid, IsCliFamily, FamilyUuid;
    assert ([op] + ops)[1..] == ops;
    KillingStep(cfg, s, op, family);
    StepKeepsInv(cfg, s, op);
    RunKeepsDead(cfg, Step(cfg, s, op).0, ops, family, token);
  }

  // ---------------------------------------------------------------- rotation

  /** Exactly when a presented token is rotated. */
  ghost predicate Rotatable(cfg: Config, s: State, token: string, req: Request) {
    && token in s.tokens
    && s.tokens[token].revokedAt.None?
    && s.tokens[token].expiresAt >= req.now
    && s.tokens[token].userId in s.users && s.users[s.tokens[token].userId]
    && !BindingMismatch(cfg, s.tokens[token], req.binding)
  }

  /** A refresh succeeds if and only if the token is live; it then leaves the successor as the
      family's only unrevoked token, with the family's user, creation time and binding. */
  lemma RefreshRotates(cfg: Config, s: State, token: string, req: Request)
    requires Inv(s) && FreshIds(s, req)
    ensures var (s', r) := Step(cfg, s, Refresh(token, req));
            && (r.Issued? <==> Rotatable(cfg, s, token, req))
            && (r.Issued? ==>
                 && r.token == req.newToken && r.token !in s.tokens
                 && s'.tokens.Keys == s.tokens.Keys + {r.token}
                 && s'.tokens[r.token].family == s.tokens[token].family
                 && s'.tokens[r.token].userId == s.tokens[token].userId
                 && s'.tokens[r.token].familyCreatedAt == s.tokens[token].familyCreatedAt
                 && (forall t :: t in s'.tokens && s'.tokens[t].family == s.tokens[token].family ==>
                      (s'.tokens[t].revokedAt.None? <==> t == r.token))
                 && (forall t :: t in s.tokens && t != token ==> s'.tokens[t] == s.tokens[t]))
  {
    hide IsUuid, IsCliFamily, FamilyUuid;
    if token in s.tokens {
      UuidFamilies(token);
    }
  }

  /** The row behind a freshly issued token. */
  lemma IssuedRow(cfg: Config, s: State, op: Op)
    requires Inv(s) && ValidOp(s, op) && Step(cfg, s, op).1.Issued?
    ensures var (s', r) := Step(cfg, s, op);
            && r.token == op.req.newToken && r.token !in s.tokens && r.token in s'.tokens
            && s'.tokens[r.token].userId in s'.users
            && s'.tokens[r.token].revokedAt == None
            && s'.tokens[r.token].ipUaHash == (if cfg.tokenBinding then Some(op.req.binding) else None)
            && (IsCliFamily(s'.tokens[r.token].family) ==> s'.tokens[r.token].expiresAt == PERSISTENT_EXPIRY)
            && (!IsCliFamily(s'.tokens[r.token].family) ==>
                 r.cookieTTL > 0 && s'.tokens[r.token].expiresAt == op.req.now + r.cookieTTL)
  {
    hide IsUuid, IsCliFamily, FamilyUuid, FamiliesCoherent;
  }

  /** A freshly issued token is live for exactly its advertised lifetime and its own binding. */
  lemma IssuedTokenIsLive(cfg: Config, s: State, op: Op, later: Request)
    requires Inv(s) && ValidOp(s, op) && Step(cfg, s, op).1.Issued?
    ensures var (s', r) := Step(cfg, s, op);
            && r.token !in s.tokens && r.token in s'.tokens
            && var row := s'.tokens[r.token];
               var expiry := if IsCliFamily(row.family) then PERSISTENT_EXPIRY else op.req.now + r.cookieTTL;
               && (IsCliFamily(row.family) || r.cookieTTL > 0)
               && row.userId in s'.users
               && (Rotatable(cfg, s', r.token, later) <==>
                    && later.now <= expiry
                    && s'.users[row.userId]
                    && (cfg.tokenBinding ==> op.req.binding == "" || op.req.binding == later.binding))
  {
    hide Step, Inv, IsCliFamily;
    IssuedRow(cfg, s, op);
  }

  /** Presenting a rotated token a second time refuses it and ends the successor as well. */
  lemma ReuseEndsTheSuccessor(
    cfg: Config, s: State, token: string, req: Request, again: Request, ops: seq<Op>, later: Request)
    requires Inv(s) && FreshIds(s, req) && Rotatable(cfg, s, token, req)
    requires ValidRun(cfg, Step(cfg, s, Refresh(token, req)).0, [Refresh(token, again)] + ops)
    ensures var end := Run(cfg, Step(cfg, s, Refresh(token, req)).0, [Refresh(token, again)] + ops);
            && Step(cfg, end, Refresh(token, later)).1 == Refused(401)
            && Step(cfg, end, Refresh(req.newToken, later)).1 == Refused(401)
  {
    hide IsUuid, IsCliFamily, FamilyUuid;
    var rotated := Step(cfg, s, Refresh(token, req)).0;
    var family := s.tokens[token].family;
    RefreshRotates(cfg, s, token, req);
    StepKeepsInv(cfg, s, Refresh(token, req));
    KilledFamilyNeverRefreshes(cfg, rotated, Refresh(token, again), ops, family, token, later);
    KilledFamilyNeverRefreshes(cfg, rotated, Refresh(token, again), ops, family, req.newToken, later);
  }

  /** A successful tenant switch leaves exactly the target membership active for the user, touches
      nobody else's membership, and leaves the new token as the user's only one. */
  lemma SwitchTenantEffect(cfg: Config, s: State, user: string, tenant: string, req: Request)
    requires Inv(s) && FreshIds(s, req)
    requires Step(cfg, s, SwitchTenant(user, tenant, req)).1.Issued?
    ensures var s' := Step(cfg, s, SwitchTenant(user, tenant, req)).0;
            && s'.members.Keys == s.members.Keys && (tenant, user) in s.members
            && (forall k :: k in s.members && k.1 == user ==> (s'.members[k].isActive <==> k.0 == tenant))
            && s'.members[(tenant, user)].accepted
            && (forall k :: k in s.members ==> s'.members[k].expiresAt == s.members[k].expiresAt)
            && (forall k :: k in s.members && k != (tenant, user) ==> s'.members[k].accepted == s.members[k].accepted)
            && s'.users == s.users
            && (forall k :: k in s.members && k.1 != user ==> s'.members[k] == s.members[k])
            && (forall t :: t in s'.tokens ==> (s'.tokens[t].userId == user <==> t == req.newToken))
            && (forall t :: t in s.tokens && s.tokens[t].userId != user ==>
                 t in s'.tokens && s'.tokens[t] == s.tokens[t])
  {
    hide IsUuid, IsCliFamily, FamilyUuid;
  }

  // ---------------------------------------------------------------- what each call answers

  /** A tenant switch is answered with a token if and only if a tenant is named, the user has a membership there
      that does not expire or has yet to, and the user exists. A blank tenant is a bad request, a missing or
      expired membership is forbidden, and neither changes any table. */
  lemma SwitchRepliesIff(cfg: Config, s: State, user: string, tenant: string, req: Request)
    requires Inv(s) && FreshIds(s, req)
    ensures var (s', r) := Step(cfg, s, SwitchTenant(user, tenant, req));
            var k := (tenant, user);
            var current := k in s.members
                           && (s.members[k].expiresAt == None
                               || exists at :: s.members[k].expiresAt == Some(at) && req.now < at);
            && (r.Issued? <==> tenant != "" && current && user in s.users)
            && (tenant == "" ==> (s', r) == (s, Refused(400)))
            && (tenant != "" && !current ==> (s', r) == (s, Refused(403)))
            && (tenant != "" && current && user !in s.users ==> r == Refused(500))
  {
    hide Inv, FreshIds, IsUuid, IsCliFamily, FamilyUuid, SwitchMembers, WithoutUser;
  }

  /** A sign-in of an existing user, in the browser or of a device, and a tenant switch that goes through start a
      family of their own at that moment; the device's is a command-line family. */
  lemma NewFamilies(cfg: Config, s: State, op: Op)
    requires Inv(s) && ValidOp(s, op) && (op.Login? || op.DeviceLogin? || op.SwitchTenant?)
    requires Step(cfg, s, op).1.Issued?
    ensures var row := Step(cfg, s, op).0.tokens[op.req.newToken];
            && row.family == (if op.DeviceLogin? then "cli:" + op.req.newFamily else op.req.newFamily)
            && (IsCliFamily(row.family) <==> op.DeviceLogin?)
            && row.familyCreatedAt == op.req.now
            && row.userId == op.user
            && row.expiresAt == (if op.DeviceLogin? then 253402300799000 else op.req.now + Step(cfg, s, op).1.cookieTTL)
            && forall t :: t in s.tokens ==> s.tokens[t].family != row.family
  {
    hide IsUuid, IsCliFamily, FamilyUuid, FamiliesCoherent;
    UuidFamilies(op.req.newFamily);
  }

  /** Sign-ins are answered with a token exactly for existing users and touch no other row. */
  lemma SignInReplies(cfg: Config, s: State, op: Op)
    requires ValidOp(s, op) && (op.Login? || op.DeviceLogin?)
    ensures var (s', r) := Step(cfg, s, op);
            && (op.user in s.users ==>
                 && r.Issued? && op.req.newToken in s'.tokens
                 && s'.tokens == s.tokens[op.req.newToken := s'.tokens[op.req.newToken]])
            && (op.user !in s.users ==> (s', r) == (s, Refused(401)))
            && s'.users == s.users && s'.members == s.members
  {
    hide IsUuid, FamilyUuid;
  }

  /** The lifetime of a browser token, in milliseconds: the tenant's own if it sets one, else the configured one if
      that is positive, else seven days; and a command-line token sets no cookie lifetime. */
  lemma AdvertisedLifetime(cfg: Config, s: State, op: Op)
    requires Inv(s) && ValidOp(s, op) && Step(cfg, s, op).1.Issued?
    ensures var (s', r) := Step(cfg, s, op);
            && r.token in s'.tokens
            && var browser := !IsCliFamily(s'.tokens[r.token].family);
            var own := op.req.tenantRefreshSeconds.Some? && op.req.tenantRefreshSeconds.value > 0;
            && (!browser ==> r.cookieTTL == 0)
            && (browser && own ==> r.cookieTTL == op.req.tenantRefreshSeconds.value * 1000)
            && (browser && !own && cfg.refreshCookieTTL > 0 ==> r.cookieTTL == cfg.refreshCookieTTL)
            && (browser && !own && cfg.refreshCookieTTL <= 0 ==> r.cookieTTL == 604_800_000)
  {
    hide IsUuid, IsCliFamily, FamilyUuid, FamiliesCoherent;
  }

  /** What a refused refresh leaves behind: nothing changes for an unknown token; a token presented from a foreign
      binding, a rotated one and one of a disabled user cost the whole family and nothing else; an expired one goes
      alone. */
  lemma RefusedRefreshEffect(cfg: Config, s: State, token: string, req: Request)
    requires Inv(s) && !Step(cfg, s, Refresh(token, req)).1.Issued?
    ensures var (s', r) := Step(cfg, s, Refresh(token, req));
            && r == Refused(401) && s'.users == s.users && s'.members == s.members && s'.used == s.used
            && (token !in s.tokens ==> s' == s)
            && (token in s.tokens ==>
                 var row := s.tokens[token];
                 var foreign := cfg.tokenBinding && row.ipUaHash.Some? && row.ipUaHash.value !in {"", req.binding};
                 if foreign || row.revokedAt.Some? || req.now <= row.expiresAt
                 then s'.tokens == map t | t in s.tokens && s.tokens[t].family != row.family :: s.tokens[t]
                 else s'.tokens == s.tokens - {token})
  {
    hide IsUuid, IsCliFamily, FamilyUuid, FamiliesCoherent;
    if token in s.tokens {
      UuidFamilies(token);
    }
  }

  /** Logging out removes exactly the family of the presented token and names its user. */
  lemma LogoutEffect(cfg: Config, s: State, token: string)
    requires Inv(s)
    ensures var (s', r) := Step(cfg, s, Logout(token));
            && s'.users == s.users && s'.members == s.members && s'.used == s.used
            && (token !in s.tokens ==> s' == s && r == LoggedOut(""))
            && (token in s.tokens ==>
                 && r == LoggedOut(s.tokens[token].userId)
                 && s'.tokens == map t | t in s.tokens && s.tokens[t].family != s.tokens[token].family :: s.tokens[t])
  {
    hide IsUuid, IsCliFamily, FamilyUuid, FamiliesCoherent;
    if token in s.tokens {
      UuidFamilies(token);
      FamilyNotEmpty(s.tokens[token].family);
    }
  }

  /** A completed password reset removes exactly the user's tokens. */
  lemma ResetEffect(cfg: Config, s: State, user: string)
    ensures var s' := Step(cfg, s, ResetPassword(user)).0;
            && s' == s.(tokens := s'.tokens)
            && forall t :: t in s.tokens && s.tokens[t].userId != user <==> t in s'.tokens
    ensures forall t :: t in Step(cfg, s, ResetPassword(user)).0.tokens ==>
              s.tokens[t] == Step(cfg, s, ResetPassword(user)).0.tokens[t]
  {
  }
}
