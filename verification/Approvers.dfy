/**
 Who may approve a checkout: the three computations of it and when they agree.

 `FindApproverIDs` lists the approvers of one resource, `UserCanApproveResource` decides for
 one user and one resource, `ApprovableResourceIDs` lists the resources of one user. The
 tables are sequences of rows in the order a query returns them.
 */
module Approvers {
  import opened Options
  import opened Texts
  import opened StringOrder

  datatype TenantRole = OWNER | ADMIN | OtherTenantRole
  datatype TeamRole = TEAM_ADMIN | OtherTeamRole

  datatype SecretRow = SecretRow(id: string, userId: string, tenantId: Option<string>)
  datatype ConnectionRow = ConnectionRow(id: string, userId: string, teamId: Option<string>)
  datatype TenantMember = TenantMember(tenantId: string, userId: string, role: TenantRole)
  datatype TeamMember = TeamMember(teamId: string, userId: string, role: TeamRole)

  datatype Tables = Tables(
    secrets: seq<SecretRow>,
    connections: seq<ConnectionRow>,
    tenantMembers: seq<TenantMember>,
    teamMembers: seq<TeamMember>)

  ghost predicate KeyedBy<T(!new)>(rows: seq<T>, idOf: T -> string) {
    forall i, j :: 0 <= i < |rows| && 0 <= j < |rows| && idOf(rows[i]) == idOf(rows[j]) ==> i == j
  }

  /** Resource ids are primary keys. */
  ghost predicate Keyed(t: Tables) {
    KeyedBy(t.secrets, SecretRowId()) && KeyedBy(t.connections, ConnectionRowId())
  }

  lemma KeyIsUnique<T(!new)>(rows: seq<T>, idOf: T -> string, x: T, y: T)
    requires KeyedBy(rows, idOf) && x in rows && y in rows && idOf(x) == idOf(y)
    ensures x == y
  {
    var i :| 0 <= i < |rows| && rows[i] == x;
    var j :| 0 <= j < |rows| && rows[j] == y;
  }

  function SecretRowId(): SecretRow -> string {
    (r: SecretRow) => r.id
  }

  function ConnectionRowId(): ConnectionRow -> string {
    (r: ConnectionRow) => r.id
  }

  // ---------------------------------------------------------------- the rule itself

  predicate AdminOfTenant(t: Tables, tenant: string, user: string) {
    exists m :: m in t.tenantMembers && m.tenantId == tenant && m.userId == user && (m.role.OWNER? || m.role.ADMIN?)
  }

  predicate AdminOfTeam(t: Tables, team: string, user: string) {
    exists m :: m in t.teamMembers && m.teamId == team && m.userId == user && m.role.TEAM_ADMIN?
  }

  /** The owner of the secret, or an owner or administrator of its tenant. */
  predicate ApprovesSecretRow(t: Tables, r: SecretRow, user: string) {
    r.userId == user || (r.tenantId.Some? && AdminOfTenant(t, r.tenantId.value, user))
  }

  /** The owner of the connection, or an administrator of its team. */
  predicate ApprovesConnectionRow(t: Tables, r: ConnectionRow, user: string) {
    r.userId == user || (r.teamId.Some? && AdminOfTeam(t, r.teamId.value, user))
  }

  predicate ApprovesSecret(t: Tables, id: string, user: string) {
    exists r :: r in t.secrets && r.id == id && ApprovesSecretRow(t, r, user)
  }

  predicate ApprovesConnection(t: Tables, id: string, user: string) {
    exists r :: r in t.connections && r.id == id && ApprovesConnectionRow(t, r, user)
  }

  // ---------------------------------------------------------------- shared loops

  /** The cleaned id, unless it is blank. */
  predicate CleansTo(raw: string, id: string) {
    TrimSpace(raw) == id && id != ""
  }

  /** What each list holds: the cleaned ids of the approvers of a resource, or of the resources of a user. */
  ghost predicate ListedForSecret(t: Tables, secret: string, id: string) {
    exists user :: CleansTo(user, id) && ApprovesSecret(t, secret, user)
  }

  ghost predicate ListedForConnection(t: Tables, connection: string, id: string) {
    exists user :: CleansTo(user, id) && ApprovesConnection(t, connection, user)
  }

  ghost predicate SecretOfUser(t: Tables, user: string, id: string) {
    exists secret :: CleansTo(secret, id) && ApprovesSecret(t, secret, user)
  }

  ghost predicate ConnectionOfUser(t: Tables, user: string, id: string) {
    exists connection :: CleansTo(connection, id) && ApprovesConnection(t, connection, user)
  }

  predicate Distinct(ids: seq<string>) {
    forall i, j :: 0 <= i < |ids| && 0 <= j < |ids| && ids[i] == ids[j] ==> i == j
  }

  /** Appends the trimmed id unless it is blank or already there. */
  method AppendUnique(ids: seq<string>, value: string) returns (r: seq<string>)
    requires Distinct(ids)
    ensures Distinct(r)
    ensures forall id :: id in r <==> id in ids || CleansTo(value, id)
  {
    var trimmed := TrimSpace(value);
    if trimmed == "" {
      return ids;
    }
    for i := 0 to |ids|
      invariant forall j :: 0 <= j < i ==> ids[j] != trimmed
    {
      if ids[i] == trimmed {
        return ids;
      }
    }
    r := ids + [trimmed];
  }

  /** Trims, drops blanks and repeats, sorts. */
  method UniqueStrings(values: seq<string>) returns (result: seq<string>)
    ensures StrictlySorted(result)
    ensures forall id :: id in result <==> exists v :: v in values && CleansTo(v, id)
  {
    if |values| == 0 {
      return [];
    }
    var seen: set<string> := {};
    result := [];
    for i := 0 to |values|
      invariant Distinct(result)
      invariant forall id :: id in seen <==> id in result
      invariant forall id :: id in result <==> exists j :: 0 <= j < i && CleansTo(values[j], id)
    {
      var value := TrimSpace(values[i]);
      if value != "" && value !in seen {
        seen := seen + {value};
        result := result + [value];
      }
      assert forall id :: CleansTo(values[i], id) ==> id == value;
    }
    forall id ensures id in result <==> exists v :: v in values && CleansTo(v, id) {
      if v :| v in values && CleansTo(v, id) {
        var j :| 0 <= j < |values| && values[j] == v;
      }
    }
    SortKeepsElements(result);
    result := SortStrings(result);
  }

  // ---------------------------------------------------------------- the three computations

  /** `SELECT id FROM rows WHERE keep`. */
  function SelectIds<T(!new)>(rows: seq<T>, keep: T -> bool, id: T -> string): (r: seq<string>)
    ensures forall x :: x in r <==> exists row :: row in rows && keep(row) && id(row) == x
  {
    if rows == [] then []
    else
      var rest := SelectIds(rows[1..], keep, id);
      assert rows == [rows[0]] + rows[1..];
      if keep(rows[0]) then [id(rows[0])] + rest else rest
  }

  /** Appends the cleaned ids of a query's rows, one row at a time. */
  method AppendAll(ids: seq<string>, values: seq<string>) returns (r: seq<string>)
    requires Distinct(ids)
    ensures Distinct(r)
    ensures forall id :: id in r <==> id in ids || exists v :: v in values && CleansTo(v, id)
  {
    hide Distinct;
    r := ids;
    for i := 0 to |values|
      invariant Distinct(r)
      invariant forall id :: id in r <==> id in ids || exists j :: 0 <= j < i && CleansTo(values[j], id)
    {
      r := AppendUnique(r, values[i]);
    }
    assert forall v :: v in values <==> exists j :: 0 <= j < |values| && values[j] == v;
  }

  /** The row with the wanted id. */
  method FindRow<T>(rows: seq<T>, idOf: T -> string, id: string) returns (r: Option<T>)
    ensures r.Some? ==> r.value in rows && idOf(r.value) == id
    ensures r.None? ==> forall x :: x in rows ==> idOf(x) != id
  {
    for i := 0 to |rows|
      invariant forall j :: 0 <= j < i ==> idOf(rows[j]) != id
    {
      if idOf(rows[i]) == id {
        return Some(rows[i]);
      }
    }
    r := None;
  }

  /** The user ids of a tenant's owners and administrators. */
  function TenantAdmins(t: Tables, tenant: string): (ids: seq<string>)
    ensures forall user :: user in ids <==> AdminOfTenant(t, tenant, user)
  {
    SelectIds(t.tenantMembers,
              (m: TenantMember) => m.tenantId == tenant && (m.role.OWNER? || m.role.ADMIN?),
              (m: TenantMember) => m.userId)
  }

  /** The user ids of a team's administrators. */
  function TeamAdmins(t: Tables, team: string): (ids: seq<string>)
    ensures forall user :: user in ids <==> AdminOfTeam(t, team, user)
  {
    SelectIds(t.teamMembers, (m: TeamMember) => m.teamId == team && m.role.TEAM_ADMIN?, (m: TeamMember) => m.userId)
  }

  /** With ids as keys, the rule for an id is the rule for its row. */
  lemma SecretRowDecides(t: Tables, row: SecretRow)
    requires Keyed(t) && row in t.secrets
    ensures forall user :: ApprovesSecret(t, row.id, user) <==> ApprovesSecretRow(t, row, user)
  {
    hide KeyedBy, AdminOfTenant;
    forall r | r in t.secrets && r.id == row.id
      ensures r == row
    {
      KeyIsUnique(t.secrets, SecretRowId(), r, row);
    }
  }

  lemma ConnectionRowDecides(t: Tables, row: ConnectionRow)
    requires Keyed(t) && row in t.connections
    ensures forall user :: ApprovesConnection(t, row.id, user) <==> ApprovesConnectionRow(t, row, user)
  {
    hide KeyedBy, AdminOfTeam;
    forall r | r in t.connections && r.id == row.id
      ensures r == row
    {
      KeyIsUnique(t.connections, ConnectionRowId(), r, row);
    }
  }

  method FindApproverIDs(t: Tables, secretId: Option<string>, connectionId: Option<string>)
    returns (ids: Option<seq<string>>)
    requires Keyed(t)
    ensures ids.None? <==>
      if secretId.Some? then !exists r :: r in t.secrets && r.id == secretId.value
      else connectionId.Some? && !exists r :: r in t.connections && r.id == connectionId.value
    ensures ids.Some? ==> Distinct(ids.value)
    ensures ids.Some? ==> forall id :: id in ids.value <==>
      if secretId.Some? then ListedForSecret(t, secretId.value, id)
      else connectionId.Some? && ListedForConnection(t, connectionId.value, id)
  {
    hide AdminOfTenant, AdminOfTeam, Keyed, ApprovesSecret, ApprovesConnection, CleansTo;
    NoneIsDistinct();
    var found: seq<string> := [];
    if secretId.Some? {
      var row := FindRow(t.secrets, SecretRowId(), secretId.value);
      if row.None? {
        return None;
      }
      SecretRowDecides(t, row.value);
      found := AppendUnique(found, row.value.userId);
      if row.value.tenantId.Some? {
        found := AppendAll(found, TenantAdmins(t, row.value.tenantId.value));
      }
      return Some(found);
    }
    if connectionId.Some? {
      var row := FindRow(t.connections, ConnectionRowId(), connectionId.value);
      if row.None? {
        return None;
      }
      ConnectionRowDecides(t, row.value);
      found := AppendUnique(found, row.value.userId);
      if row.value.teamId.Some? {
        found := AppendAll(found, TeamAdmins(t, row.value.teamId.value));
      }
    }
    return Some(found);
  }

  lemma NoneIsDistinct()
    ensures Distinct([])
  {
  }

  /** Who may approve a request for this secret or this connection. */
  predicate CanApprove(t: Tables, user: string, secretId: Option<string>, connectionId: Option<string>) {
    || (secretId.Some? && ApprovesSecret(t, secretId.value, user))
    || (connectionId.Some? && ApprovesConnection(t, connectionId.value, user))
  }

  method UserCanApproveResource(t: Tables, user: string, secretId: Option<string>, connectionId: Option<string>)
    returns (allowed: bool)
    requires Keyed(t)
    ensures allowed <==> CanApprove(t, user, secretId, connectionId)
  {
    hide AdminOfTenant, AdminOfTeam, Keyed;
    if secretId.Some? {
      var row := FindRow(t.secrets, SecretRowId(), secretId.value);
      if row.Some? {
        SecretRowDecides(t, row.value);
        if row.value.userId == user {
          return true;
        }
        if row.value.tenantId.Some? {
          if AdminOfTenant(t, row.value.tenantId.value, user) {
            return true;
          }
        }
      }
    }
    if connectionId.Some? {
      var row := FindRow(t.connections, ConnectionRowId(), connectionId.value);
      if row.Some? {
        ConnectionRowDecides(t, row.value);
        if row.value.userId == user {
          return true;
        }
        if row.value.teamId.Some? {
          if AdminOfTeam(t, row.value.teamId.value, user) {
            return true;
          }
        }
      }
    }
    allowed := false;
  }

  method ApprovableSecretIDs(t: Tables, user: string) returns (ids: seq<string>)
    ensures StrictlySorted(ids)
    ensures forall id :: id in ids <==> SecretOfUser(t, user, id)
  {
    var owned := SelectIds(t.secrets, (r: SecretRow) => r.userId == user, (r: SecretRow) => r.id);
    var adminTenants := SelectIds(t.tenantMembers,
                                  (m: TenantMember) => m.userId == user && (m.role.OWNER? || m.role.ADMIN?),
                                  (m: TenantMember) => m.tenantId);
    assert forall tenant :: tenant in adminTenants <==> AdminOfTenant(t, tenant, user);
    var tenantOwned: seq<string> := [];
    if |adminTenants| > 0 {
      tenantOwned := SelectIds(t.secrets,
                               (r: SecretRow) => r.tenantId.Some? && r.tenantId.value in adminTenants,
                               SecretRowId());
    }
    assert forall x :: x in owned + tenantOwned <==> ApprovesSecret(t, x, user);
    ids := UniqueStrings(owned + tenantOwned);
  }

  method ApprovableConnectionIDs(t: Tables, user: string) returns (ids: seq<string>)
    ensures StrictlySorted(ids)
    ensures forall id :: id in ids <==> ConnectionOfUser(t, user, id)
  {
    var owned := SelectIds(t.connections, (r: ConnectionRow) => r.userId == user, (r: ConnectionRow) => r.id);
    var adminTeams := SelectIds(t.teamMembers,
                                (m: TeamMember) => m.userId == user && m.role.TEAM_ADMIN?,
                                (m: TeamMember) => m.teamId);
    assert forall team :: team in adminTeams <==> AdminOfTeam(t, team, user);
    var teamOwned: seq<string> := [];
    if |adminTeams| > 0 {
      teamOwned := SelectIds(t.connections,
                             (r: ConnectionRow) => r.teamId.Some? && r.teamId.value in adminTeams,
                             ConnectionRowId());
    }
    assert forall x :: x in owned + teamOwned <==> ApprovesConnection(t, x, user);
    ids := UniqueStrings(owned + teamOwned);
  }

  method ApprovableResourceIDs(t: Tables, user: string) returns (secrets: seq<string>, connections: seq<string>)
    ensures StrictlySorted(secrets) && StrictlySorted(connections)
    ensures forall id :: id in secrets <==> SecretOfUser(t, user, id)
    ensures forall id :: id in connections <==> ConnectionOfUser(t, user, id)
  {
    secrets := ApprovableSecretIDs(t, user);
    connections := ApprovableConnectionIDs(t, user);
  }

  // ---------------------------------------------------------------- agreement

  /** An id the loops leave alone. */
  predicate Clean(id: string) {
    id != "" && Trimmed(id)
  }

  predicate Kept(p: string -> bool, id: string) {
    p(id)
  }

  /** Cleaning a set of ids leaves membership unchanged if and only if every member is clean. */
  lemma CleaningIsIdentityIff(p: string -> bool)
    ensures (forall id :: Kept(p, id) <==> exists raw :: CleansTo(raw, id) && Kept(p, raw))
            <==> (forall id :: Kept(p, id) ==> Clean(id))
  {
    forall raw, id | CleansTo(raw, id)
      ensures Clean(id) && (Clean(raw) ==> raw == id)
    {
      TrimSpaceTrims(raw);
      TrimSpaceTrims(id);
    }
    forall id | Clean(id)
      ensures CleansTo(id, id)
    {
      TrimSpaceTrims(id);
    }
  }

  /** For every secret, the approver list and the approval check agree on every user if and only if no
      approver's id is blank or carries outer white space; and for every user, the list of approvable
      secrets and the check agree on every secret under the same condition on the secrets' ids. */
  lemma SecretComputationsAgreeIff(t: Tables, secret: string, user: string)
    ensures (forall u :: ListedForSecret(t, secret, u) <==> ApprovesSecret(t, secret, u))
            <==> (forall u :: ApprovesSecret(t, secret, u) ==> Clean(u))
    ensures (forall s :: SecretOfUser(t, user, s) <==> ApprovesSecret(t, s, user))
            <==> (forall s :: ApprovesSecret(t, s, user) ==> Clean(s))
  {
    var byUser := (u: string) => ApprovesSecret(t, secret, u);
    var bySecret := (s: string) => ApprovesSecret(t, s, user);
    hide ApprovesSecret, CleansTo, Clean;
    CleaningIsIdentityIff(byUser);
    CleaningIsIdentityIff(bySecret);
    assert forall u :: Kept(byUser, u) <==> ApprovesSecret(t, secret, u);
    assert forall s :: Kept(bySecret, s) <==> ApprovesSecret(t, s, user);
  }

  /** The same for connections. */
  lemma ConnectionComputationsAgreeIff(t: Tables, connection: string, user: string)
    ensures (forall u :: ListedForConnection(t, connection, u) <==> ApprovesConnection(t, connection, u))
            <==> (forall u :: ApprovesConnection(t, connection, u) ==> Clean(u))
    ensures (forall c :: ConnectionOfUser(t, user, c) <==> ApprovesConnection(t, c, user))
            <==> (forall c :: ApprovesConnection(t, c, user) ==> Clean(c))
  {
    var byUser := (u: string) => ApprovesConnection(t, connection, u);
    var byConnection := (c: string) => ApprovesConnection(t, c, user);
    hide ApprovesConnection, CleansTo, Clean;
    CleaningIsIdentityIff(byUser);
    CleaningIsIdentityIff(byConnection);
    assert forall u :: Kept(byUser, u) <==> ApprovesConnection(t, connection, u);
    assert forall c :: Kept(byConnection, c) <==> ApprovesConnection(t, c, user);
  }

  /** A table on which they disagree: the owner's id carries a blank, so the check accepts the owner and the list
      names somebody else. */
  lemma UncleanIdsDisagree()
    ensures var t := Tables([SecretRow("s", " u", None)], [], [], []);
            && Keyed(t)
            && ApprovesSecret(t, "s", " u") && !ListedForSecret(t, "s", " u")
            && ListedForSecret(t, "s", "u") && !ApprovesSecret(t, "s", "u")
  {
    var t := Tables([SecretRow("s", " u", None)], [], [], []);
    assert SecretRow("s", " u", None) in t.secrets;
    assert TrimLeft(" u") == "u" by {
      assert " u"[1..] == "u";
    }
    assert CleansTo(" u", "u");
    assert "u" != " u" by {
      assert |"u"| != |" u"|;
    }
    assert forall user :: ApprovesSecret(t, "s", user) <==> user == " u";
  }
}
