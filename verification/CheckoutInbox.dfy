/**
 Where the checkout workflow, its list and the approval rule meet: the list an approver sees against the
 requests the approver may decide.
 */
module CheckoutInbox {
  import opened Approvers
  import opened CheckoutList
  import opened FilterConditions
  import opened Options
  import opened Sql
  import Checkouts

  function StatusLabel(s: Checkouts.Status): string {
    match s
    case Pending => "PENDING"
    case Approved => "APPROVED"
    case Rejected => "REJECTED"
    case CheckedIn => "CHECKED_IN"
  }

  function OptionalText(o: Option<string>): Cell {
    if o.Some? then Text(o.value) else Null
  }

  function SecretOf(r: Checkouts.Resource): Option<string> {
    if r.Secret? then Some(r.id) else None
  }

  function ConnectionOf(r: Checkouts.Resource): Option<string> {
    if r.Connection? then Some(r.id) else None
  }

  /** The table row of a request. */
  function RowOf(id: string, r: Checkouts.Request): Row {
    map[Id := Text(id), RequesterId := Text(r.requester), Status := Text(StatusLabel(r.status)),
        ApproverId := OptionalText(r.approverId), SecretId := OptionalText(SecretOf(r.resource)),
        ConnectionId := OptionalText(ConnectionOf(r.resource))]
  }

  /** The approver check as the workflow makes it. */
  predicate Allowed(t: Tables, user: string, r: Checkouts.Request) {
    CanApprove(t, user, SecretOf(r.resource), ConnectionOf(r.resource))
  }

  /** The two lists are those that `ApprovableResourceIDs` computes. */
  ghost predicate ApprovableBy(t: Tables, user: string, secrets: seq<string>, connections: seq<string>) {
    && (forall id :: id in secrets <==> SecretOfUser(t, user, id))
    && (forall id :: id in connections <==> ConnectionOfUser(t, user, id))
  }

  /** The ids of what the user approves are trimmed and not empty. */
  ghost predicate CleanFor(t: Tables, user: string) {
    && (forall id :: ApprovesSecret(t, id, user) ==> Clean(id))
    && (forall id :: ApprovesConnection(t, id, user) ==> Clean(id))
  }

  lemma RowFacts(id: string, r: Checkouts.Request)
    ensures Typed(RowOf(id, r))
    ensures Get(RowOf(id, r), RequesterId) == Text(r.requester)
    ensures Get(RowOf(id, r), Status) == Text("PENDING") <==> r.status.Pending?
    ensures Get(RowOf(id, r), SecretId) == OptionalText(SecretOf(r.resource))
    ensures Get(RowOf(id, r), ConnectionId) == OptionalText(ConnectionOf(r.resource))
  {
    assert "PENDING"[0] != "APPROVED"[0] && "PENDING"[0] != "REJECTED"[0] && "PENDING"[0] != "CHECKED_IN"[0];
  }

  lemma ListedResource(t: Tables, user: string, secrets: seq<string>, connections: seq<string>, r: Checkouts.Request)
    requires ApprovableBy(t, user, secrets, connections) && CleanFor(t, user)
    ensures r.resource.Secret? ==> (r.resource.id in secrets <==> Allowed(t, user, r))
    ensures r.resource.Connection? ==> (r.resource.id in connections <==> Allowed(t, user, r))
  {
    hide ApprovesSecret, ApprovesConnection, SecretOfUser, ConnectionOfUser, Clean;
    SecretComputationsAgreeIff(t, r.resource.id, user);
    ConnectionComputationsAgreeIff(t, r.resource.id, user);
  }

  /** Each status has its own label of the enum. */
  lemma StatusLabels(r: Checkouts.Request)
    ensures StatusLabel(r.status) == "PENDING" <==> r.status.Pending?
    ensures StatusLabel(r.status) == "APPROVED" <==> r.status.Approved?
    ensures StatusLabel(r.status) == "REJECTED" <==> r.status.Rejected?
    ensures StatusLabel(r.status) == "CHECKED_IN" <==> r.status.CheckedIn?
    ensures StatusLabel(r.status) in Labels(CheckoutStatus)
  {
    assert "PENDING"[0] != "APPROVED"[0] && "PENDING"[0] != "REJECTED"[0] && "PENDING"[0] != "CHECKED_IN"[0];
    assert "APPROVED"[0] != "REJECTED"[0] && "APPROVED"[0] != "CHECKED_IN"[0] && "REJECTED"[0] != "CHECKED_IN"[0];
    var labels := Labels(CheckoutStatus);
    assert labels[0] == "PENDING" && labels[1] == "APPROVED" && labels[2] == "REJECTED" && labels[4] == "CHECKED_IN";
  }

  /** The approver's pending list is exactly the requests that the approver may decide, without the approver's own:
      for every table of requests, every user and the lists computed for that user. */
  lemma InboxIsDecidable(t: Tables, rows: Checkouts.Rows, user: string, secrets: seq<string>, connections: seq<string>,
                         id: string, action: Checkouts.Action)
    requires ApprovableBy(t, user, secrets, connections) && CleanFor(t, user)
    requires id in rows && !action.Checkin?
    ensures Listed(user, AsApprover, "PENDING", secrets, connections, RowOf(id, rows[id])) <==>
              && Checkouts.MayWrite(rows, action, id, user, Allowed(t, user, rows[id]))
              && rows[id].requester != user
  {
    hide ApprovableBy, CleanFor, Allowed, Typed;
    RowFacts(id, rows[id]);
    ListedResource(t, user, secrets, connections, rows[id]);
    hide Get, RowOf;
  }

  /** A pending request of one's own for a resource one administers is never in the list, yet nothing stops its
      requester from deciding it. */
  lemma OwnRequestIsHiddenButDecidable(t: Tables, rows: Checkouts.Rows, user: string, secrets: seq<string>,
                                       connections: seq<string>, id: string, action: Checkouts.Action)
    requires id in rows && rows[id].requester == user && rows[id].status.Pending? && Allowed(t, user, rows[id])
    requires !action.Checkin?
    ensures !Listed(user, AsApprover, "PENDING", secrets, connections, RowOf(id, rows[id]))
    ensures Checkouts.MayWrite(rows, action, id, user, Allowed(t, user, rows[id]))
  {
    hide Allowed, Typed;
    RowFacts(id, rows[id]);
  }

  /** The user owns the resource of the request, or administers the tenant of the secret or the team of the
      connection. */
  ghost predicate OwnsOrAdministers(t: Tables, user: string, r: Checkouts.Request) {
    match r.resource
    case Secret(id) =>
      exists i :: 0 <= i < |t.secrets| && t.secrets[i].id == id &&
        (t.secrets[i].userId == user
         || exists j :: 0 <= j < |t.tenantMembers| && t.tenantMembers[j].userId == user
                        && t.secrets[i].tenantId == Some(t.tenantMembers[j].tenantId)
                        && t.tenantMembers[j].role in {OWNER, ADMIN})
    case Connection(id) =>
      exists i :: 0 <= i < |t.connections| && t.connections[i].id == id &&
        (t.connections[i].userId == user
         || exists j :: 0 <= j < |t.teamMembers| && t.teamMembers[j].userId == user
                        && t.connections[i].teamId == Some(t.teamMembers[j].teamId)
                        && t.teamMembers[j].role == TEAM_ADMIN)
  }

  lemma AllowedIff(t: Tables, user: string, r: Checkouts.Request)
    ensures Allowed(t, user, r) <==> OwnsOrAdministers(t, user, r)
  {
    match r.resource
    case Secret(id) =>
      assert forall m :: m in t.tenantMembers <==> exists j :: 0 <= j < |t.tenantMembers| && t.tenantMembers[j] == m;
      assert forall x :: x in t.secrets <==> exists i :: 0 <= i < |t.secrets| && t.secrets[i] == x;
    case Connection(id) =>
      assert forall m :: m in t.teamMembers <==> exists j :: 0 <= j < |t.teamMembers| && t.teamMembers[j] == m;
      assert forall x :: x in t.connections <==> exists i :: 0 <= i < |t.connections| && t.connections[i] == x;
  }

  /** Who may do what, for every actor, table and request: a pending request is decided exactly by those who own or
      administer its resource; an approved one is checked in exactly by them and by its requester; and nothing else
      can be done to any request. */
  lemma AuthorityIff(t: Tables, rows: Checkouts.Rows, action: Checkouts.Action, id: string, actor: string)
    requires id in rows
    ensures Checkouts.MayWrite(rows, action, id, actor, Allowed(t, actor, rows[id])) <==>
              if action.Checkin?
              then rows[id].status.Approved? && (actor == rows[id].requester || OwnsOrAdministers(t, actor, rows[id]))
              else rows[id].status.Pending? && OwnsOrAdministers(t, actor, rows[id])
  {
    hide Allowed, OwnsOrAdministers;
    AllowedIff(t, actor, rows[id]);
  }

  /** Such requests exist: a tenant administrator who does not own the secret. */
  lemma AdministratorDecidesOwnRequest(action: Checkouts.Action)
    requires !action.Checkin?
    ensures var t := Tables([SecretRow("s", "owner", Some("t"))], [], [TenantMember("t", "admin", ADMIN)], []);
            var rows: Checkouts.Rows := map["r" := Checkouts.NewRequest("admin", Checkouts.Secret("s"), 60)];
            && Keyed(t) && !("owner" == "admin")
            && Checkouts.MayWrite(rows, action, "r", "admin", Allowed(t, "admin", rows["r"]))
  {
    var t := Tables([SecretRow("s", "owner", Some("t"))], [], [TenantMember("t", "admin", ADMIN)], []);
    assert t.tenantMembers[0] in t.tenantMembers && t.secrets[0] in t.secrets;
    assert AdminOfTenant(t, "t", "admin");
    assert ApprovesSecretRow(t, t.secrets[0], "admin");
    assert "owner"[0] != "admin"[0];
  }
}
