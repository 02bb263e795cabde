/** The workspace record (models/Workspace.js): a name, an owner, a members
    list with roles, the ids of its nodes, settings and tags, with the
    schema's defaults, its validation and its pre-save hook. */
module WorkspaceModel {
  import opened Common

  /** A member's role, restricted by the schema's enum. */
  datatype Role = OwnerRole | AdminRole | MemberRole | ViewerRole

  function RoleName(r: Role): string
  {
    match r
    case OwnerRole => "owner"
    case AdminRole => "admin"
    case MemberRole => "member"
    case ViewerRole => "viewer"
  }

  /** The roles by name. */
  const RoleByName: map<string, Role> :=
    map["owner" := OwnerRole, "admin" := AdminRole, "member" := MemberRole, "viewer" := ViewerRole]

  /** The enum validator: a string is accepted iff it names a role. */
  function ParseRole(s: string): (r: Option<Role>)
    ensures r.Some? <==> s in ["owner", "admin", "member", "viewer"]
  {
    if s in RoleByName then Some(RoleByName[s]) else None
  }

  /** The enum's names and roles are in one-to-one correspondence, and the
      schema default names the `member` role. */
  lemma RoleNames(r: Role, s: string)
    ensures ParseRole(RoleName(r)) == Some(r)
    ensures ParseRole(s) == Some(r) ==> RoleName(r) == s
    ensures ParseRole(DefaultRoleName) == Some(MemberRole)
  {
  }

  /** The schema default of a member's `role`. */
  const DefaultRoleName := "member"

  datatype Member = Member(user: UserId, role: Role, joinedAt: Time)

  datatype DefaultPermissions = DefaultPermissions(visibility: string, canInvite: bool)

  datatype Settings = Settings(
    theme: string,
    defaultPermissions: DefaultPermissions,
    integrations: map<string, Json>)

  /** The schema defaults of `settings`. */
  const DefaultSettings := Settings("galaxy", DefaultPermissions("workspace", true), map[])

  datatype Workspace = Workspace(
    name: string,
    description: string,
    owner: UserId,
    members: seq<Member>,
    nodes: seq<NodeId>,
    settings: Settings,
    tags: seq<string>,
    isActive: bool,
    createdAt: Time,
    updatedAt: Time)

  /** The schema validation a save runs, for the values the handlers can
      build: the required `name` must be non-empty (owner is always set and
      roles are enum values by construction). */
  predicate Validates(w: Workspace)
  {
    w.name != ""
  }

  /** What every stored workspace satisfies: it passed validation and its
      name went through the `trim` setter. */
  predicate Stored(w: Workspace)
  {
    Validates(w) && Trim(w.name) == w.name
  }

  /** The pre-save hook: `this.updatedAt = Date.now()`. */
  function PreSave(w: Workspace, now: Time): Workspace
  {
    w.(updatedAt := now)
  }

  /** The pre-save hook sets `updatedAt` to the current time and changes no
      other field, so it does not affect validity. */
  lemma PreSaveOnlyStamps(w: Workspace, now: Time)
    ensures PreSave(w, now).updatedAt == now
    ensures PreSave(w, now).(updatedAt := w.updatedAt) == w
    ensures Stored(PreSave(w, now)) == Stored(w)
  {
  }

  /** A new workspace document with the schema defaults filled in. */
  function NewWorkspace(name: string, description: string, owner: UserId, members: seq<Member>,
                        tags: seq<string>, now: Time): Workspace
  {
    Workspace(name, description, owner, members, [], DefaultSettings, tags, true, now, now)
  }

  function MemberOf(u: UserId): Member -> bool
  {
    (m: Member) => m.user == u
  }

  function NotMember(u: UserId): Member -> bool
  {
    (m: Member) => m.user != u
  }

  /** `members.find(member => member.user === u)`, as a position. */
  function FindMember(members: seq<Member>, u: UserId): Option<nat>
  {
    FirstIndex(members, MemberOf(u))
  }

  predicate IsMember(members: seq<Member>, u: UserId)
  {
    FindMember(members, u).Some?
  }

  /** The handlers' authorization test `['owner', 'admin'].includes(role)`
      on the user's FIRST members entry. */
  predicate CanAdminister(members: seq<Member>, u: UserId)
  {
    match FindMember(members, u)
    case None => false
    case Some(i) => members[i].role == OwnerRole || members[i].role == AdminRole
  }

  ghost predicate UniqueMembers(members: seq<Member>)
  {
    forall i, j :: 0 <= i < j < |members| ==> members[i].user != members[j].user
  }

  ghost predicate AllStored(docs: map<WorkspaceId, Workspace>)
  {
    forall id :: id in docs ==> Stored(docs[id])
  }

  /** Storing a valid workspace keeps the collection valid. */
  lemma StoreKeepsStored(docs: map<WorkspaceId, Workspace>, id: WorkspaceId, w: Workspace)
    requires AllStored(docs) && Stored(w)
    ensures AllStored(docs[id := w])
  {
  }

  /** The workspace collection. Saves validate, then run the pre-save hook;
      atomic `findByIdAndUpdate` updates bypass both. */
  class WorkspaceCollection {
    var docs: map<WorkspaceId, Workspace>

    ghost predicate Valid()
      reads this
    {
      AllStored(docs)
    }

    constructor ()
      ensures docs == map[] && Valid()
    {
      docs := map[];
    }

    /** `workspace.save()` (models/Workspace.js:61-64 for the hook). */
    method Save(id: WorkspaceId, w: Workspace, now: Time) returns (ok: bool)
      modifies this
      ensures ok == Validates(w)
      ensures docs == if ok then old(docs)[id := PreSave(w, now)] else old(docs)
      ensures old(Valid()) && Trim(w.name) == w.name ==> Valid()
    {
      ok := Validates(w);
      if ok {
        docs := docs[id := PreSave(w, now)];
      }
    }

    /** `Workspace.findByIdAndUpdate(id, { $pull: { nodes: node } })`: no
        hook runs, so `updatedAt` is left as it was. */
    method PullNode(id: WorkspaceId, node: NodeId)
      modifies this
      ensures docs == if id in old(docs)
        then old(docs)[id := old(docs)[id].(nodes := Filter(old(docs)[id].nodes, Other(node)))]
        else old(docs)
      ensures old(Valid()) ==> Valid()
    {
      if id in docs {
        docs := docs[id := docs[id].(nodes := Filter(docs[id].nodes, Other(node)))];
      }
    }
  }
}
