/** The workspace handlers (controllers/workspaceController.js). Each loads
    one workspace, checks the caller's membership or role, changes the
    record and saves it; creating, adding and removing a member also update
    the affected user's workspace list. Each method is tied to a step
    function over the collections' values; the lemmas state what the steps
    promise. */
module WorkspaceController {
  import opened Common
  import opened WorkspaceModel
  import opened UserModel

  type Workspaces = map<WorkspaceId, Workspace>
  type UserLists = map<UserId, seq<WorkspaceId>>

  const AccessForbidden := HttpError(403, "Not authorized to access this workspace")
  const UpdateForbidden := HttpError(403, "Not authorized to update workspace")
  const AddForbidden := HttpError(403, "Not authorized to add members")
  const AlreadyMember := HttpError(400, "User is already a member")
  const RemoveForbidden := HttpError(403, "Not authorized to remove members")
  const OwnerNotRemovable := HttpError(400, "Cannot remove workspace owner")

  /** The request body's `settings`: the keys it carries. */
  datatype SettingsPatch = SettingsPatch(
    theme: Option<string>,
    defaultPermissions: Option<DefaultPermissions>,
    integrations: Option<map<string, Json>>)

  /** The request body of an update. */
  datatype WorkspacePatch = WorkspacePatch(
    name: Option<string>,
    description: Option<string>,
    settings: Option<SettingsPatch>,
    tags: Option<seq<string>>)

  /** `{ ...settings, ...patch }`: a shallow merge in which every key the
      patch carries overrides. */
  function MergeSettings(s: Settings, p: SettingsPatch): Settings
  {
    Settings(
      if p.theme.Some? then p.theme.value else s.theme,
      if p.defaultPermissions.Some? then p.defaultPermissions.value else s.defaultPermissions,
      if p.integrations.Some? then p.integrations.value else s.integrations)
  }

  /** The field assignments of `updateWorkspace`. */
  function ApplyPatch(w: Workspace, p: WorkspacePatch): Workspace
  {
    w.(name := if p.name.Some? && p.name.value != "" then Trim(p.name.value) else w.name,
       description := if p.description.Some? then p.description.value else w.description,
       settings := if p.settings.Some? then MergeSettings(w.settings, p.settings.value) else w.settings,
       tags := if p.tags.Some? then p.tags.value else w.tags)
  }

  /** The document `createWorkspace` builds before saving it. */
  function Created(caller: UserId, name: Option<string>, description: Option<string>, tags: Option<seq<string>>, now: Time): Workspace
  {
    NewWorkspace(AssignTrimmed(name), StringOr(description, ""), caller, [Member(caller, OwnerRole, now)],
                 if tags.Some? then tags.value else [], now)
  }

  /** `createWorkspace`. */
  function CreateStep(docs: Workspaces, lists: UserLists, id: WorkspaceId, caller: UserId,
                      name: Option<string>, description: Option<string>, tags: Option<seq<string>>, now: Time)
    : (Workspaces, UserLists, Result<Workspace>)
  {
    var w := Created(caller, name, description, tags, now);
    if !Validates(w) then (docs, lists, Err(ServerError))
    else (docs[id := PreSave(w, now)], PushWorkspace(lists, caller, id), Ok(PreSave(w, now)))
  }

  /** `getWorkspace` (controllers/workspaceController.js:39-66): only users
      listed in `members` may read; being the owner is not checked. */
  function GetWorkspace(docs: Workspaces, id: WorkspaceId, caller: UserId): (r: Result<Workspace>)
    ensures r == Err(WorkspaceNotFound) <==> id !in docs
    ensures r == Err(AccessForbidden) <==> id in docs && !IsMember(docs[id].members, caller)
    ensures r.Ok? <==> id in docs && IsMember(docs[id].members, caller)
    ensures r.Ok? ==> r.value == docs[id]
  {
    if id !in docs then Err(WorkspaceNotFound)
    else if !IsMember(docs[id].members, caller) then Err(AccessForbidden)
    else Ok(docs[id])
  }

  /** `updateWorkspace`. */
  function UpdateStep(docs: Workspaces, id: WorkspaceId, caller: UserId, patch: WorkspacePatch, now: Time)
    : (Workspaces, Result<Workspace>)
  {
    if id !in docs then (docs, Err(WorkspaceNotFound))
    else if !CanAdminister(docs[id].members, caller) then (docs, Err(UpdateForbidden))
    else
      var w := ApplyPatch(docs[id], patch);
      if !Validates(w) then (docs, Err(ServerError))
      else (docs[id := PreSave(w, now)], Ok(PreSave(w, now)))
  }

  /** `addMember`. */
  function AddMemberStep(docs: Workspaces, lists: UserLists, id: WorkspaceId, caller: UserId,
                         target: UserId, role: Option<string>, now: Time)
    : (Workspaces, UserLists, Result<string>)
  {
    if id !in docs then (docs, lists, Err(WorkspaceNotFound))
    else if !CanAdminister(docs[id].members, caller) then (docs, lists, Err(AddForbidden))
    else if IsMember(docs[id].members, target) then (docs, lists, Err(AlreadyMember))
    else match ParseRole(StringOr(role, DefaultRoleName))
      case None => (docs, lists, Err(ServerError))
      case Some(rl) =>
        var w := docs[id].(members := docs[id].members + [Member(target, rl, now)]);
        if !Validates(w) then (docs, lists, Err(ServerError))
        else (docs[id := PreSave(w, now)], PushWorkspace(lists, target, id), Ok("Member added successfully"))
  }

  /** `removeMember`. */
  function RemoveMemberStep(docs: Workspaces, lists: UserLists, id: WorkspaceId, caller: UserId,
                            target: UserId, now: Time)
    : (Workspaces, UserLists, Result<string>)
  {
    if id !in docs then (docs, lists, Err(WorkspaceNotFound))
    else if !CanAdminister(docs[id].members, caller) then (docs, lists, Err(RemoveForbidden))
    else if docs[id].owner == target then (docs, lists, Err(OwnerNotRemovable))
    else
      var w := docs[id].(members := Filter(docs[id].members, NotMember(target)));
      if !Validates(w) then (docs, lists, Err(ServerError))
      else (docs[id := PreSave(w, now)], PullWorkspace(lists, target, id), Ok("Member removed successfully"))
  }

  /** What the handlers keep true of every workspace: it is stored as the
      schema demands, no user is listed twice, and the owner is listed with
      the `owner` role. */
  ghost predicate WellFormed(w: Workspace)
  {
    && Stored(w)
    && UniqueMembers(w.members)
    && FindMember(w.members, w.owner).Some?
    && w.members[FindMember(w.members, w.owner).value].role == OwnerRole
  }

  ghost predicate AllWellFormed(docs: Workspaces)
  {
    forall id :: id in docs ==> WellFormed(docs[id])
  }

  // ----- creation and reading -----

  /** A created workspace has the caller as owner and as its one member,
      with role `owner`; description and tags default to '' and []; the
      settings are the schema defaults; it is well formed. Creation fails
      exactly when the name is missing or all whitespace. */
  lemma CreateShape(docs: Workspaces, lists: UserLists, id: WorkspaceId, caller: UserId,
                    name: Option<string>, description: Option<string>, tags: Option<seq<string>>, now: Time)
    ensures var (d, l, r) := CreateStep(docs, lists, id, caller, name, description, tags, now);
      && (r.Err? <==> name.None? || forall i :: 0 <= i < |name.value| ==> IsWhitespace(name.value[i]))
      && (r.Err? ==> d == docs && l == lists && r == Err(ServerError))
      && (r.Ok? ==>
            && d == docs[id := r.value] && l == PushWorkspace(lists, caller, id)
            && r.value.owner == caller
            && r.value.members == [Member(caller, OwnerRole, now)]
            && r.value.description == (if description.Some? then description.value else "")
            && r.value.tags == (if tags.Some? then tags.value else [])
            && r.value.nodes == []
            && r.value.settings.theme == "galaxy"
            && r.value.settings.defaultPermissions == DefaultPermissions("workspace", true)
            && r.value.isActive
            && r.value.updatedAt == now
            && WellFormed(r.value))
  {
    if name.Some? {
      TrimEmptyIff(name.value);
      TrimIdempotent(name.value);
    }
  }

  /** Being the owner does not grant reading: an owner missing from
      `members` is refused. */
  lemma OwnershipAloneDoesNotGrantAccess(docs: Workspaces, id: WorkspaceId)
    requires id in docs && !IsMember(docs[id].members, docs[id].owner)
    ensures GetWorkspace(docs, id, docs[id].owner) == Err(AccessForbidden)
  {
  }

  // ----- authorization and error paths -----

  /** In a well-formed workspace the owner passes the owner/admin test. */
  lemma OwnerCanAdminister(w: Workspace)
    requires WellFormed(w)
    ensures CanAdminister(w.members, w.owner)
  {
  }

  /** An update succeeds only for a caller whose members entry has role
      owner or admin, is refused with 403 for any other member or
      stranger, and leaves the workspaces unchanged whenever it fails. */
  lemma UpdateNeedsAdministrator(docs: Workspaces, id: WorkspaceId, caller: UserId, patch: WorkspacePatch, now: Time)
    ensures var (d, r) := UpdateStep(docs, id, caller, patch, now);
      && (r.Ok? ==> id in docs && CanAdminister(docs[id].members, caller))
      && (r.Err? ==> d == docs)
      && (id in docs && !CanAdminister(docs[id].members, caller) ==> r == Err(UpdateForbidden))
  {
  }

  /** Adding a member succeeds only for an owner or admin caller, is
      refused with 403 otherwise, and changes nothing whenever it fails. */
  lemma AddMemberNeedsAdministrator(docs: Workspaces, lists: UserLists, id: WorkspaceId, caller: UserId,
                                    target: UserId, role: Option<string>, now: Time)
    ensures var (d, l, r) := AddMemberStep(docs, lists, id, caller, target, role, now);
      && (r.Ok? ==> id in docs && CanAdminister(docs[id].members, caller))
      && (r.Err? ==> d == docs && l == lists)
      && (id in docs && !CanAdminister(docs[id].members, caller) ==> r == Err(AddForbidden))
  {
  }

  /** Removing a member succeeds only for an owner or admin caller, is
      refused with 403 otherwise, and changes nothing whenever it fails. */
  lemma RemoveMemberNeedsAdministrator(docs: Workspaces, lists: UserLists, id: WorkspaceId, caller: UserId,
                                       target: UserId, now: Time)
    ensures var (d, l, r) := RemoveMemberStep(docs, lists, id, caller, target, now);
      && (r.Ok? ==> id in docs && CanAdminister(docs[id].members, caller))
      && (r.Err? ==> d == docs && l == lists)
      && (id in docs && !CanAdminister(docs[id].members, caller) ==> r == Err(RemoveForbidden))
  {
  }

  // ----- update -----

  /** An update changes the name only when a non-empty one is supplied
      (storing it trimmed), the description when one is defined, the
      settings by a shallow merge in which supplied keys override, and the
      tags when supplied; owner, members, nodes and the rest stay. */
  lemma ApplyPatchEffect(w: Workspace, p: WorkspacePatch)
    ensures var w' := ApplyPatch(w, p);
      && w'.(name := w.name, description := w.description, settings := w.settings, tags := w.tags) == w
      && (p.name.Some? && p.name.value != "" ==> w'.name == Trim(p.name.value))
      && (p.name.None? || p.name.value == "" ==> w'.name == w.name)
      && (p.description.Some? ==> w'.description == p.description.value)
      && (p.description.None? ==> w'.description == w.description)
      && (p.tags.Some? ==> w'.tags == p.tags.value)
      && (p.tags.None? ==> w'.tags == w.tags)
      && (p.settings.None? ==> w'.settings == w.settings)
      && (p.settings.Some? ==>
            && (p.settings.value.theme.Some? ==> w'.settings.theme == p.settings.value.theme.value)
            && (p.settings.value.theme.None? ==> w'.settings.theme == w.settings.theme)
            && (p.settings.value.defaultPermissions.Some? ==> w'.settings.defaultPermissions == p.settings.value.defaultPermissions.value)
            && (p.settings.value.defaultPermissions.None? ==> w'.settings.defaultPermissions == w.settings.defaultPermissions)
            && (p.settings.value.integrations.Some? ==> w'.settings.integrations == p.settings.value.integrations.value)
            && (p.settings.value.integrations.None? ==> w'.settings.integrations == w.settings.integrations))
  {
  }

  /** A name that is supplied but all whitespace passes the handler's
      truthiness test, is trimmed to "" and is then refused by validation,
      leaving the workspace as it was. */
  lemma BlankNameUpdateRefused(docs: Workspaces, id: WorkspaceId, caller: UserId, patch: WorkspacePatch, now: Time)
    requires id in docs && CanAdminister(docs[id].members, caller)
    requires patch.name.Some? && patch.name.value != ""
    requires forall i :: 0 <= i < |patch.name.value| ==> IsWhitespace(patch.name.value[i])
    ensures UpdateStep(docs, id, caller, patch, now) == (docs, Err(ServerError))
  {
    TrimEmptyIff(patch.name.value);
  }

  // ----- membership -----

  /** A successful addition appends exactly one entry, for a user who was
      not a member, with the given role or `member`; so members stay unique
      and the owner's entry is still the first one for the owner. */
  lemma AddMemberEffect(docs: Workspaces, lists: UserLists, id: WorkspaceId, caller: UserId,
                        target: UserId, role: Option<string>, now: Time)
    requires id in docs
    ensures var (d, l, r) := AddMemberStep(docs, lists, id, caller, target, role, now);
      && (CanAdminister(docs[id].members, caller) && IsMember(docs[id].members, target) ==> r == Err(AlreadyMember))
      && (r.Ok? ==>
            && !IsMember(docs[id].members, target)
            && id in d && d == docs[id := d[id]] && l == PushWorkspace(lists, target, id)
            && d[id].members == docs[id].members + [Member(target, ParseRole(StringOr(role, DefaultRoleName)).value, now)]
            && (role.None? || role.value == "" ==> d[id].members[|docs[id].members|].role == MemberRole)
            && (WellFormed(docs[id]) ==> WellFormed(d[id])))
  {
    var (d, l, r) := AddMemberStep(docs, lists, id, caller, target, role, now);
    if r.Ok? {
      var m := docs[id].members;
      var x := d[id].members[|m|];
      FirstIndexAppend(m, x, MemberOf(docs[id].owner));
      assert d[id].members == m + [x];
    }
  }

  /** A removal never removes the owner: it is refused with 400. Otherwise
      it removes exactly the target's entries and keeps all others in their
      order; members stay unique and the owner keeps an `owner` entry. */
  lemma RemoveMemberEffect(docs: Workspaces, lists: UserLists, id: WorkspaceId, caller: UserId,
                           target: UserId, now: Time)
    requires id in docs
    ensures var (d, l, r) := RemoveMemberStep(docs, lists, id, caller, target, now);
      && (CanAdminister(docs[id].members, caller) && docs[id].owner == target ==> r == Err(OwnerNotRemovable) && d == docs)
      && (r.Ok? ==>
            && target != docs[id].owner
            && id in d && d == docs[id := d[id]] && l == PullWorkspace(lists, target, id)
            && d[id].members == Filter(docs[id].members, NotMember(target))
            && !IsMember(d[id].members, target)
            && (forall j :: 0 <= j < |docs[id].members| && docs[id].members[j].user != target ==>
                  docs[id].members[j] in d[id].members)
            && (WellFormed(docs[id]) ==> WellFormed(d[id])))
  {
    var (d, l, r) := RemoveMemberStep(docs, lists, id, caller, target, now);
    if r.Ok? {
      var w := docs[id].(members := Filter(docs[id].members, NotMember(target)));
      assert d == docs[id := PreSave(w, now)];
      RemovedMembers(docs[id].members, target);
      if WellFormed(docs[id]) {
        RemovedKeepsOwner(docs[id], target);
      }
    }
  }

  /** Dropping every entry of a user leaves no entry of that user and
      keeps every other entry. */
  lemma RemovedMembers(m: seq<Member>, target: UserId)
    ensures var f := Filter(m, NotMember(target));
      && !IsMember(f, target)
      && (forall j :: 0 <= j < |m| && m[j].user != target ==> m[j] in f)
  {
    var f := Filter(m, NotMember(target));
    forall j | 0 <= j < |f| ensures f[j].user != target {
      assert f[j] in f;
    }
  }

  /** Dropping every entry of a user other than the owner keeps a
      workspace well formed: the owner's entry, the first and only one,
      survives. */
  lemma RemovedKeepsOwner(w: Workspace, target: UserId)
    requires target != w.owner && WellFormed(w)
    ensures WellFormed(w.(members := Filter(w.members, NotMember(target))))
  {
    var m := w.members;
    var f := Filter(m, NotMember(target));
    var i := FindMember(m, w.owner).value;
    assert m[i] in f;
    var k :| 0 <= k < |f| && f[k] == m[i];
    var o := FindMember(f, w.owner).value;
    assert f[o] in m;
    var j :| 0 <= j < |m| && m[j] == f[o];
    assert j == i;
    FilterUnique(m, target);
  }

  /** Removing entries from a duplicate-free members list keeps it
      duplicate-free. */
  lemma FilterUnique(m: seq<Member>, target: UserId)
    requires UniqueMembers(m)
    ensures UniqueMembers(Filter(m, NotMember(target)))
  {
    var f := Filter(m, NotMember(target));
    forall a, b | 0 <= a < b < |f| ensures f[a].user != f[b].user {
      FilterPositions(m, target, a, b);
    }
  }

  /** Filtering keeps relative order, so two positions of the filtered
      members come from two increasing positions of the original. */
  lemma {:induction false} FilterPositions(m: seq<Member>, target: UserId, a: nat, b: nat)
    requires UniqueMembers(m)
    requires a < b < |Filter(m, NotMember(target))|
    ensures Filter(m, NotMember(target))[a].user != Filter(m, NotMember(target))[b].user
  {
    var f := Filter(m, NotMember(target));
    var rest := Filter(m[1..], NotMember(target));
    UniqueTail(m);
    if NotMember(target)(m[0]) {
      assert f == [m[0]] + rest;
      if a == 0 {
        assert f[a].user != f[b].user by {
          var x := rest[b - 1];
          assert f[b] == x;
          assert x in m[1..];
          var j :| 0 <= j < |m[1..]| && m[1..][j] == x;
          assert m[j + 1] == x;
        }
      } else {
        assert f[a].user != f[b].user by {
          FilterPositions(m[1..], target, a - 1, b - 1);
          assert f[a] == rest[a - 1] && f[b] == rest[b - 1];
        }
      }
    } else {
      assert f == rest;
      FilterPositions(m[1..], target, a, b);
    }
  }

  /** Dropping the first entry keeps the members distinct. */
  lemma UniqueTail(m: seq<Member>)
    requires UniqueMembers(m) && m != []
    ensures UniqueMembers(m[1..])
  {
    forall i, j | 0 <= i < j < |m| - 1 ensures m[1..][i].user != m[1..][j].user {
      assert m[1..][i] == m[i + 1] && m[1..][j] == m[j + 1];
    }
  }

  /** Creating a workspace keeps every workspace well formed. */
  lemma CreateKeepsWellFormed(docs: Workspaces, lists: UserLists, id: WorkspaceId, caller: UserId,
                              name: Option<string>, description: Option<string>, tags: Option<seq<string>>, now: Time)
    requires AllWellFormed(docs)
    ensures AllWellFormed(CreateStep(docs, lists, id, caller, name, description, tags, now).0)
  {
    CreateShape(docs, lists, id, caller, name, description, tags, now);
  }

  /** Updating a workspace keeps every workspace well formed: the name is
      stored trimmed and the members list is not touched. */
  lemma UpdateKeepsWellFormed(docs: Workspaces, id: WorkspaceId, caller: UserId, patch: WorkspacePatch, now: Time)
    requires AllWellFormed(docs)
    ensures AllWellFormed(UpdateStep(docs, id, caller, patch, now).0)
  {
    var (d, r) := UpdateStep(docs, id, caller, patch, now);
    if r.Ok? {
      var w := ApplyPatch(docs[id], patch);
      assert d == docs[id := PreSave(w, now)];
      if patch.name.Some? && patch.name.value != "" {
        TrimIdempotent(patch.name.value);
      }
      assert Trim(w.name) == w.name;
      assert WellFormed(d[id]);
      forall i | i in d ensures WellFormed(d[i]) {
        if i != id {
          assert d[i] == docs[i];
        }
      }
    }
  }

  /** Adding a member keeps every workspace well formed. */
  lemma AddMemberKeepsWellFormed(docs: Workspaces, lists: UserLists, id: WorkspaceId, caller: UserId,
                                 target: UserId, role: Option<string>, now: Time)
    requires AllWellFormed(docs)
    ensures AllWellFormed(AddMemberStep(docs, lists, id, caller, target, role, now).0)
  {
    var (d, l, r) := AddMemberStep(docs, lists, id, caller, target, role, now);
    if r.Ok? {
      AddMemberEffect(docs, lists, id, caller, target, role, now);
      assert WellFormed(d[id]);
      forall i | i in d ensures WellFormed(d[i]) {
        if i != id {
          assert d[i] == docs[i];
        }
      }
    }
  }

  /** Removing a member keeps every workspace well formed. */
  lemma RemoveMemberKeepsWellFormed(docs: Workspaces, lists: UserLists, id: WorkspaceId, caller: UserId,
                                    target: UserId, now: Time)
    requires AllWellFormed(docs)
    ensures AllWellFormed(RemoveMemberStep(docs, lists, id, caller, target, now).0)
  {
    var (d, l, r) := RemoveMemberStep(docs, lists, id, caller, target, now);
    if r.Ok? {
      RemoveMemberEffect(docs, lists, id, caller, target, now);
      assert WellFormed(d[id]);
      forall i | i in d ensures WellFormed(d[i]) {
        if i != id {
          assert d[i] == docs[i];
        }
      }
    }
  }

  // ----- the handlers -----

  /** createWorkspace (controllers/workspaceController.js:6-36). */
  method CreateWorkspace(workspaces: WorkspaceCollection, users: UserCollection, id: WorkspaceId, caller: UserId,
                         name: Option<string>, description: Option<string>, tags: Option<seq<string>>, now: Time)
    returns (r: Result<Workspace>)
    requires id !in workspaces.docs
    modifies workspaces, users
    ensures (workspaces.docs, users.workspaces, r) ==
      CreateStep(old(workspaces.docs), old(users.workspaces), id, caller, name, description, tags, now)
    ensures old(workspaces.Valid()) ==> workspaces.Valid()
  {
    var w := Created(caller, name, description, tags, now);
    if name.Some? {
      TrimIdempotent(name.value);
    }
    var ok := workspaces.Save(id, w, now);
    if !ok {
      r := Err(ServerError);
      return;
    }
    users.Push(caller, id);
    r := Ok(PreSave(w, now));
  }

  /** updateWorkspace (controllers/workspaceController.js:89-123). */
  method UpdateWorkspace(workspaces: WorkspaceCollection, id: WorkspaceId, caller: UserId, patch: WorkspacePatch, now: Time)
    returns (r: Result<Workspace>)
    modifies workspaces
    ensures (workspaces.docs, r) == UpdateStep(old(workspaces.docs), id, caller, patch, now)
    ensures old(workspaces.Valid()) ==> workspaces.Valid()
  {
    if id !in workspaces.docs {
      r := Err(WorkspaceNotFound);
      return;
    }
    var w := workspaces.docs[id];
    if !CanAdminister(w.members, caller) {
      r := Err(UpdateForbidden);
      return;
    }
    if patch.name.Some? && patch.name.value != "" {
      w := w.(name := Trim(patch.name.value));
      TrimIdempotent(patch.name.value);
    }
    if patch.description.Some? {
      w := w.(description := patch.description.value);
    }
    if patch.settings.Some? {
      w := w.(settings := MergeSettings(w.settings, patch.settings.value));
    }
    if patch.tags.Some? {
      w := w.(tags := patch.tags.value);
    }
    var ok := workspaces.Save(id, w, now);
    r := if ok then Ok(PreSave(w, now)) else Err(ServerError);
  }

  /** addMember (controllers/workspaceController.js:126-174). */
  method AddMember(workspaces: WorkspaceCollection, users: UserCollection, id: WorkspaceId, caller: UserId,
                   target: UserId, role: Option<string>, now: Time)
    returns (r: Result<string>)
    modifies workspaces, users
    ensures (workspaces.docs, users.workspaces, r) ==
      AddMemberStep(old(workspaces.docs), old(users.workspaces), id, caller, target, role, now)
    ensures old(workspaces.Valid()) ==> workspaces.Valid()
  {
    if id !in workspaces.docs {
      r := Err(WorkspaceNotFound);
      return;
    }
    var w := workspaces.docs[id];
    if !CanAdminister(w.members, caller) {
      r := Err(AddForbidden);
      return;
    }
    if IsMember(w.members, target) {
      r := Err(AlreadyMember);
      return;
    }
    var parsed := ParseRole(StringOr(role, DefaultRoleName));
    if parsed.None? {
      r := Err(ServerError);
      return;
    }
    w := w.(members := w.members + [Member(target, parsed.value, now)]);
    var ok := workspaces.Save(id, w, now);
    if !ok {
      r := Err(ServerError);
      return;
    }
    users.Push(target, id);
    r := Ok("Member added successfully");
  }

  /** removeMember (controllers/workspaceController.js:177-220). */
  method RemoveMember(workspaces: WorkspaceCollection, users: UserCollection, id: WorkspaceId, caller: UserId,
                      target: UserId, now: Time)
    returns (r: Result<string>)
    modifies workspaces, users
    ensures (workspaces.docs, users.workspaces, r) ==
      RemoveMemberStep(old(workspaces.docs), old(users.workspaces), id, caller, target, now)
    ensures old(workspaces.Valid()) ==> workspaces.Valid()
  {
    if id !in workspaces.docs {
      r := Err(WorkspaceNotFound);
      return;
    }
    var w := workspaces.docs[id];
    if !CanAdminister(w.members, caller) {
      r := Err(RemoveForbidden);
      return;
    }
    if w.owner == target {
      r := Err(OwnerNotRemovable);
      return;
    }
    w := w.(members := Filter(w.members, NotMember(target)));
    var ok := workspaces.Save(id, w, now);
    if !ok {
      r := Err(ServerError);
      return;
    }
    users.Pull(target, id);
    r := Ok("Member removed successfully");
  }
}
