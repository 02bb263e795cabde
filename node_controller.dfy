/** The node handlers (controllers/nodeController.js): creating a node in a
    workspace, reading it under its visibility, editing it with a version
    bump, deleting it and linking it to another node. Each method is tied to
    a step function over the collections' values; the lemmas state what the
    steps promise. */
module NodeController {
  import opened Common
  import opened NodeModel
  import WorkspaceModel
  import WorkspaceController

  type Nodes = map<NodeId, Node>
  type Workspaces = map<WorkspaceId, WorkspaceModel.Workspace>

  const CreateForbidden := HttpError(403, "Not authorized to create node in this workspace")
  const NodeNotFound := HttpError(404, "Node not found")
  const ViewForbidden := HttpError(403, "Not authorized to view this node")
  const EditForbidden := HttpError(403, "Not authorized to edit this node")
  const DeleteForbidden := HttpError(403, "Not authorized to delete this node")
  const TargetNotFound := HttpError(404, "Target node not found")
  const EdgeExists := HttpError(400, "Edge already exists")

  /** The edge type a request gets when it names none. */
  const DefaultEdgeTypeName := "linked"

  /** The permissions a new node gets: visible to the workspace, with the
      creator alone allowed to view, edit and manage. */
  function CreatorPermissions(caller: UserId): Permissions
  {
    Permissions(DefaultVisibilityName, [caller], [caller], [caller])
  }

  /** The node `createNode` builds before saving it. */
  function Created(caller: UserId, wid: WorkspaceId, title: Option<string>, nodeType: NodeType,
                   content: Option<Json>, position: Option<Position>, color: Option<string>, now: Time): Node
  {
    NewNode(AssignTrimmed(title), nodeType, JsonOr(content, JObj(map[])), caller, wid,
            if position.Some? then position.value else Origin, StringOr(color, DefaultColor),
            CreatorPermissions(caller), now)
  }

  /** `createNode`: the node is saved first, and the workspace, with the new
      id appended to its `nodes`, second; a failure of the second save
      leaves the first in place. */
  function CreateStep(nodes: Nodes, workspaces: Workspaces, id: NodeId, caller: UserId, wid: WorkspaceId,
                      title: Option<string>, nodeType: Option<string>, content: Option<Json>,
                      position: Option<Position>, color: Option<string>, now: Time)
    : (Nodes, Workspaces, Result<Node>)
  {
    if wid !in workspaces then (nodes, workspaces, Err(WorkspaceNotFound))
    else if !WorkspaceModel.IsMember(workspaces[wid].members, caller) && workspaces[wid].owner != caller then
      (nodes, workspaces, Err(CreateForbidden))
    else match ParseNodeType(StringOr(nodeType, DefaultNodeTypeName))
      case None => (nodes, workspaces, Err(ServerError))
      case Some(t) =>
        var n := Created(caller, wid, title, t, content, position, color, now);
        if !Validates(n) then (nodes, workspaces, Err(ServerError))
        else
          var nodes' := nodes[id := PreSave(n, now)];
          var w := workspaces[wid].(nodes := workspaces[wid].nodes + [id]);
          if !WorkspaceModel.Validates(w) then (nodes', workspaces, Err(ServerError))
          else (nodes', workspaces[wid := WorkspaceModel.PreSave(w, now)], Ok(PreSave(n, now)))
  }

  /** `getNode` (controllers/nodeController.js:58-83): a node is hidden only
      when it is private and the caller is not in `canView`. */
  function GetNode(nodes: Nodes, id: NodeId, caller: UserId): (r: Result<Node>)
    ensures r == Err(NodeNotFound) <==> id !in nodes
    ensures r == Err(ViewForbidden) <==>
      id in nodes && nodes[id].permissions.visibility == "private" && caller !in nodes[id].permissions.canView
    ensures r.Ok? ==> id in nodes && r.value == nodes[id]
    ensures id in nodes && nodes[id].permissions.visibility != "private" ==> r == Ok(nodes[id])
  {
    if id !in nodes then Err(NodeNotFound)
    else if nodes[id].permissions.visibility == "private" && caller !in nodes[id].permissions.canView then
      Err(ViewForbidden)
    else Ok(nodes[id])
  }

  /** The request body of an update: the fields it defines. */
  datatype NodePatch = NodePatch(
    title: Option<string>,
    content: Option<Json>,
    position: Option<Position>,
    color: Option<string>,
    rings: Option<seq<Ring>>,
    permissions: Option<Permissions>)

  /** The field assignments of `updateNode`, each made only when the body
      defines the field, followed by the editor and the version bump. */
  function ApplyPatch(n: Node, p: NodePatch, caller: UserId): Node
  {
    n.(title := if p.title.Some? then Trim(p.title.value) else n.title,
       content := if p.content.Some? then p.content.value else n.content,
       position := if p.position.Some? then p.position.value else n.position,
       color := if p.color.Some? then p.color.value else n.color,
       rings := if p.rings.Some? then p.rings.value else n.rings,
       permissions := if p.permissions.Some? then p.permissions.value else n.permissions,
       lastEditedBy := Some(caller),
       version := n.version + 1)
  }

  /** `updateNode`. */
  function UpdateStep(nodes: Nodes, id: NodeId, caller: UserId, patch: NodePatch, now: Time): (Nodes, Result<Node>)
  {
    if id !in nodes then (nodes, Err(NodeNotFound))
    else if caller !in nodes[id].permissions.canEdit then (nodes, Err(EditForbidden))
    else
      var n := ApplyPatch(nodes[id], patch, caller);
      if !Validates(n) then (nodes, Err(ServerError))
      else (nodes[id := PreSave(n, now)], Ok(PreSave(n, now)))
  }

  /** `$pull: { nodes: id }` on one workspace, when it exists. */
  function PullNode(workspaces: Workspaces, wid: WorkspaceId, id: NodeId): Workspaces
  {
    if wid in workspaces then workspaces[wid := workspaces[wid].(nodes := Filter(workspaces[wid].nodes, Other(id)))]
    else workspaces
  }

  /** `deleteNode`. */
  function DeleteStep(nodes: Nodes, workspaces: Workspaces, id: NodeId, caller: UserId)
    : (Nodes, Workspaces, Result<string>)
  {
    if id !in nodes then (nodes, workspaces, Err(NodeNotFound))
    else if caller !in nodes[id].permissions.canManage then (nodes, workspaces, Err(DeleteForbidden))
    else (nodes - {id}, PullNode(workspaces, nodes[id].workspace, id), Ok("Node deleted successfully"))
  }

  function HasTarget(t: NodeId): Edge -> bool
  {
    (e: Edge) => e.target == t
  }

  /** `strength || 1`: a missing or zero strength becomes 1. */
  function EdgeStrength(strength: Option<real>): real
  {
    if strength.None? || strength.value == 0.0 then DefaultStrength else strength.value
  }

  /** `addEdge`. Nothing checks the caller's permissions. */
  function AddEdgeStep(nodes: Nodes, id: NodeId, target: NodeId, edgeType: Option<string>,
                       edgeLabel: Option<string>, strength: Option<real>, now: Time)
    : (Nodes, Result<Edge>)
  {
    if id !in nodes then (nodes, Err(NodeNotFound))
    else if target !in nodes then (nodes, Err(TargetNotFound))
    else if FirstIndex(nodes[id].edges, HasTarget(target)).Some? then (nodes, Err(EdgeExists))
    else match ParseEdgeType(StringOr(edgeType, DefaultEdgeTypeName))
      case None => (nodes, Err(ServerError))
      case Some(k) =>
        var e := Edge(target, k, StringOr(edgeLabel, ""), EdgeStrength(strength));
        var n := nodes[id].(edges := nodes[id].edges + [e]);
        if !Validates(n) then (nodes, Err(ServerError))
        else (nodes[id := PreSave(n, now)], Ok(e))
  }

  // ----- creation -----

  /** The node `createNode` builds validates exactly when the title is not
      blank; it is then stored as the schema demands. */
  lemma CreatedValidates(caller: UserId, wid: WorkspaceId, title: Option<string>, nodeType: NodeType,
                         content: Option<Json>, position: Option<Position>, color: Option<string>, now: Time)
    ensures var n := Created(caller, wid, title, nodeType, content, position, color, now);
      && (Validates(n) <==> title.Some? && !(forall i :: 0 <= i < |title.value| ==> IsWhitespace(title.value[i])))
      && (Validates(n) ==> Stored(n) && UniqueTargets(n.edges))
  {
    if title.Some? {
      TrimEmptyIff(title.value);
      TrimIdempotent(title.value);
    }
  }

  /** Creating a node: 404 exactly when the workspace is missing; 403 for a
      caller who is neither listed in `members` nor the owner. */
  lemma CreateRefusals(nodes: Nodes, workspaces: Workspaces, id: NodeId, caller: UserId, wid: WorkspaceId,
                       title: Option<string>, nodeType: Option<string>, content: Option<Json>,
                       position: Option<Position>, color: Option<string>, now: Time)
    ensures var (ns, ws, r) := CreateStep(nodes, workspaces, id, caller, wid, title, nodeType, content, position, color, now);
      && (r == Err(WorkspaceNotFound) <==> wid !in workspaces)
      && (wid in workspaces && !WorkspaceModel.IsMember(workspaces[wid].members, caller) && workspaces[wid].owner != caller ==>
            r == Err(CreateForbidden) && ns == nodes && ws == workspaces)
      && (r.Ok? ==>
            wid in workspaces && (WorkspaceModel.IsMember(workspaces[wid].members, caller) || workspaces[wid].owner == caller))
  {
  }

  /** For an authorized caller and a stored workspace, creating a node
      succeeds exactly when the title is not blank and the type is an enum
      value, and a failure changes nothing: the workspace save that follows
      the node's cannot fail. */
  lemma CreateOutcome(nodes: Nodes, workspaces: Workspaces, id: NodeId, caller: UserId, wid: WorkspaceId,
                      title: Option<string>, nodeType: Option<string>, content: Option<Json>,
                      position: Option<Position>, color: Option<string>, now: Time)
    requires wid in workspaces && WorkspaceModel.Stored(workspaces[wid])
    requires WorkspaceModel.IsMember(workspaces[wid].members, caller) || workspaces[wid].owner == caller
    ensures var (ns, ws, r) := CreateStep(nodes, workspaces, id, caller, wid, title, nodeType, content, position, color, now);
      && (r.Ok? <==>
            && title.Some? && !(forall i :: 0 <= i < |title.value| ==> IsWhitespace(title.value[i]))
            && StringOr(nodeType, DefaultNodeTypeName) in ["note", "task", "document", "collection", "media", "project", "idea"])
      && (r.Err? ==> ns == nodes && ws == workspaces)
  {
    var pt := ParseNodeType(StringOr(nodeType, DefaultNodeTypeName));
    if pt.Some? {
      CreatedValidates(caller, wid, title, pt.value, content, position, color, now);
    }
  }

  /** A created node carries the defaults (type `note`, content `{}`, the
      origin, the purple color), the caller as owner and as sole holder of
      every permission, version 1 and no edges. */
  lemma CreateDefaults(nodes: Nodes, workspaces: Workspaces, id: NodeId, caller: UserId, wid: WorkspaceId,
                    title: Option<string>, nodeType: Option<string>, content: Option<Json>,
                    position: Option<Position>, color: Option<string>, now: Time)
    ensures var (ns, ws, r) := CreateStep(nodes, workspaces, id, caller, wid, title, nodeType, content, position, color, now);
      r.Ok? ==>
        && title.Some? && r.value.title == Trim(title.value)
        && (nodeType.None? || nodeType.value == "" ==> r.value.nodeType == Note)
        && (content.None? || FalsyJson(content.value) ==> r.value.content == JObj(map[]))
        && (position.None? ==> r.value.position == Origin)
        && (color.None? || color.value == "" ==> r.value.color == DefaultColor)
        && r.value.owner == caller && r.value.workspace == wid
        && r.value.permissions == Permissions("workspace", [caller], [caller], [caller])
        && r.value.version == 1 && r.value.edges == [] && r.value.lastEditedBy.None?
  {
    var (ns, ws, r) := CreateStep(nodes, workspaces, id, caller, wid, title, nodeType, content, position, color, now);
    if r.Ok? {
      var t := ParseNodeType(StringOr(nodeType, DefaultNodeTypeName)).value;
      assert r.value == PreSave(Created(caller, wid, title, t, content, position, color, now), now);
    }
  }

  /** A created node is stored under its id, and its id is appended to
      the workspace's `nodes`; nothing else changes. */
  lemma CreateLinks(nodes: Nodes, workspaces: Workspaces, id: NodeId, caller: UserId, wid: WorkspaceId,
                    title: Option<string>, nodeType: Option<string>, content: Option<Json>,
                    position: Option<Position>, color: Option<string>, now: Time)
    ensures var (ns, ws, r) := CreateStep(nodes, workspaces, id, caller, wid, title, nodeType, content, position, color, now);
      r.Ok? ==>
        && wid in workspaces
        && Stored(r.value) && UniqueTargets(r.value.edges)
        && ns == nodes[id := r.value]
        && ws == workspaces[wid := ws[wid]]
        && ws[wid].nodes == workspaces[wid].nodes + [id]
        && ws[wid].(nodes := workspaces[wid].nodes, updatedAt := workspaces[wid].updatedAt) == workspaces[wid]
  {
    var (ns, ws, r) := CreateStep(nodes, workspaces, id, caller, wid, title, nodeType, content, position, color, now);
    if r.Ok? {
      var t := ParseNodeType(StringOr(nodeType, DefaultNodeTypeName)).value;
      CreatedValidates(caller, wid, title, t, content, position, color, now);
    }
  }

  /** Creating a node keeps every stored node well formed, also when the
      workspace save that follows fails. */
  lemma CreateKeepsNodesWellFormed(nodes: Nodes, workspaces: Workspaces, id: NodeId, caller: UserId, wid: WorkspaceId,
                                   title: Option<string>, nodeType: Option<string>, content: Option<Json>,
                                   position: Option<Position>, color: Option<string>, now: Time)
    requires AllWellFormed(nodes)
    ensures AllWellFormed(CreateStep(nodes, workspaces, id, caller, wid, title, nodeType, content, position, color, now).0)
  {
    var ns := CreateStep(nodes, workspaces, id, caller, wid, title, nodeType, content, position, color, now).0;
    var pt := ParseNodeType(StringOr(nodeType, DefaultNodeTypeName));
    if wid in workspaces && (WorkspaceModel.IsMember(workspaces[wid].members, caller) || workspaces[wid].owner == caller)
       && pt.Some?
    {
      var n := Created(caller, wid, title, pt.value, content, position, color, now);
      CreatedValidates(caller, wid, title, pt.value, content, position, color, now);
      if Validates(n) {
        assert ns == nodes[id := PreSave(n, now)];
        PreSaveOnlyStamps(n, now);
        StoreKeepsWellFormed(nodes, id, PreSave(n, now));
      }
    }
  }

  /** Creating a node keeps every stored workspace valid: appending to
      `nodes` does not touch the name. */
  lemma CreateKeepsWorkspacesStored(nodes: Nodes, workspaces: Workspaces, id: NodeId, caller: UserId, wid: WorkspaceId,
                                    title: Option<string>, nodeType: Option<string>, content: Option<Json>,
                                    position: Option<Position>, color: Option<string>, now: Time)
    requires WorkspaceModel.AllStored(workspaces)
    ensures WorkspaceModel.AllStored(CreateStep(nodes, workspaces, id, caller, wid, title, nodeType, content, position, color, now).1)
  {
    var ws := CreateStep(nodes, workspaces, id, caller, wid, title, nodeType, content, position, color, now).1;
    if wid in workspaces {
      var w := workspaces[wid].(nodes := workspaces[wid].nodes + [id]);
      assert ws == workspaces || ws == workspaces[wid := WorkspaceModel.PreSave(w, now)];
      assert WorkspaceModel.Stored(WorkspaceModel.PreSave(w, now)) by {
        assert w.name == workspaces[wid].name;
      }
      WorkspaceModel.StoreKeepsStored(workspaces, wid, WorkspaceModel.PreSave(w, now));
    }
  }

  /** Creating a node keeps every workspace well formed in the sense the
      workspace handlers keep: appending to `nodes` leaves the name, the
      owner and the members alone. */
  lemma CreateKeepsWorkspacesWellFormed(nodes: Nodes, workspaces: Workspaces, id: NodeId, caller: UserId, wid: WorkspaceId,
                                        title: Option<string>, nodeType: Option<string>, content: Option<Json>,
                                        position: Option<Position>, color: Option<string>, now: Time)
    requires WorkspaceController.AllWellFormed(workspaces)
    ensures WorkspaceController.AllWellFormed(CreateStep(nodes, workspaces, id, caller, wid, title, nodeType, content, position, color, now).1)
  {
  }

  // ----- update -----

  /** A successful update was made by a caller in `canEdit`; it sets
      exactly the fields the body defines (the title trimmed), records the
      caller as last editor and raises the version by exactly one. A
      refused or invalid update changes nothing. */
  lemma UpdateEffect(nodes: Nodes, id: NodeId, caller: UserId, patch: NodePatch, now: Time)
    ensures var (ns, r) := UpdateStep(nodes, id, caller, patch, now);
      && (r.Err? ==> ns == nodes)
      && (id in nodes && caller !in nodes[id].permissions.canEdit ==> r == Err(EditForbidden))
      && (r.Ok? ==>
            && id in nodes && caller in nodes[id].permissions.canEdit
            && ns == nodes[id := r.value]
            && r.value.version == nodes[id].version + 1
            && r.value.lastEditedBy == Some(caller)
            && r.value.updatedAt == now
            && r.value.(title := nodes[id].title, content := nodes[id].content, position := nodes[id].position,
                        color := nodes[id].color, rings := nodes[id].rings, permissions := nodes[id].permissions,
                        lastEditedBy := nodes[id].lastEditedBy, version := nodes[id].version,
                        updatedAt := nodes[id].updatedAt) == nodes[id]
            && (patch.title.Some? ==> r.value.title == Trim(patch.title.value))
            && (patch.title.None? ==> r.value.title == nodes[id].title)
            && (patch.content.Some? ==> r.value.content == patch.content.value)
            && (patch.content.None? ==> r.value.content == nodes[id].content)
            && (patch.position.Some? ==> r.value.position == patch.position.value)
            && (patch.position.None? ==> r.value.position == nodes[id].position)
            && (patch.color.Some? ==> r.value.color == patch.color.value)
            && (patch.color.None? ==> r.value.color == nodes[id].color)
            && (patch.rings.Some? ==> r.value.rings == patch.rings.value)
            && (patch.rings.None? ==> r.value.rings == nodes[id].rings)
            && (patch.permissions.Some? ==> r.value.permissions == patch.permissions.value)
            && (patch.permissions.None? ==> r.value.permissions == nodes[id].permissions))
  {
  }

  /** A supplied title that is blank is refused by validation, leaving the
      node at its old version. */
  lemma BlankTitleUpdateRefused(nodes: Nodes, id: NodeId, caller: UserId, patch: NodePatch, now: Time)
    requires id in nodes && caller in nodes[id].permissions.canEdit
    requires patch.title.Some? && forall i :: 0 <= i < |patch.title.value| ==> IsWhitespace(patch.title.value[i])
    ensures UpdateStep(nodes, id, caller, patch, now) == (nodes, Err(ServerError))
  {
    TrimEmptyIff(patch.title.value);
  }

  /** Updating a node keeps the collection well formed. */
  lemma UpdateKeepsWellFormed(nodes: Nodes, id: NodeId, caller: UserId, patch: NodePatch, now: Time)
    requires AllWellFormed(nodes)
    ensures AllWellFormed(UpdateStep(nodes, id, caller, patch, now).0)
  {
    if patch.title.Some? {
      TrimIdempotent(patch.title.value);
    }
  }

  // ----- deletion -----

  /** A successful deletion was made by a caller in `canManage`; the node
      is gone, its id is no longer listed by its workspace, and every other
      node and every other listed id stays. A refused deletion changes
      nothing. */
  lemma DeleteEffect(nodes: Nodes, workspaces: Workspaces, id: NodeId, caller: UserId)
    ensures var (ns, ws, r) := DeleteStep(nodes, workspaces, id, caller);
      && (r.Err? ==> ns == nodes && ws == workspaces)
      && (id in nodes && caller !in nodes[id].permissions.canManage ==> r == Err(DeleteForbidden))
      && (r.Ok? ==>
            && id in nodes && caller in nodes[id].permissions.canManage
            && ns == nodes - {id}
            && ws.Keys == workspaces.Keys
            && (forall w :: w in workspaces && w != nodes[id].workspace ==> ws[w] == workspaces[w])
            && (nodes[id].workspace in ws ==>
                  var before := workspaces[nodes[id].workspace].nodes;
                  var after := ws[nodes[id].workspace].nodes;
                  && id !in after
                  && (forall j :: 0 <= j < |before| && before[j] != id ==> before[j] in after)
                  && ws[nodes[id].workspace] == workspaces[nodes[id].workspace].(nodes := after)))
  {
  }

  /** Deleting a node keeps both collections well formed. */
  lemma DeleteKeepsWellFormed(nodes: Nodes, workspaces: Workspaces, id: NodeId, caller: UserId)
    requires AllWellFormed(nodes) && WorkspaceModel.AllStored(workspaces)
    ensures var (ns, ws, r) := DeleteStep(nodes, workspaces, id, caller);
      AllWellFormed(ns) && WorkspaceModel.AllStored(ws)
  {
  }

  /** Deleting a node keeps every workspace well formed: `$pull` on
      `nodes` leaves the name, the owner and the members alone. */
  lemma DeleteKeepsWorkspacesWellFormed(nodes: Nodes, workspaces: Workspaces, id: NodeId, caller: UserId)
    requires WorkspaceController.AllWellFormed(workspaces)
    ensures WorkspaceController.AllWellFormed(DeleteStep(nodes, workspaces, id, caller).1)
  {
  }

  // ----- edges -----

  /** Linking: 404 when either node is missing, 400 exactly when the node
      already has an edge to the target. A new edge goes to the end, with
      type `linked`, label '' and strength 1 when none (or 0) is given; its
      strength lies in [0, 10], and it is what the call returns. A refused
      or invalid edge changes nothing. */
  lemma AddEdgeEffect(nodes: Nodes, id: NodeId, target: NodeId, edgeType: Option<string>,
                      edgeLabel: Option<string>, strength: Option<real>, now: Time)
    ensures var (ns, r) := AddEdgeStep(nodes, id, target, edgeType, edgeLabel, strength, now);
      && (r.Err? ==> ns == nodes)
      && (r == Err(NodeNotFound) <==> id !in nodes)
      && (id in nodes && target !in nodes ==> r == Err(TargetNotFound))
      && (id in nodes && target in nodes ==>
            (r == Err(EdgeExists) <==> exists j :: 0 <= j < |nodes[id].edges| && nodes[id].edges[j].target == target))
      && (r.Ok? ==>
            && id in nodes && target in nodes
            && ns == nodes[id := ns[id]]
            && ns[id].edges == nodes[id].edges + [r.value]
            && ns[id].(edges := nodes[id].edges, updatedAt := nodes[id].updatedAt) == nodes[id]
            && r.value.target == target
            && (edgeType.None? || edgeType.value == "" ==> r.value.kind == Linked)
            && (edgeLabel.None? ==> r.value.edgeLabel == "")
            && (edgeLabel.Some? && edgeLabel.value != "" ==> r.value.edgeLabel == edgeLabel.value)
            && (edgeType.Some? && edgeType.value != "" ==> ParseEdgeType(edgeType.value) == Some(r.value.kind))
            && (strength.None? || strength.value == 0.0 ==> r.value.strength == 1.0)
            && (strength.Some? && strength.value != 0.0 ==> r.value.strength == strength.value)
            && StrengthInRange(r.value.strength)
            && (UniqueTargets(nodes[id].edges) ==> UniqueTargets(ns[id].edges)))
      && (id in nodes && target in nodes && Validates(nodes[id])
          && (forall j :: 0 <= j < |nodes[id].edges| ==> nodes[id].edges[j].target != target)
          && ParseEdgeType(StringOr(edgeType, DefaultEdgeTypeName)).Some?
          && StrengthInRange(EdgeStrength(strength))
          ==> r.Ok?)
  {
    var (ns, r) := AddEdgeStep(nodes, id, target, edgeType, edgeLabel, strength, now);
    if id in nodes && target in nodes {
      var found := FirstIndex(nodes[id].edges, HasTarget(target));
      if found.Some? {
        assert nodes[id].edges[found.value].target == target;
      }
    }
    if r.Ok? {
      var es := ns[id].edges;
      assert es[|es| - 1] == r.value;
    }
  }

  /** Linking keeps the collection well formed. */
  lemma AddEdgeKeepsWellFormed(nodes: Nodes, id: NodeId, target: NodeId, edgeType: Option<string>,
                               edgeLabel: Option<string>, strength: Option<real>, now: Time)
    requires AllWellFormed(nodes)
    ensures AllWellFormed(AddEdgeStep(nodes, id, target, edgeType, edgeLabel, strength, now).0)
  {
    var (ns, r) := AddEdgeStep(nodes, id, target, edgeType, edgeLabel, strength, now);
    if r.Ok? {
      AddEdgeEffect(nodes, id, target, edgeType, edgeLabel, strength, now);
      assert Stored(ns[id]);
      forall i | i in ns ensures Stored(ns[i]) && UniqueTargets(ns[i].edges) {
        if i != id {
          assert ns[i] == nodes[i];
        }
      }
    }
  }

  // ----- the handlers -----

  /** createNode (controllers/nodeController.js:5-55). */
  method CreateNode(nodes: NodeCollection, workspaces: WorkspaceModel.WorkspaceCollection, id: NodeId, caller: UserId,
                    wid: WorkspaceId, title: Option<string>, nodeType: Option<string>, content: Option<Json>,
                    position: Option<Position>, color: Option<string>, now: Time)
    returns (r: Result<Node>)
    requires id !in nodes.docs
    modifies nodes, workspaces
    ensures (nodes.docs, workspaces.docs, r) ==
      CreateStep(old(nodes.docs), old(workspaces.docs), id, caller, wid, title, nodeType, content, position, color, now)
    ensures old(nodes.Valid()) ==> nodes.Valid()
    ensures old(workspaces.Valid()) ==> workspaces.Valid()
  {
    ghost var nodes0, workspaces0 := nodes.docs, workspaces.docs;
    if wid !in workspaces.docs {
      r := Err(WorkspaceNotFound);
    } else {
      var w := workspaces.docs[wid];
      if !WorkspaceModel.IsMember(w.members, caller) && w.owner != caller {
        r := Err(CreateForbidden);
      } else {
        var t := ParseNodeType(StringOr(nodeType, DefaultNodeTypeName));
        if t.None? {
          r := Err(ServerError);
        } else {
          var n := Created(caller, wid, title, t.value, content, position, color, now);
          var ok := nodes.Save(id, n, now);
          if !ok {
            r := Err(ServerError);
          } else {
            ok := workspaces.Save(wid, w.(nodes := w.nodes + [id]), now);
            r := if ok then Ok(PreSave(n, now)) else Err(ServerError);
          }
        }
      }
    }
    if old(nodes.Valid()) {
      CreateKeepsNodesWellFormed(nodes0, workspaces0, id, caller, wid, title, nodeType, content, position, color, now);
    }
    if old(workspaces.Valid()) {
      CreateKeepsWorkspacesStored(nodes0, workspaces0, id, caller, wid, title, nodeType, content, position, color, now);
    }
  }

  /** The field writes of `updateNode` (controllers/nodeController.js:101-109),
      one at a time. */
  method EditFields(n: Node, patch: NodePatch, caller: UserId) returns (m: Node)
    ensures m == ApplyPatch(n, patch, caller)
  {
    m := n;
    if patch.title.Some? {
      m := m.(title := Trim(patch.title.value));
    }
    if patch.content.Some? {
      m := m.(content := patch.content.value);
    }
    if patch.position.Some? {
      m := m.(position := patch.position.value);
    }
    if patch.color.Some? {
      m := m.(color := patch.color.value);
    }
    if patch.rings.Some? {
      m := m.(rings := patch.rings.value);
    }
    if patch.permissions.Some? {
      m := m.(permissions := patch.permissions.value);
    }
    m := m.(lastEditedBy := Some(caller));
    m := m.(version := m.version + 1);
  }

  /** updateNode (controllers/nodeController.js:86-121). */
  method UpdateNode(nodes: NodeCollection, id: NodeId, caller: UserId, patch: NodePatch, now: Time)
    returns (r: Result<Node>)
    modifies nodes
    ensures (nodes.docs, r) == UpdateStep(old(nodes.docs), id, caller, patch, now)
    ensures old(nodes.Valid()) ==> nodes.Valid()
  {
    if id !in nodes.docs {
      r := Err(NodeNotFound);
      return;
    }
    var n := nodes.docs[id];
    if caller !in n.permissions.canEdit {
      r := Err(EditForbidden);
      return;
    }
    var edited := EditFields(n, patch, caller);
    if patch.title.Some? {
      TrimIdempotent(patch.title.value);
    }
    var ok := nodes.Save(id, edited, now);
    r := if ok then Ok(PreSave(edited, now)) else Err(ServerError);
  }

  /** deleteNode (controllers/nodeController.js:124-152). */
  method DeleteNode(nodes: NodeCollection, workspaces: WorkspaceModel.WorkspaceCollection, id: NodeId, caller: UserId)
    returns (r: Result<string>)
    modifies nodes, workspaces
    ensures (nodes.docs, workspaces.docs, r) == DeleteStep(old(nodes.docs), old(workspaces.docs), id, caller)
    ensures old(nodes.Valid()) ==> nodes.Valid()
    ensures old(workspaces.Valid()) ==> workspaces.Valid()
  {
    if id !in nodes.docs {
      r := Err(NodeNotFound);
      return;
    }
    var n := nodes.docs[id];
    if caller !in n.permissions.canManage {
      r := Err(DeleteForbidden);
      return;
    }
    nodes.Delete(id);
    workspaces.PullNode(n.workspace, id);
    r := Ok("Node deleted successfully");
  }

  /** addEdge (controllers/nodeController.js:155-196). */
  method AddEdge(nodes: NodeCollection, id: NodeId, target: NodeId, edgeType: Option<string>,
                 edgeLabel: Option<string>, strength: Option<real>, now: Time)
    returns (r: Result<Edge>)
    modifies nodes
    ensures (nodes.docs, r) == AddEdgeStep(old(nodes.docs), id, target, edgeType, edgeLabel, strength, now)
    ensures old(nodes.Valid()) ==> nodes.Valid()
  {
    if id !in nodes.docs {
      r := Err(NodeNotFound);
      return;
    }
    if target !in nodes.docs {
      r := Err(TargetNotFound);
      return;
    }
    var n := nodes.docs[id];
    var existing := FirstIndex(n.edges, HasTarget(target));
    if existing.Some? {
      r := Err(EdgeExists);
      return;
    }
    var k := ParseEdgeType(StringOr(edgeType, DefaultEdgeTypeName));
    if k.None? {
      r := Err(ServerError);
      return;
    }
    var e := Edge(target, k.value, StringOr(edgeLabel, ""), EdgeStrength(strength));
    AddEdgeEffect(old(nodes.docs), id, target, edgeType, edgeLabel, strength, now);
    n := n.(edges := n.edges + [e]);
    var ok := nodes.Save(id, n, now);
    if !ok {
      r := Err(ServerError);
      return;
    }
    r := Ok(n.edges[|n.edges| - 1]);
  }
}
