/** The node record (models/Node.js): a titled, typed item of a workspace
    with a position, rings, typed weighted edges to other nodes, per-user
    permissions and a version counter, with the schema's defaults, its
    validation and its pre-save hook. */
module NodeModel {
  import opened Common

  /** The node `type` enum. */
  datatype NodeType = Note | Task | Document | Collection | Media | Project | Idea

  function NodeTypeName(t: NodeType): string
  {
    match t
    case Note => "note"
    case Task => "task"
    case Document => "document"
    case Collection => "collection"
    case Media => "media"
    case Project => "project"
    case Idea => "idea"
  }

  /** The node types by name. */
  const NodeTypeByName: map<string, NodeType> :=
    map["note" := Note, "task" := Task, "document" := Document, "collection" := Collection,
        "media" := Media, "project" := Project, "idea" := Idea]

  /** The enum validator of `type`. */
  function ParseNodeType(s: string): (r: Option<NodeType>)
    ensures r.Some? <==> s in ["note", "task", "document", "collection", "media", "project", "idea"]
  {
    if s in NodeTypeByName then Some(NodeTypeByName[s]) else None
  }

  /** The schema default of `type`. */
  const DefaultNodeTypeName := "note"

  /** The ring `type` enum. */
  datatype RingType = Tasks | Files | Chat | Calendar | Commerce | Analytics

  function RingTypeName(t: RingType): string
  {
    match t
    case Tasks => "tasks"
    case Files => "files"
    case Chat => "chat"
    case Calendar => "calendar"
    case Commerce => "commerce"
    case Analytics => "analytics"
  }

  /** The ring types by name. */
  const RingTypeByName: map<string, RingType> :=
    map["tasks" := Tasks, "files" := Files, "chat" := Chat, "calendar" := Calendar,
        "commerce" := Commerce, "analytics" := Analytics]

  function ParseRingType(s: string): (r: Option<RingType>)
    ensures r.Some? <==> s in ["tasks", "files", "chat", "calendar", "commerce", "analytics"]
  {
    if s in RingTypeByName then Some(RingTypeByName[s]) else None
  }

  /** The edge `type` enum. */
  datatype EdgeType = Child | Parent | Depends | References | Linked | Owns

  function EdgeTypeName(t: EdgeType): string
  {
    match t
    case Child => "child"
    case Parent => "parent"
    case Depends => "depends"
    case References => "references"
    case Linked => "linked"
    case Owns => "owns"
  }

  /** The edge types by name. */
  const EdgeTypeByName: map<string, EdgeType> :=
    map["child" := Child, "parent" := Parent, "depends" := Depends, "references" := References,
        "linked" := Linked, "owns" := Owns]

  function ParseEdgeType(s: string): (r: Option<EdgeType>)
    ensures r.Some? <==> s in ["child", "parent", "depends", "references", "linked", "owns"]
  {
    if s in EdgeTypeByName then Some(EdgeTypeByName[s]) else None
  }

  /** The permissions `visibility` enum. */
  datatype Visibility = Public | Private | WorkspaceVisible

  function VisibilityName(v: Visibility): string
  {
    match v
    case Public => "public"
    case Private => "private"
    case WorkspaceVisible => "workspace"
  }

  /** The visibilities by name. */
  const VisibilityByName: map<string, Visibility> :=
    map["public" := Public, "private" := Private, "workspace" := WorkspaceVisible]

  function ParseVisibility(s: string): (r: Option<Visibility>)
    ensures r.Some? <==> s in ["public", "private", "workspace"]
  {
    if s in VisibilityByName then Some(VisibilityByName[s]) else None
  }

  /** Node type names and node types correspond one to one, and the
      schema default names `Note`. */
  lemma NodeTypeNames(t: NodeType, s: string)
    ensures ParseNodeType(NodeTypeName(t)) == Some(t)
    ensures ParseNodeType(s) == Some(t) ==> NodeTypeName(t) == s
    ensures ParseNodeType(DefaultNodeTypeName) == Some(Note)
  {
  }

  /** Ring type names and ring types correspond one to one. */
  lemma RingTypeNames(t: RingType, s: string)
    ensures ParseRingType(RingTypeName(t)) == Some(t)
    ensures ParseRingType(s) == Some(t) ==> RingTypeName(t) == s
  {
  }

  /** Edge type names and edge types correspond one to one. */
  lemma EdgeTypeNames(t: EdgeType, s: string)
    ensures ParseEdgeType(EdgeTypeName(t)) == Some(t)
    ensures ParseEdgeType(s) == Some(t) ==> EdgeTypeName(t) == s
  {
  }

  /** Visibility names and visibilities correspond one to one, and the
      schema default names `WorkspaceVisible`. */
  lemma VisibilityNames(v: Visibility, s: string)
    ensures ParseVisibility(VisibilityName(v)) == Some(v)
    ensures ParseVisibility(s) == Some(v) ==> VisibilityName(v) == s
    ensures ParseVisibility(DefaultVisibilityName) == Some(WorkspaceVisible)
  {
  }

  datatype Position = Position(x: real, y: real, z: real)

  /** The position a node gets when the request carries none. */
  const Origin := Position(0.0, 0.0, 0.0)

  /** One ring; its `type` is whatever the client sent (checked against the
      enum on save), or absent. */
  datatype Ring = Ring(kind: Option<string>, data: Json, isActive: bool)

  /** One edge; the handler that builds edges always gives it a type. */
  datatype Edge = Edge(target: NodeId, kind: EdgeType, edgeLabel: string, strength: real)

  /** The `permissions` subdocument; `visibility` is the string stored
      (checked against the enum on save). */
  datatype Permissions = Permissions(
    visibility: string,
    canView: seq<UserId>,
    canEdit: seq<UserId>,
    canManage: seq<UserId>)

  const DefaultVisibilityName := "workspace"
  const DefaultColor := "#8b5cf6"
  const DefaultSize: real := 1.0
  const DefaultStrength: real := 1.0
  const MinSize: real := 0.5
  const MaxSize: real := 3.0
  const MinStrength: real := 0.0
  const MaxStrength: real := 10.0

  datatype Node = Node(
    title: string,
    nodeType: NodeType,
    content: Json,
    owner: UserId,
    workspace: WorkspaceId,
    position: Position,
    color: string,
    size: real,
    rings: seq<Ring>,
    edges: seq<Edge>,
    permissions: Permissions,
    tags: seq<string>,
    isActive: bool,
    version: int,
    lastEditedBy: Option<UserId>,
    createdAt: Time,
    updatedAt: Time)

  /** A new node document: the given fields plus the schema defaults for
      size, rings, edges, tags, isActive, version and the timestamps. */
  function NewNode(title: string, nodeType: NodeType, content: Json, owner: UserId, workspace: WorkspaceId,
                   position: Position, color: string, permissions: Permissions, now: Time): Node
  {
    Node(title, nodeType, content, owner, workspace, position, color, DefaultSize, [], [], permissions, [],
         true, 1, None, now, now)
  }

  predicate StrengthInRange(strength: real)
  {
    MinStrength <= strength <= MaxStrength
  }

  predicate ValidRing(r: Ring)
  {
    r.kind.None? || ParseRingType(r.kind.value).Some?
  }

  /** The schema validation a save runs: the required title is non-empty,
      `size` and every edge's `strength` lie within their bounds, and every
      ring type and the visibility are enum values. */
  predicate Validates(n: Node)
  {
    && n.title != ""
    && MinSize <= n.size <= MaxSize
    && (forall i :: 0 <= i < |n.edges| ==> StrengthInRange(n.edges[i].strength))
    && (forall i :: 0 <= i < |n.rings| ==> ValidRing(n.rings[i]))
    && ParseVisibility(n.permissions.visibility).Some?
  }

  /** What every stored node satisfies: it passed validation and its title
      went through the `trim` setter. */
  predicate Stored(n: Node)
  {
    Validates(n) && Trim(n.title) == n.title
  }

  /** The pre-save hook: `this.updatedAt = Date.now()`. */
  function PreSave(n: Node, now: Time): Node
  {
    n.(updatedAt := now)
  }

  /** A new node validates exactly when its title is non-empty and its
      visibility an enum value; it starts at version 1 with size 1, no
      rings, no edges and no editor. */
  lemma NewNodeDefaults(title: string, nodeType: NodeType, content: Json, owner: UserId, workspace: WorkspaceId,
                        position: Position, color: string, permissions: Permissions, now: Time)
    ensures var n := NewNode(title, nodeType, content, owner, workspace, position, color, permissions, now);
      && (Validates(n) <==> title != "" && permissions.visibility in ["public", "private", "workspace"])
      && n.version == 1 && n.size == 1.0 && n.isActive
      && n.rings == [] && n.edges == [] && n.tags == [] && n.lastEditedBy.None?
      && n.createdAt == now && n.updatedAt == now
  {
  }

  /** The pre-save hook sets `updatedAt` and changes no other field. */
  lemma PreSaveOnlyStamps(n: Node, now: Time)
    ensures PreSave(n, now).updatedAt == now
    ensures PreSave(n, now).(updatedAt := n.updatedAt) == n
    ensures Stored(PreSave(n, now)) == Stored(n)
  {
  }

  /** No two edges of a node lead to the same target. */
  ghost predicate UniqueTargets(edges: seq<Edge>)
  {
    forall i, j :: 0 <= i < j < |edges| ==> edges[i].target != edges[j].target
  }

  /** What every stored node keeps: it is stored as the schema demands and
      its edges lead to distinct targets. */
  ghost predicate AllWellFormed(docs: map<NodeId, Node>)
  {
    forall id :: id in docs ==> Stored(docs[id]) && UniqueTargets(docs[id].edges)
  }

  /** Storing a well-formed node keeps the collection well formed. */
  lemma StoreKeepsWellFormed(docs: map<NodeId, Node>, id: NodeId, n: Node)
    requires AllWellFormed(docs) && Stored(n) && UniqueTargets(n.edges)
    ensures AllWellFormed(docs[id := n])
  {
  }

  /** The node collection. */
  class NodeCollection {
    var docs: map<NodeId, Node>

    ghost predicate Valid()
      reads this
    {
      AllWellFormed(docs)
    }

    constructor ()
      ensures docs == map[] && Valid()
    {
      docs := map[];
    }

    /** `node.save()`: validation, then the pre-save hook
        (models/Node.js:95-98). */
    method Save(id: NodeId, n: Node, now: Time) returns (ok: bool)
      modifies this
      ensures ok == Validates(n)
      ensures docs == if ok then old(docs)[id := PreSave(n, now)] else old(docs)
      ensures old(Valid()) && Trim(n.title) == n.title && UniqueTargets(n.edges) ==> Valid()
    {
      ok := Validates(n);
      if ok {
        docs := docs[id := PreSave(n, now)];
      }
    }

    /** `node.deleteOne()`. */
    method Delete(id: NodeId)
      modifies this
      ensures docs == old(docs) - {id}
      ensures old(Valid()) ==> Valid()
    {
      docs := docs - {id};
    }
  }
}
