# Galaxy workspace back end: collaboration, workspaces, nodes

This project models the request handlers of a Node/Express/Mongoose back end
for a "galaxy" of notes. Users own **workspaces** that hold **nodes**. Nodes
are typed, positioned items with rings, weighted edges to other nodes,
per-user permissions and a version counter. Each node has one live
**collaboration session**, which keeps a presence roster (cursor, selection,
color), an operation log and a chat log. The model also covers the
**error-classifying middleware**.

The model has one module per source file, plus two helper modules:

- `Common` (common.dfy) holds shared pieces: ids as opaque equality types, the HTTP error and `Result` types, JSON values, JavaScript `||` defaults, `String.prototype.trim`, `findIndex`/`find`/`some` as `FirstIndex`, and `filter`/`$pull` as `Filter`.
- `HexColor` (hex_color.dfy) models the color a join assigns, `#` followed by `toString(16)` of a random draw.
- `CollaborationModel` and `CollaborationController` model models/Collaboration.js and controllers/collaborationController.js.
- `WorkspaceModel`, `UserModel` and `WorkspaceController` model models/Workspace.js, the `workspaces` list of models/User.js, and controllers/workspaceController.js.
- `NodeModel` and `NodeController` model models/Node.js and controllers/nodeController.js.
- `ErrorHandler` models middleware/error.js.

A collection whose documents the handlers change is a class:

- `SessionStore` holds a `seq` of sessions in the collection's natural order, so `findOne` returns the first match.
- `WorkspaceCollection`, `NodeCollection` and `UserCollection` each hold a `map` keyed by id.

Each handler is a method of those classes (collaboration) or a module method taking the collections it touches (workspaces, nodes). Its `ensures` ties the new state and the response to a pure step function of the old state. The lemmas then state what the handler promises:

- Which errors occur, and when.
- That every error path changes nothing.
- Exactly which fields a success changes.
- The invariants every handler keeps: one active session per node, one roster entry per user, unique workspace members with the owner holding the `owner` role, unique edge targets per node, and stored documents that pass schema validation.

A Mongoose `save()` is modelled as schema validation (required, `trim`, enum, min/max), then the pre-save hook that stamps `updatedAt`. A failed validation is caught by the handler's `try` and answered with 500 `Server error`, and nothing is written by that save. createNode saves twice (controllers/nodeController.js:41-45): if the workspace save failed after the node save succeeded, the node would stay stored; this cannot happen while the stored workspaces are valid, since appending to `nodes` does not touch the name. Atomic `findByIdAndUpdate` updates (`$push`, `$pull`) skip both. The clock (`new Date()`) and the random color draw are parameters.

Chat history (controllers/collaborationController.js:197-199) is read with `findOne({ node })`, which returns the first record for the node in natural order, active or not. `ChatHistoryShadowed` shows the consequence: once an older inactive record exists, messages appended to the active session do not appear in the history.

`errorHandler` (middleware/error.js) is modelled as written, but server.js never mounts it. The server installs its own final handler (server.js:63-65), which answers 500 `Something went wrong!`, and the controllers catch their own errors.

## Model

| member | source | states |
|---|---|---|
| Common.TrimIsInfix | models/Workspace.js:4-8 | the trimmed value is the input minus leading and trailing whitespace, and neither starts nor ends with whitespace |
| Common.TrimIdempotent | models/Node.js:4-8 | trimming a stored (already trimmed) value again leaves it unchanged |
| Common.TrimEmptyIff | models/Workspace.js:4-8 | a `required` + `trim` path rejects exactly the values made only of whitespace |
| Common.FirstIndex | controllers/collaborationController.js:131-133 | `findIndex` returns the first position satisfying the test, or none when no element does |
| Common.Filter | controllers/collaborationController.js:99-101 | `filter` keeps exactly the elements passing the test, and nothing else |
| Common.FilterConcat | controllers/workspaceController.js:201-203 | filtering keeps the relative order of the elements it keeps |
| Common.FilterKeepsAll | controllers/collaborationController.js:99-101 | filtering by a test every element passes changes nothing |
| HexColor.DigitChar | controllers/collaborationController.js:65 | each hex digit value has a lower-case digit that reads back as that value |
| HexColor.ToHex | controllers/collaborationController.js:65 | `toString(16)` gives at least one lower-case hex digit and no leading zero |
| HexColor.ToHexRoundTrip | controllers/collaborationController.js:65 | reading back the digits `toString(16)` wrote gives the number |
| HexColor.ToHexLength | controllers/collaborationController.js:65 | `toString(16)` uses at most k digits exactly for numbers below 16^k, so it never pads |
| HexColor.RandomColorAsWrittenUnpadded | controllers/collaborationController.js:65 | every draw below 0x100000 yields a color that is not `#rrggbb`; draw 255 yields `#ff` |
| HexColor.LeadingZerosValue | controllers/collaborationController.js:65 | left-padding with zeros does not change the value of a hex string |
| HexColor.RandomColor | controllers/collaborationController.js:65 | the padded join color is always `#rrggbb` and encodes the draw |
| CollaborationModel.ParseOpKind | models/Collaboration.js:21 | an operation type is accepted iff it is insert, delete, update or move |
| CollaborationModel.OpKindNames | models/Collaboration.js:21 | operation type names and kinds correspond one to one |
| CollaborationModel.UniqueCount | models/Collaboration.js:9-18 | in a roster without duplicates a user has exactly one entry if found, else none |
| CollaborationController.JoinRosterExisting | controllers/collaborationController.js:55-69 | re-joining keeps the roster's length and changes only the caller's `lastActive` |
| CollaborationController.JoinRosterNew | controllers/collaborationController.js:59-66 | a first join appends one entry with the given cursor or (0,0), empty selection, the given color and the current time |
| CollaborationController.JoinRosterUnique | controllers/collaborationController.js:54-69 | join keeps one entry per user and leaves the caller with exactly one |
| CollaborationController.JoinRosterTwice | controllers/collaborationController.js:54-69 | joining twice is joining once at the later time |
| CollaborationController.LeaveRosterRemovesCaller | controllers/collaborationController.js:98-101 | leaving removes every entry of the caller and keeps every other entry |
| CollaborationController.LeaveRosterOrder | controllers/collaborationController.js:99-101 | leaving keeps the order of the remaining entries |
| CollaborationController.LeaveRosterAbsent | controllers/collaborationController.js:99-101 | leaving without an entry leaves the roster as it was |
| CollaborationController.LeaveRosterUnique | controllers/collaborationController.js:99-101 | leaving keeps one entry per user |
| CollaborationController.CursorRosterEffect | controllers/collaborationController.js:131-143 | a cursor update changes only the caller's entry: cursor if supplied, selection if defined, `lastActive` always; no entry means no change |
| CollaborationController.FindSessionAfterUpdate | controllers/collaborationController.js:89-92 | an edit that keeps a record's node and active flag does not change what `findOne` returns |
| CollaborationController.GetOrCreateOnce | controllers/collaborationController.js:9-22 | returns the node's active session, creating an empty one only if none exists; a second call creates nothing |
| CollaborationController.JoinStepPosition | controllers/collaborationController.js:40-72 | after a join, the record written is the node's active session; a new record is added only when none was active |
| CollaborationController.JoinTwiceSingleEntry | controllers/collaborationController.js:35-72 | two joins by one user add no second record and leave exactly one roster entry |
| CollaborationController.MutationsNeedActiveSession | controllers/collaborationController.js:85-190 | leave, cursor update and chat append fail with 404 `Collaboration not found` exactly when the node has no active session, and then change nothing |
| CollaborationController.CursorAbsentUserOnlyStamps | controllers/collaborationController.js:131-146 | a cursor update by a user not in the roster only stamps `lastActivity` and still succeeds |
| CollaborationController.ChatAppendsInOrder | controllers/collaborationController.js:173-180 | two chat appends are logged after earlier messages in call order, and the history shows them |
| CollaborationController.ChatHistoryShadowed | controllers/collaborationController.js:197-211 | the history reads the node's first record, so with an older inactive record an append is not visible |
| CollaborationController.GetOrCreateKeepsWellFormed | controllers/collaborationController.js:9-22 | getCollaboration never creates a second active session for a node |
| CollaborationController.StepsKeepWellFormed | controllers/collaborationController.js:35-190 | join, leave, cursor update and chat append keep one active session per node and one roster entry per user |
| CollaborationController.SessionStore.GetCollaboration | controllers/collaborationController.js:5-32 | new state and returned session are those of the getCollaboration step, and the invariant is kept |
| CollaborationController.SessionStore.Join | controllers/collaborationController.js:35-82 | new state and returned session are those of the join step with the supplied color or, failing that, the unpadded `#` + `toString(16)` color of the draw, and the invariant is kept |
| CollaborationController.SessionStore.Leave | controllers/collaborationController.js:85-114 | new state and response are those of the leave step, and the invariant is kept |
| CollaborationController.SessionStore.UpdateCursor | controllers/collaborationController.js:117-156 | new state and response are those of the cursor step, and the invariant is kept |
| CollaborationController.SessionStore.AddChatMessage | controllers/collaborationController.js:159-190 | new state and response are those of the chat step, and the invariant is kept |
| CollaborationController.SessionStore.GetChatHistory | controllers/collaborationController.js:193-215 | returns [] when the node has no record, otherwise the first record's chat log |
| UserModel.PushThenPull | controllers/workspaceController.js:208-210 | a `$pull` after a `$push` of a workspace id leaves no trace of that id and touches no other user |
| UserModel.UserCollection.Push | controllers/workspaceController.js:24-26 | `$push` appends the id to an existing user's list and ignores unknown users |
| UserModel.UserCollection.Pull | controllers/workspaceController.js:208-210 | `$pull` removes the id from an existing user's list and ignores unknown users |
| WorkspaceModel.ParseRole | models/Workspace.js:20-24 | a role is accepted iff it is owner, admin, member or viewer |
| WorkspaceModel.RoleNames | models/Workspace.js:20-24 | role names and roles correspond one to one, and the default names the member role |
| WorkspaceModel.PreSaveOnlyStamps | models/Workspace.js:61-64 | the pre-save hook sets `updatedAt` and nothing else |
| WorkspaceModel.WorkspaceCollection.Save | models/Workspace.js:61-64 | a save succeeds iff the name is non-empty, then stores the document with `updatedAt` set |
| WorkspaceModel.WorkspaceCollection.PullNode | controllers/nodeController.js:140-142 | `$pull` of a node id from a workspace's `nodes` runs no hook |
| WorkspaceController.GetWorkspace | controllers/workspaceController.js:39-66 | 404 iff the workspace is missing, 403 iff the caller is not in `members`, otherwise the workspace |
| WorkspaceController.OwnershipAloneDoesNotGrantAccess | controllers/workspaceController.js:49-56 | an owner absent from `members` is refused |
| WorkspaceController.CreateShape | controllers/workspaceController.js:6-36 | creation fails iff the name is missing or blank; a created workspace has the caller as owner and sole `owner` member, default description, tags and settings, and is pushed to the caller's list |
| WorkspaceController.OwnerCanAdminister | controllers/workspaceController.js:98-105 | in a well-formed workspace the owner passes the owner/admin test |
| WorkspaceController.UpdateNeedsAdministrator | controllers/workspaceController.js:89-123 | an update succeeds only for a caller whose first member entry is owner or admin, is refused with 403 otherwise, and every failure changes nothing |
| WorkspaceController.AddMemberNeedsAdministrator | controllers/workspaceController.js:126-174 | adding a member succeeds only for an owner or admin caller, is refused with 403 otherwise, and every failure changes nothing |
| WorkspaceController.RemoveMemberNeedsAdministrator | controllers/workspaceController.js:177-219 | removing a member succeeds only for an owner or admin caller, is refused with 403 otherwise, and every failure changes nothing |
| WorkspaceController.ApplyPatchEffect | controllers/workspaceController.js:107-111 | a supplied non-empty name is stored trimmed and any other name input keeps the old name; a defined description, shallow-merged settings and supplied tags, and nothing else |
| WorkspaceController.BlankNameUpdateRefused | controllers/workspaceController.js:108-113 | an all-whitespace name passes the truthiness test but fails validation, so nothing changes |
| WorkspaceController.AddMemberEffect | controllers/workspaceController.js:126-174 | 400 for an existing member; a success appends exactly one entry (role as given or member), pushes the id to the user's list and keeps the workspace well formed |
| WorkspaceController.RemoveMemberEffect | controllers/workspaceController.js:177-219 | the owner is never removed (400); a success drops exactly the target's entries, keeps the others, pulls the id and keeps the workspace well formed |
| WorkspaceController.RemovedMembers | controllers/workspaceController.js:200-203 | filtering out a user leaves no entry of that user and keeps every other entry |
| WorkspaceController.RemovedKeepsOwner | controllers/workspaceController.js:195-203 | removing anyone but the owner keeps the owner's single `owner` entry, so the workspace stays well formed |
| WorkspaceController.FilterUnique | controllers/workspaceController.js:200-203 | removing entries from a duplicate-free members list keeps it duplicate-free |
| WorkspaceController.FilterPositions | controllers/workspaceController.js:201-203 | any two positions of the filtered members list hold different users when the original list has no duplicates |
| WorkspaceController.CreateKeepsWellFormed | controllers/workspaceController.js:6-36 | creation keeps every workspace well formed |
| WorkspaceController.UpdateKeepsWellFormed | controllers/workspaceController.js:89-123 | an update keeps every workspace well formed |
| WorkspaceController.AddMemberKeepsWellFormed | controllers/workspaceController.js:126-174 | adding a member keeps every workspace well formed |
| WorkspaceController.RemoveMemberKeepsWellFormed | controllers/workspaceController.js:177-219 | removing a member keeps every workspace well formed |
| WorkspaceController.CreateWorkspace | controllers/workspaceController.js:6-36 | new collections and response are those of the create step, and the stored workspaces stay valid |
| WorkspaceController.UpdateWorkspace | controllers/workspaceController.js:89-123 | new collection and response are those of the update step, and the stored workspaces stay valid |
| WorkspaceController.AddMember | controllers/workspaceController.js:126-174 | new collections and response are those of the add step, and the stored workspaces stay valid |
| WorkspaceController.RemoveMember | controllers/workspaceController.js:177-219 | new collections and response are those of the remove step, and the stored workspaces stay valid |
| NodeModel.ParseNodeType | models/Node.js:9-14 | a node type is accepted iff it is one of the seven enum values |
| NodeModel.ParseRingType | models/Node.js:44-48 | a ring type is accepted iff it is one of the six enum values |
| NodeModel.ParseEdgeType | models/Node.js:54-57 | an edge type is accepted iff it is one of the six enum values |
| NodeModel.ParseVisibility | models/Node.js:62-66 | a visibility is accepted iff it is public, private or workspace |
| NodeModel.NodeTypeNames | models/Node.js:9-14 | node type names and types correspond one to one; the default `note` parses |
| NodeModel.RingTypeNames | models/Node.js:44-48 | ring type names and types correspond one to one |
| NodeModel.EdgeTypeNames | models/Node.js:54-57 | edge type names and types correspond one to one |
| NodeModel.VisibilityNames | models/Node.js:62-66 | visibility names and values correspond one to one; the default `workspace` parses |
| NodeModel.NewNodeDefaults | models/Node.js:3-92 | a new node validates iff its title is non-empty and its visibility valid; it starts at version 1, size 1, no rings or edges |
| NodeModel.PreSaveOnlyStamps | models/Node.js:95-98 | the pre-save hook sets `updatedAt` and nothing else |
| NodeModel.NodeCollection.Save | models/Node.js:95-98 | a save succeeds iff the node validates, then stores it with `updatedAt` set |
| NodeModel.NodeCollection.Delete | controllers/nodeController.js:137 | `deleteOne` removes exactly that node |
| NodeController.GetNode | controllers/nodeController.js:58-83 | 404 iff missing; 403 iff private and the caller is not in `canView`; public and workspace nodes are always returned |
| NodeController.CreatedValidates | controllers/nodeController.js:25-41 | the node createNode builds validates exactly when the title is not blank |
| NodeController.CreateRefusals | controllers/nodeController.js:9-22 | 404 iff the workspace is missing; 403 for a caller who is neither a member nor the owner, with nothing changed |
| NodeController.CreateOutcome | controllers/nodeController.js:24-45 | for an authorized caller, creation succeeds iff the title is not blank and the type is valid; failures change nothing |
| NodeController.CreateDefaults | controllers/nodeController.js:25-39 | a created node gets type `note`, content `{}`, origin, `#8b5cf6`, the caller as owner and sole holder of every permission, and version 1 |
| NodeController.CreateLinks | controllers/nodeController.js:41-45 | a created node is stored and its id appended to its workspace's `nodes`, nothing else changing |
| NodeController.CreateKeepsNodesWellFormed | controllers/nodeController.js:24-45 | creation keeps every stored node valid with unique edge targets, also when the workspace save fails after the node save |
| NodeController.CreateKeepsWorkspacesStored | controllers/nodeController.js:41-45 | appending the new node's id keeps every stored workspace valid |
| NodeController.CreateKeepsWorkspacesWellFormed | controllers/nodeController.js:41-45 | appending the new node's id keeps every workspace's members unique with the owner holding the `owner` role |
| NodeController.EditFields | controllers/nodeController.js:100-109 | the field writes of updateNode produce the patched node, with the editor recorded and the version bumped |
| NodeController.UpdateEffect | controllers/nodeController.js:86-121 | success requires `canEdit`, sets exactly the supplied fields, records the editor and raises the version by exactly 1; failures change nothing |
| NodeController.BlankTitleUpdateRefused | controllers/nodeController.js:101-111 | a blank supplied title fails validation, leaving the node unchanged |
| NodeController.UpdateKeepsWellFormed | controllers/nodeController.js:86-121 | an update keeps the stored nodes valid |
| NodeController.DeleteEffect | controllers/nodeController.js:124-152 | success requires `canManage`, removes the node and pulls its id from its workspace, keeping all else |
| NodeController.DeleteKeepsWellFormed | controllers/nodeController.js:124-152 | deletion keeps the stored nodes and workspaces valid |
| NodeController.DeleteKeepsWorkspacesWellFormed | controllers/nodeController.js:140-142 | pulling the node's id keeps every workspace's members unique with the owner holding the `owner` role |
| NodeController.AddEdgeEffect | controllers/nodeController.js:155-196 | 404 when either node is missing, 400 iff an edge to the target exists; a new edge is appended with the supplied type and label or their defaults, strength in [0,10], returned, and targets stay unique; a fresh target with a known type and an in-range strength on a valid node always succeeds |
| NodeController.AddEdgeKeepsWellFormed | controllers/nodeController.js:169-186 | linking keeps the stored nodes valid with unique edge targets |
| NodeController.CreateNode | controllers/nodeController.js:5-55 | new collections and response are those of the create step, and both collections stay valid |
| NodeController.UpdateNode | controllers/nodeController.js:86-121 | new collection and response are those of the update step, and the nodes stay valid |
| NodeController.DeleteNode | controllers/nodeController.js:124-152 | new collections and response are those of the delete step, and both collections stay valid |
| NodeController.AddEdge | controllers/nodeController.js:155-196 | new collection and response are those of the edge step, and the nodes stay valid |
| ErrorHandler.Classify | middleware/error.js:2-27 | checks run in order (validation, duplicate key, token, default); status is 400, 401 or 500; every 500 says `Server error` and the detail message appears only for a 500 in development |
| ErrorHandler.ProductionHidesDetail | middleware/error.js:22-26 | outside development every default-kind error gets the same 500 body |
| ErrorHandler.SplitFromPiece | middleware/error.js:7-8 | reading through a message without `", "` collects it unchanged |
| ErrorHandler.JoinSplitRoundTrip | middleware/error.js:6-9 | splitting the joined validation message at `", "` gives back the field messages in order |

## Left out

- sockets/collaborationSocket.js is not part of this model. It keeps the live socket presence and only relays events to the other sockets. Nothing in the program writes the operation log: the handlers only create it empty, so `Operation` is a data type that no modelled handler writes.
- Authentication (middleware/auth.js, controllers/authController.js), routes, server.js and createAdmin.js are not part of this model. The caller's id is a parameter.
- getUserWorkspaces, getWorkspaceNodes and searchNodes are not modelled. They are projection, regex and `limit(20)` queries that change nothing.
- `populate` and `select` are not modelled. Except in getWorkspace, they only shape responses.
- WorkspaceController.GetWorkspace: a member whose User document no longer exists is not modelled. `populate('members.user')` (controllers/workspaceController.js:43) turns that entry's `user` into `null`, the access test at :50-52 then throws a `TypeError`, and the request ends in 500 `Server error`. addMember (:128-164) never checks that the added user exists, so such entries can occur. The model treats every member id as resolvable and answers 403 or the workspace there.
- Each handler runs as one atomic step. Interleavings of concurrent requests across their `await`s are not modelled.
- A request reads the clock once, as `now`. The source calls `new Date()` several times per request, which may give slightly different times.
- New document ids (`_id`) are assumed fresh. `CreateWorkspace` and `CreateNode` require the id to be absent from the collection.
- HTTP success codes (200 or 201) and the `success: true` envelope are not modelled. A success is `Ok` carrying the returned value.
- A partially supplied cursor, position or permissions object, which Mongoose completes with per-field defaults, is not modelled. Those inputs are whole values.
- Mongoose type casting is not modelled: numeric strings, `null` values, NaN strengths and malformed ids. The same goes for the `TypeError` from `userId.toString()` on a missing body `userId`, which would become a 500.
- Validation covers only the constraints the handlers can violate: required title/name, `trim`, enums, `size` and `strength` bounds. Constraints they always meet (required `owner`, `node` and `workspace`) are not checked.
- `Math.random()` is a parameter `draw` in [0, 16777215).
- ErrorHandler.Classify: it returns `None` where the handler itself throws (`Object.keys` of a missing `keyValue`). What Express then sends is not modelled.
- The `{ ...settings, ...patch }` merge is modelled on the three known settings keys. Other keys a client might add are dropped.

## Findings

| source | as written | input that shows it | evidently intended | confidence | as-written member | corrected member |
|---|---|---|---|---|---|---|
| controllers/collaborationController.js:65 | the random join color is `#` plus `toString(16)` of the draw, with no zero padding | draw 255 gives `#ff`; every draw below 0x100000 (1 in 16) gives fewer than six digits | a `#rrggbb` color: the draw padded to six hex digits | not executed | HexColor.RandomColorAsWrittenUnpadded | HexColor.RandomColor |

The join handler (`CollaborationController.JoinColor`, used by `SessionStore.Join`) keeps the color exactly as written, unpadded. `HexColor.RandomColor` is the corrected color, with its `#rrggbb` property proved; swapping it into `JoinColor` would give the intended behaviour.
