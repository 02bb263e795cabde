/** The record kept per node by the collaboration feature
    (models/Collaboration.js): a presence roster, an operation log, a chat
    log, an activity flag and an activity stamp. */
module CollaborationModel {
  import opened Common

  /** A 2-D cursor position. */
  datatype Cursor = Cursor(x: real, y: real)

  /** The cursor a joining user gets when the request carries none. */
  const Origin := Cursor(0.0, 0.0)

  /** One entry of the presence roster (`users`). */
  datatype Presence = Presence(
    user: UserId,
    cursorPosition: Cursor,
    selection: string,
    lastActive: Time,
    color: string)

  /** The `type` of a logged operation, restricted by the schema's enum. */
  datatype OpKind = Insert | Delete | Update | Move

  function OpKindName(k: OpKind): string
  {
    match k
    case Insert => "insert"
    case Delete => "delete"
    case Update => "update"
    case Move => "move"
  }

  /** The operation kinds by name. */
  const OpKindByName: map<string, OpKind> :=
    map["insert" := Insert, "delete" := Delete, "update" := Update, "move" := Move]

  /** The enum validator: a string is accepted iff it names an operation
      kind. */
  function ParseOpKind(s: string): (r: Option<OpKind>)
    ensures r.Some? <==> s in ["insert", "delete", "update", "move"]
  {
    if s in OpKindByName then Some(OpKindByName[s]) else None
  }

  /** The enum's names and kinds are in one-to-one correspondence. */
  lemma OpKindNames(k: OpKind, s: string)
    ensures ParseOpKind(OpKindName(k)) == Some(k)
    ensures ParseOpKind(s) == Some(k) ==> OpKindName(k) == s
  {
  }

  /** One entry of the operation log. `data` is free-form and `version` is
      an optional caller-supplied number that nothing checks. */
  datatype Operation = Operation(
    user: UserId,
    kind: OpKind,
    data: Json,
    timestamp: Time,
    version: Option<real>)

  /** One entry of the chat log; the body's `message` may be absent. */
  datatype ChatMessage = ChatMessage(user: UserId, message: Option<string>, timestamp: Time)

  /** A collaboration record. `node` is required by the schema and is
      therefore always present. */
  datatype Session = Session(
    node: NodeId,
    users: seq<Presence>,
    operations: seq<Operation>,
    chat: seq<ChatMessage>,
    isActive: bool,
    lastActivity: Time)

  /** `new Collaboration({ node, users: [], operations: [], chat: [] })`
      with the schema defaults `isActive: true` and `lastActivity: now`. */
  function NewSession(node: NodeId, now: Time): Session
  {
    Session(node, [], [], [], true, now)
  }

  /** The test `user.user.toString() === userId.toString()` as a predicate
      value, for the roster searches. */
  function IsUser(u: UserId): Presence -> bool
  {
    (p: Presence) => p.user == u
  }

  /** The complement, which `leaveCollaboration` filters by. */
  function NotUser(u: UserId): Presence -> bool
  {
    (p: Presence) => p.user != u
  }

  /** `users.findIndex(...)` / `users.find(...)` for one user. */
  function IndexOfUser(users: seq<Presence>, u: UserId): Option<nat>
  {
    FirstIndex(users, IsUser(u))
  }

  /** The roster holds at most one entry per user. */
  ghost predicate UniqueUsers(users: seq<Presence>)
  {
    forall i, j :: 0 <= i < j < |users| ==> users[i].user != users[j].user
  }

  /** The number of roster entries of one user. */
  function CountUser(users: seq<Presence>, u: UserId): nat
  {
    if users == [] then 0 else (if users[0].user == u then 1 else 0) + CountUser(users[1..], u)
  }

  /** In a roster without duplicates a present user has exactly one entry. */
  lemma {:induction false} UniqueCount(users: seq<Presence>, u: UserId)
    requires UniqueUsers(users)
    ensures CountUser(users, u) == if IndexOfUser(users, u).Some? then 1 else 0
  {
    if users != [] {
      UniqueCount(users[1..], u);
      var k := IndexOfUser(users[1..], u);
      if k.Some? {
        assert users[1..][k.value] == users[k.value + 1];
        assert users[0].user != u;
        assert IndexOfUser(users, u).Some?;
      } else if users[0].user != u {
        assert forall j :: 0 < j < |users| ==> users[j] == users[1..][j - 1];
        assert IndexOfUser(users, u).None?;
      }
    }
  }

  /** The collection query `{ node, isActive: true }` (or `{ node }` when
      `activeOnly` is false) as a predicate on one record. */
  function ForNode(node: NodeId, activeOnly: bool): Session -> bool
  {
    (s: Session) => s.node == node && (s.isActive || !activeOnly)
  }

  /** `Collaboration.findOne(query)`: the first matching record of the
      collection in its natural (insertion) order. */
  function FindSession(docs: seq<Session>, node: NodeId, activeOnly: bool): Option<nat>
  {
    FirstIndex(docs, ForNode(node, activeOnly))
  }

  /** The collection invariant the handlers keep: at most one active
      record per node, and no user twice in any roster. */
  ghost predicate WellFormed(docs: seq<Session>)
  {
    && (forall i, j :: 0 <= i < j < |docs| && docs[i].isActive && docs[j].isActive ==> docs[i].node != docs[j].node)
    && (forall i :: 0 <= i < |docs| ==> UniqueUsers(docs[i].users))
  }
}
