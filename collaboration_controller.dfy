/** The collaboration session handlers (controllers/collaborationController.js).
    Each handler loads one record of the collaboration collection, changes
    it and writes it back, as one atomic step. The collection is a sequence
    of records in natural order; `SessionStore` holds it and its methods
    are the handlers. Each method is tied to a step function over the
    collection value, and the lemmas below state what the steps promise. */
module CollaborationController {
  import opened Common
  import opened CollaborationModel
  import HexColor

  const NotFound := HttpError(404, "Collaboration not found")

  /** `color || <random color>`, with the random color built as the
      handler builds it (unpadded); the random draw is a parameter. */
  function JoinColor(color: Option<string>, draw: nat): string
    requires draw < HexColor.DrawBound
  {
    StringOr(color, HexColor.RandomColorAsWritten(draw))
  }

  /** The roster after a join: a present user only has `lastActive`
      refreshed; an absent one is appended with the supplied cursor (or
      the origin), an empty selection and the given color. */
  function JoinRoster(users: seq<Presence>, u: UserId, cursor: Option<Cursor>, color: string, now: Time): seq<Presence>
  {
    match IndexOfUser(users, u)
    case Some(i) => users[i := users[i].(lastActive := now)]
    case None => users + [Presence(u, if cursor.Some? then cursor.value else Origin, "", now, color)]
  }

  /** The roster after a leave: every entry of the caller is filtered out. */
  function LeaveRoster(users: seq<Presence>, u: UserId): seq<Presence>
  {
    Filter(users, NotUser(u))
  }

  /** The roster after a cursor update: only the caller's first entry is
      touched, and nothing happens if the caller has none. */
  function CursorRoster(users: seq<Presence>, u: UserId, cursor: Option<Cursor>, selection: Option<string>, now: Time): seq<Presence>
  {
    match IndexOfUser(users, u)
    case None => users
    case Some(i) =>
      var p := users[i];
      users[i := p.(cursorPosition := if cursor.Some? then cursor.value else p.cursorPosition,
                    selection := if selection.Some? then selection.value else p.selection,
                    lastActive := now)]
  }

  /** `getCollaboration`: the collection afterwards and the returned record. */
  function GetOrCreateStep(docs: seq<Session>, node: NodeId, now: Time): (seq<Session>, Session)
  {
    match FindSession(docs, node, true)
    case Some(i) => (docs, docs[i])
    case None => (docs + [NewSession(node, now)], NewSession(node, now))
  }

  /** `joinCollaboration`: the active record (or a new one) with the
      joined roster and a fresh `lastActivity`. */
  function JoinStep(docs: seq<Session>, node: NodeId, u: UserId, cursor: Option<Cursor>, color: string, now: Time): (seq<Session>, Session)
  {
    var found := FindSession(docs, node, true);
    var s := if found.Some? then docs[found.value] else NewSession(node, now);
    var s' := s.(users := JoinRoster(s.users, u, cursor, color, now), lastActivity := now);
    (if found.Some? then docs[found.value := s'] else docs + [s'], s')
  }

  /** `leaveCollaboration`. */
  function LeaveStep(docs: seq<Session>, node: NodeId, u: UserId, now: Time): (seq<Session>, Result<string>)
  {
    match FindSession(docs, node, true)
    case None => (docs, Err(NotFound))
    case Some(i) =>
      (docs[i := docs[i].(users := LeaveRoster(docs[i].users, u), lastActivity := now)],
       Ok("Left collaboration successfully"))
  }

  /** `updateCursor`. */
  function CursorStep(docs: seq<Session>, node: NodeId, u: UserId, cursor: Option<Cursor>, selection: Option<string>, now: Time): (seq<Session>, Result<string>)
  {
    match FindSession(docs, node, true)
    case None => (docs, Err(NotFound))
    case Some(i) =>
      (docs[i := docs[i].(users := CursorRoster(docs[i].users, u, cursor, selection, now), lastActivity := now)],
       Ok("Cursor updated successfully"))
  }

  /** `addChatMessage`. */
  function ChatStep(docs: seq<Session>, node: NodeId, u: UserId, message: Option<string>, now: Time): (seq<Session>, Result<string>)
  {
    match FindSession(docs, node, true)
    case None => (docs, Err(NotFound))
    case Some(i) =>
      (docs[i := docs[i].(chat := docs[i].chat + [ChatMessage(u, message, now)], lastActivity := now)],
       Ok("Chat message added successfully"))
  }

  /** `getChatHistory`: the chat of the first record for the node, active
      or not, and nothing when there is no record. */
  function ChatHistory(docs: seq<Session>, node: NodeId): seq<ChatMessage>
  {
    match FindSession(docs, node, false)
    case None => []
    case Some(i) => docs[i].chat
  }

  // ----- the roster operations -----

  /** A repeated join changes only the caller's `lastActive`: the roster
      keeps its length and every other field of every entry. */
  lemma JoinRosterExisting(users: seq<Presence>, u: UserId, cursor: Option<Cursor>, color: string, now: Time)
    requires IndexOfUser(users, u).Some?
    ensures var r := JoinRoster(users, u, cursor, color, now);
      && |r| == |users|
      && r[IndexOfUser(users, u).value].lastActive == now
      && (forall j :: 0 <= j < |r| ==> r[j].(lastActive := users[j].lastActive) == users[j])
      && (forall j :: 0 <= j < |r| && j != IndexOfUser(users, u).value ==> r[j] == users[j])
  {
  }

  /** A first join appends one entry at the end, with the supplied cursor
      or the origin, an empty selection and the given color. */
  lemma JoinRosterNew(users: seq<Presence>, u: UserId, cursor: Option<Cursor>, color: string, now: Time)
    requires IndexOfUser(users, u).None?
    ensures var r := JoinRoster(users, u, cursor, color, now);
      && |r| == |users| + 1 && r[..|users|] == users
      && r[|users|].user == u && r[|users|].selection == "" && r[|users|].color == color
      && r[|users|].lastActive == now
      && r[|users|].cursorPosition == (if cursor.Some? then cursor.value else Origin)
  {
    var r := JoinRoster(users, u, cursor, color, now);
    assert r[..|users|] == users;
  }

  /** Join keeps "at most one entry per user" and leaves the caller with
      exactly one entry. */
  lemma JoinRosterUnique(users: seq<Presence>, u: UserId, cursor: Option<Cursor>, color: string, now: Time)
    requires UniqueUsers(users)
    ensures var r := JoinRoster(users, u, cursor, color, now);
      UniqueUsers(r) && IndexOfUser(r, u).Some? && CountUser(r, u) == 1
  {
    var r := JoinRoster(users, u, cursor, color, now);
    match IndexOfUser(users, u) {
      case Some(i) =>
        FirstIndexDetermined(users, r, IsUser(u));
      case None =>
        FirstIndexAppend(users, r[|users|], IsUser(u));
        assert r == users + [r[|users|]];
    }
    UniqueCount(r, u);
  }

  /** Joining twice is joining once at the later time: the second join
      only refreshes the entry the first one made or found. */
  lemma JoinRosterTwice(users: seq<Presence>, u: UserId, c1: Option<Cursor>, col1: string, t1: Time,
                        c2: Option<Cursor>, col2: string, t2: Time)
    ensures JoinRoster(JoinRoster(users, u, c1, col1, t1), u, c2, col2, t2) == JoinRoster(users, u, c1, col1, t2)
  {
    var r := JoinRoster(users, u, c1, col1, t1);
    match IndexOfUser(users, u)
    case Some(i) =>
      FirstIndexDetermined(users, r, IsUser(u));
    case None =>
      FirstIndexAppend(users, r[|users|], IsUser(u));
      assert r == users + [r[|users|]];
  }

  /** Leave removes every entry of the caller and keeps every other entry. */
  lemma LeaveRosterRemovesCaller(users: seq<Presence>, u: UserId)
    ensures var r := LeaveRoster(users, u);
      && IndexOfUser(r, u).None?
      && (forall j :: 0 <= j < |r| ==> r[j] in users)
      && (forall j :: 0 <= j < |users| && users[j].user != u ==> users[j] in r)
  {
    var r := LeaveRoster(users, u);
    forall j | 0 <= j < |r| ensures r[j] in users && r[j].user != u {
      assert r[j] in r;
    }
  }

  /** Leave keeps the order of the remaining entries: it distributes over
      any split of the roster. */
  lemma LeaveRosterOrder(a: seq<Presence>, b: seq<Presence>, u: UserId)
    ensures LeaveRoster(a + b, u) == LeaveRoster(a, u) + LeaveRoster(b, u)
  {
    FilterConcat(a, b, NotUser(u));
  }

  /** Leave by a user without an entry leaves the roster as it was. */
  lemma LeaveRosterAbsent(users: seq<Presence>, u: UserId)
    requires IndexOfUser(users, u).None?
    ensures LeaveRoster(users, u) == users
  {
    FilterKeepsAll(users, NotUser(u));
  }

  /** Leave keeps "at most one entry per user". */
  lemma {:induction false} LeaveRosterUnique(users: seq<Presence>, u: UserId)
    requires UniqueUsers(users)
    ensures UniqueUsers(LeaveRoster(users, u))
  {
    if users != [] {
      var tail := users[1..];
      assert UniqueUsers(tail);
      LeaveRosterUnique(tail, u);
      var rt := LeaveRoster(tail, u);
      assert forall j :: 0 <= j < |rt| ==> rt[j].user != users[0].user by {
        forall j | 0 <= j < |rt| ensures rt[j].user != users[0].user {
          assert rt[j] in rt;
          var k :| 0 <= k < |tail| && tail[k] == rt[j];
          assert tail[k] == users[k + 1];
        }
      }
    }
  }

  /** A cursor update touches only the caller's entry: cursor replaced
      only when supplied, selection only when defined, `lastActive` always;
      a caller without an entry leaves the roster as it was. */
  lemma CursorRosterEffect(users: seq<Presence>, u: UserId, cursor: Option<Cursor>, selection: Option<string>, now: Time)
    ensures var r := CursorRoster(users, u, cursor, selection, now);
      && |r| == |users|
      && (IndexOfUser(users, u).None? ==> r == users)
      && (IndexOfUser(users, u).Some? ==>
            var i := IndexOfUser(users, u).value;
            && (forall j :: 0 <= j < |r| && j != i ==> r[j] == users[j])
            && r[i].user == u && r[i].color == users[i].color && r[i].lastActive == now
            && r[i].cursorPosition == (if cursor.Some? then cursor.value else users[i].cursorPosition)
            && r[i].selection == (if selection.Some? then selection.value else users[i].selection))
      && (UniqueUsers(users) ==> UniqueUsers(r))
  {
  }

  // ----- the collection steps -----

  /** An edit of one record that keeps its node and its flag does not move
      any query's answer. */
  lemma FindSessionAfterUpdate(docs: seq<Session>, i: nat, s: Session, node: NodeId, activeOnly: bool)
    requires i < |docs| && s.node == docs[i].node && s.isActive == docs[i].isActive
    ensures FindSession(docs[i := s], node, activeOnly) == FindSession(docs, node, activeOnly)
  {
    FirstIndexDetermined(docs, docs[i := s], ForNode(node, activeOnly));
  }

  /** getCollaboration returns the node's active record, creating one with
      empty roster, operations and chat only when none exists; a second
      call then finds the same record and creates nothing. */
  lemma GetOrCreateOnce(docs: seq<Session>, node: NodeId, t1: Time, t2: Time)
    ensures var (d1, s1) := GetOrCreateStep(docs, node, t1);
      && s1.node == node && s1.isActive
      && (FindSession(docs, node, true).Some? ==> d1 == docs && s1 == docs[FindSession(docs, node, true).value])
      && (FindSession(docs, node, true).None? ==>
            d1 == docs + [s1] && s1.users == [] && s1.operations == [] && s1.chat == [])
      && GetOrCreateStep(d1, node, t2) == (d1, s1)
  {
    if FindSession(docs, node, true).None? {
      FirstIndexAppend(docs, NewSession(node, t1), ForNode(node, true));
    }
  }

  /** The position the next step on the node writes to after a join. */
  lemma JoinStepPosition(docs: seq<Session>, node: NodeId, u: UserId, cursor: Option<Cursor>, color: string, now: Time)
    ensures var (d, s) := JoinStep(docs, node, u, cursor, color, now);
      var i := if FindSession(docs, node, true).Some? then FindSession(docs, node, true).value else |docs|;
      && FindSession(d, node, true) == Some(i) && i < |d| && d[i] == s
      && |d| == (if FindSession(docs, node, true).Some? then |docs| else |docs| + 1)
  {
    var (d, s) := JoinStep(docs, node, u, cursor, color, now);
    match FindSession(docs, node, true)
    case Some(i) =>
      FindSessionAfterUpdate(docs, i, s, node, true);
    case None =>
      FirstIndexAppend(docs, s, ForNode(node, true));
  }

  /** Joining twice leaves the caller with exactly one roster entry, and
      the second join adds no record and no entry. */
  lemma JoinTwiceSingleEntry(docs: seq<Session>, node: NodeId, u: UserId,
                             c1: Option<Cursor>, col1: string, t1: Time,
                             c2: Option<Cursor>, col2: string, t2: Time)
    requires WellFormed(docs)
    ensures var (d1, s1) := JoinStep(docs, node, u, c1, col1, t1);
      var (d2, s2) := JoinStep(d1, node, u, c2, col2, t2);
      && |d2| == |d1| && |s2.users| == |s1.users|
      && CountUser(s2.users, u) == 1
  {
    var (d1, s1) := JoinStep(docs, node, u, c1, col1, t1);
    JoinStepPosition(docs, node, u, c1, col1, t1);
    var base := if FindSession(docs, node, true).Some? then docs[FindSession(docs, node, true).value].users else [];
    JoinRosterUnique(base, u, c1, col1, t1);
    JoinRosterExisting(s1.users, u, c2, col2, t2);
    JoinRosterUnique(s1.users, u, c2, col2, t2);
  }

  /** Leave, cursor update and chat append fail with not-found, and change
      nothing, exactly when the node has no active record. */
  lemma MutationsNeedActiveSession(docs: seq<Session>, node: NodeId, u: UserId,
                                   cursor: Option<Cursor>, selection: Option<string>, message: Option<string>, now: Time)
    ensures LeaveStep(docs, node, u, now).1.Err? <==> FindSession(docs, node, true).None?
    ensures CursorStep(docs, node, u, cursor, selection, now).1.Err? <==> FindSession(docs, node, true).None?
    ensures ChatStep(docs, node, u, message, now).1.Err? <==> FindSession(docs, node, true).None?
    ensures FindSession(docs, node, true).None? ==>
      && LeaveStep(docs, node, u, now) == (docs, Err(NotFound))
      && CursorStep(docs, node, u, cursor, selection, now) == (docs, Err(NotFound))
      && ChatStep(docs, node, u, message, now) == (docs, Err(NotFound))
  {
  }

  /** A cursor update by a user without an entry leaves every roster as it
      was; only the record's `lastActivity` moves. */
  lemma CursorAbsentUserOnlyStamps(docs: seq<Session>, node: NodeId, u: UserId,
                                   cursor: Option<Cursor>, selection: Option<string>, now: Time)
    requires FindSession(docs, node, true).Some?
    requires IndexOfUser(docs[FindSession(docs, node, true).value].users, u).None?
    ensures var i := FindSession(docs, node, true).value;
      CursorStep(docs, node, u, cursor, selection, now) == (docs[i := docs[i].(lastActivity := now)], Ok("Cursor updated successfully"))
  {
  }

  /** Two chat appends on the node's active record are logged in append
      order after everything logged before; the history shows them so when
      that record is also the node's first record. */
  lemma ChatAppendsInOrder(docs: seq<Session>, node: NodeId,
                           u1: UserId, m1: Option<string>, t1: Time,
                           u2: UserId, m2: Option<string>, t2: Time)
    requires FindSession(docs, node, true).Some?
    ensures var i := FindSession(docs, node, true).value;
      var d1 := ChatStep(docs, node, u1, m1, t1).0;
      var d2 := ChatStep(d1, node, u2, m2, t2).0;
      && |d2| == |docs|
      && d2[i].chat == docs[i].chat + [ChatMessage(u1, m1, t1), ChatMessage(u2, m2, t2)]
      && (FindSession(docs, node, false) == Some(i) ==>
            ChatHistory(d2, node) == ChatHistory(docs, node) + [ChatMessage(u1, m1, t1), ChatMessage(u2, m2, t2)])
  {
    var i := FindSession(docs, node, true).value;
    var d1 := ChatStep(docs, node, u1, m1, t1).0;
    FindSessionAfterUpdate(docs, i, d1[i], node, true);
    FindSessionAfterUpdate(docs, i, d1[i], node, false);
    var d2 := ChatStep(d1, node, u2, m2, t2).0;
    FindSessionAfterUpdate(d1, i, d2[i], node, false);
  }

  /** When an older inactive record of the node precedes the active one,
      the history shows that older record, so an append is not visible in
      it. */
  lemma ChatHistoryShadowed(docs: seq<Session>, node: NodeId, u: UserId, m: Option<string>, now: Time)
    requires FindSession(docs, node, true).Some?
    requires FindSession(docs, node, false) != FindSession(docs, node, true)
    ensures ChatHistory(ChatStep(docs, node, u, m, now).0, node) == ChatHistory(docs, node)
    ensures ChatHistory(docs, node) == docs[FindSession(docs, node, false).value].chat
  {
    var i := FindSession(docs, node, true).value;
    var d1 := ChatStep(docs, node, u, m, now).0;
    FindSessionAfterUpdate(docs, i, d1[i], node, false);
  }

  lemma UpdateKeepsWellFormed(docs: seq<Session>, i: nat, s: Session)
    requires WellFormed(docs) && i < |docs|
    requires s.node == docs[i].node && s.isActive == docs[i].isActive && UniqueUsers(s.users)
    ensures WellFormed(docs[i := s])
  {
  }

  lemma AppendKeepsWellFormed(docs: seq<Session>, s: Session)
    requires WellFormed(docs) && FindSession(docs, s.node, true).None? && UniqueUsers(s.users)
    ensures WellFormed(docs + [s])
  {
    var d := docs + [s];
    forall i, j | 0 <= i < j < |d| && d[i].isActive && d[j].isActive
      ensures d[i].node != d[j].node
    {
      if j == |docs| {
        assert !ForNode(s.node, true)(docs[i]);
      }
    }
  }

  /** getCollaboration keeps the collection invariant: it never creates a
      second active record for a node. */
  lemma GetOrCreateKeepsWellFormed(docs: seq<Session>, node: NodeId, now: Time)
    requires WellFormed(docs)
    ensures WellFormed(GetOrCreateStep(docs, node, now).0)
  {
    if FindSession(docs, node, true).None? {
      AppendKeepsWellFormed(docs, NewSession(node, now));
    }
  }

  /** Every mutating handler keeps the collection invariant: never a second
      active record for a node, never a second roster entry for a user. */
  lemma StepsKeepWellFormed(docs: seq<Session>, node: NodeId, u: UserId, cursor: Option<Cursor>,
                            selection: Option<string>, color: string, message: Option<string>, now: Time)
    requires WellFormed(docs)
    ensures WellFormed(JoinStep(docs, node, u, cursor, color, now).0)
    ensures WellFormed(LeaveStep(docs, node, u, now).0)
    ensures WellFormed(CursorStep(docs, node, u, cursor, selection, now).0)
    ensures WellFormed(ChatStep(docs, node, u, message, now).0)
  {
    match FindSession(docs, node, true)
    case None =>
      JoinRosterUnique([], u, cursor, color, now);
      AppendKeepsWellFormed(docs, JoinStep(docs, node, u, cursor, color, now).1);
    case Some(i) =>
      JoinRosterUnique(docs[i].users, u, cursor, color, now);
      UpdateKeepsWellFormed(docs, i, JoinStep(docs, node, u, cursor, color, now).1);
      LeaveRosterUnique(docs[i].users, u);
      UpdateKeepsWellFormed(docs, i, LeaveStep(docs, node, u, now).0[i]);
      CursorRosterEffect(docs[i].users, u, cursor, selection, now);
      UpdateKeepsWellFormed(docs, i, CursorStep(docs, node, u, cursor, selection, now).0[i]);
      UpdateKeepsWellFormed(docs, i, ChatStep(docs, node, u, message, now).0[i]);
  }

  /** The collaboration collection and its handlers. */
  class SessionStore {
    var docs: seq<Session>

    ghost predicate Valid()
      reads this
    {
      WellFormed(docs)
    }

    constructor ()
      ensures docs == [] && Valid()
    {
      docs := [];
    }

    /** getCollaboration (controllers/collaborationController.js:5-32). */
    method GetCollaboration(node: NodeId, now: Time) returns (session: Session)
      modifies this
      ensures (docs, session) == GetOrCreateStep(old(docs), node, now)
      ensures old(Valid()) ==> Valid()
    {
      var found := FindSession(docs, node, true);
      if found.Some? {
        session := docs[found.value];
      } else {
        session := NewSession(node, now);
        docs := docs + [session];
      }
      if old(Valid()) {
        GetOrCreateKeepsWellFormed(old(docs), node, now);
      }
    }

    /** joinCollaboration (controllers/collaborationController.js:35-82). */
    method Join(node: NodeId, user: UserId, cursor: Option<Cursor>, color: Option<string>, draw: nat, now: Time)
      returns (session: Session)
      requires draw < HexColor.DrawBound
      modifies this
      ensures (docs, session) == JoinStep(old(docs), node, user, cursor, JoinColor(color, draw), now)
      ensures old(Valid()) ==> Valid()
    {
      var found := FindSession(docs, node, true);
      session := if found.Some? then docs[found.value] else NewSession(node, now);
      var existing := IndexOfUser(session.users, user);
      if existing.None? {
        var entry := Presence(user, if cursor.Some? then cursor.value else Origin, "", now, JoinColor(color, draw));
        session := session.(users := session.users + [entry]);
      } else {
        var k := existing.value;
        session := session.(users := session.users[k := session.users[k].(lastActive := now)]);
      }
      session := session.(lastActivity := now);
      if found.Some? {
        docs := docs[found.value := session];
      } else {
        docs := docs + [session];
      }
      if old(Valid()) {
        StepsKeepWellFormed(old(docs), node, user, cursor, None, JoinColor(color, draw), None, now);
      }
    }

    /** leaveCollaboration (controllers/collaborationController.js:85-114). */
    method Leave(node: NodeId, user: UserId, now: Time) returns (r: Result<string>)
      modifies this
      ensures (docs, r) == LeaveStep(old(docs), node, user, now)
      ensures old(Valid()) ==> Valid()
    {
      var found := FindSession(docs, node, true);
      if found.None? {
        r := Err(NotFound);
        return;
      }
      var i := found.value;
      var session := docs[i];
      session := session.(users := Filter(session.users, NotUser(user)));
      session := session.(lastActivity := now);
      docs := docs[i := session];
      r := Ok("Left collaboration successfully");
      if old(Valid()) {
        StepsKeepWellFormed(old(docs), node, user, None, None, "", None, now);
      }
    }

    /** updateCursor (controllers/collaborationController.js:117-156). */
    method UpdateCursor(node: NodeId, user: UserId, cursor: Option<Cursor>, selection: Option<string>, now: Time)
      returns (r: Result<string>)
      modifies this
      ensures (docs, r) == CursorStep(old(docs), node, user, cursor, selection, now)
      ensures old(Valid()) ==> Valid()
    {
      var found := FindSession(docs, node, true);
      if found.None? {
        r := Err(NotFound);
        return;
      }
      var i := found.value;
      var session := docs[i];
      var users := session.users;
      var userIndex := IndexOfUser(users, user);
      if userIndex.Some? {
        var k := userIndex.value;
        var entry := users[k];
        if cursor.Some? {
          entry := entry.(cursorPosition := cursor.value);
        }
        if selection.Some? {
          entry := entry.(selection := selection.value);
        }
        entry := entry.(lastActive := now);
        users := users[k := entry];
      }
      session := session.(users := users, lastActivity := now);
      docs := docs[i := session];
      r := Ok("Cursor updated successfully");
      if old(Valid()) {
        StepsKeepWellFormed(old(docs), node, user, cursor, selection, "", None, now);
      }
    }

    /** addChatMessage (controllers/collaborationController.js:159-190). */
    method AddChatMessage(node: NodeId, user: UserId, message: Option<string>, now: Time)
      returns (r: Result<string>)
      modifies this
      ensures (docs, r) == ChatStep(old(docs), node, user, message, now)
      ensures old(Valid()) ==> Valid()
    {
      var found := FindSession(docs, node, true);
      if found.None? {
        r := Err(NotFound);
        return;
      }
      var i := found.value;
      var session := docs[i];
      session := session.(chat := session.chat + [ChatMessage(user, message, now)]);
      session := session.(lastActivity := now);
      docs := docs[i := session];
      r := Ok("Chat message added successfully");
      if old(Valid()) {
        StepsKeepWellFormed(old(docs), node, user, None, None, "", message, now);
      }
    }

    /** getChatHistory (controllers/collaborationController.js:193-216):
        never an error; empty when the node has no record at all. */
    method GetChatHistory(node: NodeId) returns (chat: seq<ChatMessage>)
      ensures FindSession(docs, node, false).None? ==> chat == []
      ensures FindSession(docs, node, false).Some? ==> chat == docs[FindSession(docs, node, false).value].chat
      ensures chat == ChatHistory(docs, node)
    {
      var found := FindSession(docs, node, false);
      if found.None? {
        chat := [];
      } else {
        chat := docs[found.value].chat;
      }
    }
  }
}
