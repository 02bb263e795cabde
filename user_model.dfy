/** The part of a user record that the workspace handlers write: its list
    of workspace ids (models/User.js:33-36). The rest of the user record
    and models/User.js's password hashing are not part of this model. */
module UserModel {
  import opened Common

  /** `User.findByIdAndUpdate(user, { $push: { workspaces: w } })`: appends
      to an existing user's list and does nothing for an unknown id. */
  function PushWorkspace(lists: map<UserId, seq<WorkspaceId>>, user: UserId, w: WorkspaceId): map<UserId, seq<WorkspaceId>>
  {
    if user in lists then lists[user := lists[user] + [w]] else lists
  }

  /** `User.findByIdAndUpdate(user, { $pull: { workspaces: w } })`: removes
      every occurrence from an existing user's list. */
  function PullWorkspace(lists: map<UserId, seq<WorkspaceId>>, user: UserId, w: WorkspaceId): map<UserId, seq<WorkspaceId>>
  {
    if user in lists then lists[user := Filter(lists[user], Other(w))] else lists
  }

  /** Pulling what was just pushed leaves no trace of it in that user's
      list, and other users' lists are untouched by both updates. */
  lemma PushThenPull(lists: map<UserId, seq<WorkspaceId>>, user: UserId, w: WorkspaceId)
    ensures var after := PullWorkspace(PushWorkspace(lists, user, w), user, w);
      && after.Keys == lists.Keys
      && (user in lists ==> after[user] == Filter(lists[user], Other(w)) && w !in after[user])
      && (forall v :: v in lists && v != user ==> after[v] == lists[v])
  {
    if user in lists {
      FilterConcat(lists[user], [w], Other(w));
    }
  }

  /** The users collection, reduced to each user's workspace list. */
  class UserCollection {
    var workspaces: map<UserId, seq<WorkspaceId>>

    constructor ()
      ensures workspaces == map[]
    {
      workspaces := map[];
    }

    method Push(user: UserId, w: WorkspaceId)
      modifies this
      ensures workspaces == PushWorkspace(old(workspaces), user, w)
    {
      if user in workspaces {
        workspaces := workspaces[user := workspaces[user] + [w]];
      }
    }

    method Pull(user: UserId, w: WorkspaceId)
      modifies this
      ensures workspaces == PullWorkspace(old(workspaces), user, w)
    {
      if user in workspaces {
        workspaces := workspaces[user := Filter(workspaces[user], Other(w))];
      }
    }
  }
}
