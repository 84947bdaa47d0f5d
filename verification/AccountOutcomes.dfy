/** When registering, naming and deleting an account succeed, and what is true of the rows then. */
module AccountOutcomes {
  import opened Wrappers
  import opened Access
  import opened Text
  import opened Entities
  import opened Store
  import opened UseCases
  import opened Invariant
  import opened Runs
  import opened WorkspaceTheorems
  import opened Authority

  // --- registering ------------------------------------------------------------------

  /** The id is in use, or somebody has the address in some letter case. */
  ghost predicate Taken(t: Tables, u: Id, email: string) {
    u in t.users || exists o :: o in t.users && t.users[o].email == Lower(email)
  }

  /** Without a usable invitation all that registering does is to add the account, unless it is
      taken; one without a name has its profile step ahead. */
  lemma AddingExactly(t: Tables, u: Id, email: string, name: string)
    ensures var t' := AddUnlessTaken(t, u, User.New(email, name));
            if Taken(t, u, email) then t' == t
            else && t' == t.(users := t'.users) && t'.users.Keys == t.users.Keys + {u}
                 && (forall o <- t.users :: t'.users[o] == t.users[o])
                 && t'.users[u].email == Lower(email) && t'.users[u].displayName == Strip(name)
                 && t'.users[u].avatarKey == None
                 && t'.users[u].status == if Strip(name) == "" then ProfilePending else WorkspacePending
    ensures EnsureAccount(t, u, email) == AddUnlessTaken(t, u, User.New(email, ""))
    ensures !Taken(t, u, email) ==> EnsureAccount(t, u, email).users[u].status == ProfilePending
  {
    var address := Lower(email);
    assert (exists o <- t.users :: t.users[o].email == address) <==> exists o :: o in t.users && t.users[o].email == address;
  }

  lemma JoiningWasAdmitted(t: Tables, token: Token, u: Id, now: Time, later: Time)
    requires EmailsOk(Emails(t.users)) && Join(t, token, u, now, later).Success?
    ensures Admits(t, Joinable(t, token, u, now).value, token, u, now, later)
  {
    assert EmailOk(Emails(t.users)[u]);
  }

  /** With a token, the account joins exactly when the token is an invitation's for its address
      that is open at both readings of the clock; any other token is as good as none. */
  lemma RegisterExactly(t: Tables, u: Id, email: string, name: string, token: Token, now: Time, later: Time)
    requires Reachable(t, now) && now <= later
    ensures var added := AddUnlessTaken(t, u, User.New(email, name));
            && Register(t, u, email, name, None, now, later) == added
            && ((forall i :: !Admits(added, i, token, u, now, later)) ==>
                  Register(t, u, email, name, Some(token), now, later) == added)
            && forall i | Admits(added, i, token, u, now, later) ::
                 var x := added.invitations[i];
                 Register(t, u, email, name, Some(token), now, later) == added.(
                   members := added.members[(x.workspaceId, u) := Member(x.roleId)],
                   invitations := added.invitations[i := x.(status := Accepted, acceptedBy := Some(u))],
                   users := added.users[u := added.users[u].JoinedAWorkspace()])
  {
    var added := AddUnlessTaken(t, u, User.New(email, name));
    ReachableIsOk(t, now);
    AddUnlessTakenKeeps(t, u, email, name, now);
    if Join(added, token, u, now, later).Success? {
      JoiningWasAdmitted(added, token, u, now, later);
    }
    forall i | Admits(added, i, token, u, now, later)
      ensures Join(added, token, u, now, later) == Success(Joined(added, i, u))
    {
      InvitedJoins(added, i, token, u, now, later);
    }
  }

  // --- the profile ------------------------------------------------------------------

  /** Nothing but one account's row differs. */
  predicate OnlyAccount(t: Tables, t': Tables, u: Id) {
    && u in t.users && t' == t.(users := t'.users) && t'.users.Keys == t.users.Keys
    && forall o <- t.users :: o != u ==> t'.users[o] == t.users[o]
  }

  /** Naming ends the profile step: a member of some workspace has then completed onboarding,
      anybody else has the workspace step ahead. */
  lemma RenameExactly(t: Tables, u: Id, name: string)
    ensures Rename(t, u, name).Success? <==> u in t.users
    ensures u !in t.users ==> Rename(t, u, name) == Failure(AccountNotFound)
    ensures u in t.users ==>
              var t' := Rename(t, u, name).value;
              && OnlyAccount(t, t', u)
              && t'.users[u].displayName == name && t'.users[u].email == t.users[u].email
              && t'.users[u].avatarKey == t.users[u].avatarKey
              && t'.users[u].status == if t.users[u].status != ProfilePending then t.users[u].status
                                       else if exists w :: (w, u) in t.members then Completed else WorkspacePending
  {
    OwnAccountExactly(t, u);
    if m :| m in t.members && m.1 == u {
      assert (m.0, u) in t.members;
    }
    if w :| (w, u) in t.members {
      assert (w, u).1 == u;
    }
  }

  lemma SetAvatarExactly(t: Tables, u: Id, avatarKey: Option<Key>)
    ensures SetAvatar(t, u, avatarKey).Success? <==> u in t.users
    ensures u in t.users ==>
              var t' := SetAvatar(t, u, avatarKey).value;
              && OnlyAccount(t, t', u) && t'.users[u].avatarKey == avatarKey
              && t'.users[u] == t.users[u].(avatarKey := t'.users[u].avatarKey)
  {}

  // --- deleting ---------------------------------------------------------------------

  ghost predicate OwnsSome(t: Tables, u: Id) {
    exists w :: w in t.workspaces && t.workspaces[w].deletedAt == None && t.workspaces[w].ownerId == u
  }

  /** An account goes unless it owns a live workspace; with it go its memberships and the
      invitations it sent, and nothing else. */
  lemma DeleteAccountExactly(t: Tables, u: Id)
    ensures DeleteAccount(t, u).Success? <==> u in t.users && !OwnsSome(t, u)
    ensures DeleteAccount(t, u) == Failure(OwnsAWorkspace) <==> u in t.users && OwnsSome(t, u)
    ensures DeleteAccount(t, u).Success? ==>
              var t' := DeleteAccount(t, u).value;
              && t' == t.(users := t'.users, members := t'.members, invitations := t'.invitations)
              && (forall o :: o in t'.users <==> o in t.users && o != u)
              && (forall o <- t'.users :: t'.users[o] == t.users[o])
              && (forall m :: m in t'.members <==> m in t.members && m.1 != u)
              && (forall m <- t'.members :: t'.members[m] == t.members[m])
              && (forall i :: i in t'.invitations <==> i in t.invitations && t.invitations[i].invitedBy != u)
              && (forall i <- t'.invitations :: t'.invitations[i] == t.invitations[i])
  {
    OwnAccountExactly(t, u);
    assert AnyOwnedBy(t, u) <==> OwnsSome(t, u);
  }

  /** The purge takes the rows of a deleted workspace, and of none that is live. */
  lemma PurgeRowsExactly(t: Tables, now: Time, w: Id)
    requires Reachable(t, now)
    ensures var t' := PurgeRows(t, w);
            if w in t.workspaces && t.workspaces[w].deletedAt != None then
              && t' == t.(workspaces := t'.workspaces, roles := t'.roles, grants := t'.grants, members := t'.members,
                          invitations := t'.invitations)
              && (forall v :: v in t'.workspaces <==> v in t.workspaces && v != w)
              && (forall v <- t'.workspaces :: t'.workspaces[v] == t.workspaces[v])
              && (forall r :: r in t'.roles <==> r in t.roles && t.roles[r].workspaceId != w)
              && (forall r <- t'.roles :: t'.roles[r] == t.roles[r])
              && (forall r :: r in t'.grants <==> r in t.grants && (r in t.roles ==> t.roles[r].workspaceId != w))
              && (forall r <- t'.grants :: t'.grants[r] == t.grants[r])
              && t'.members == t.members
              && (forall i :: i in t'.invitations <==> i in t.invitations && t.invitations[i].workspaceId != w)
              && (forall i <- t'.invitations :: t'.invitations[i] == t.invitations[i])
            else t' == t
  {
    ReferencesHold(t, now);
  }
}
