/** When no commit can strand a workspace or a membership. A founding or a joining that completes
    the onboarding of its account writes that account's row, which closing the account deletes:
    the two cannot both pass validation. One by an account past onboarding is safe as long as
    no close of that account overlaps it. */
module CatalogOverlaps {
  import opened Wrappers
  import opened Access
  import opened Entities
  import opened Catalog
  import opened CatalogEffects
  import opened CatalogInvariant
  import opened CatalogCommit
  import opened CatalogOwners

  /** The account that founds or joins a workspace. */
  function Newcomer(op: Op): Option<Id> {
    match op
    case FoundWorkspace(founder, _, _) => Some(founder)
    case JoinWorkspace(_, u, _) => Some(u)
    case _ => None
  }

  /** What a caller can see before the transaction: it will complete the account's onboarding. */
  ghost predicate Onboards(a: DB, op: Op) {
    match op
    case FoundWorkspace(founder, _, _) => founder in a.accounts ==> a.accounts[founder].status != Completed
    case JoinWorkspace(_, u, _) => u in a.accounts ==> a.accounts[u].status == WorkspacePending
    case _ => true
  }

  ghost predicate Closing(s: State, c: Id, u: Id) {
    c in s.clients && s.clients[c].Running? && s.clients[c].op == CloseAccount(u)
  }

  /** A close of account `u` is running, or committed since the account was last seen. */
  ghost predicate Overlaps(s: State, u: Id) {
    u !in s.db.accounts || exists c :: Closing(s, c, u)
  }

  /** What keeps the commit of client `c` apart from every close of its newcomer's account. */
  ghost predicate KeepsApart(s: State, c: Id)
    requires c in s.clients && s.clients[c].Running?
  {
    var op := s.clients[c].op;
    Newcomer(op).Some? ==> Onboards(s.clients[c].base, op) || !Overlaps(s, Newcomer(op).value)
  }

  // --- what holds at every moment ---------------------------------------------------

  ghost predicate MembersExist(db: DB) {
    forall m <- db.members :: m.1 in db.accounts
  }

  ghost predicate OwnersBelong(db: DB) {
    forall w :: Live(db, w) ==> (w, db.workspaces[w].ownerId) in db.members
  }

  /** A request closing account `u` will notice every membership and workspace `u` gained since
      its snapshot: the commit that gave it wrote a row the close deletes. */
  ghost predicate Notices(db: DB, log: seq<Entry>, x: Client, u: Id)
    requires x.Running?
  {
    && (forall w :: (w, u) in db.members ==> (w, u) in x.base.members || Conflicted(log, x.at, AccountRow(u)))
    && (forall w :: Live(db, w) && db.workspaces[w].ownerId == u ==>
          || (Live(x.base, w) && x.base.workspaces[w].ownerId == u)
          || Conflicted(log, x.at, MemberRow(w, u))
          || Conflicted(log, x.at, AccountRow(u)))
  }

  ghost predicate ClosersNotice(s: State) {
    forall c <- s.clients ::
      s.clients[c].Running? && s.clients[c].op.CloseAccount? ==> Notices(s.db, s.log, s.clients[c], s.clients[c].op.u)
  }

  ghost predicate Named(s: State) {
    MembersExist(s.db) && OwnersBelong(s.db) && ClosersNotice(s)
  }

  // --- what a transaction does to memberships ---------------------------------------

  ghost predicate Joins(a: DB, op: Op, m: (Id, Id)) {
    m in a.members || Newcomer(op) == Some(m.1)
  }

  ghost predicate Leaves(a: DB, e: Effect, op: Op, m: (Id, Id)) {
    || op == CloseAccount(m.1)
    || (WorkspaceRow(m.0) in e.conflicts
        && !(Live(Apply(a, e.delta), m.0) && Apply(a, e.delta).workspaces[m.0].ownerId == m.1))
  }

  ghost predicate Owns(a: DB, e: Effect, w: Id, row: Workspace) {
    || (Live(a, w) && a.workspaces[w].ownerId == row.ownerId)
    || ((w, row.ownerId) in e.delta.members && e.delta.members[(w, row.ownerId)].Some?)
  }

  ghost predicate ClosesCleanly(a: DB, e: Effect, u: Id) {
    && !OwnsLive(a, u) && AccountRow(u) in e.conflicts && e.delta.workspaces == map[]
    && (forall m <- a.members :: m.1 == u ==> MemberRow(m.0, m.1) in e.conflicts && m in e.delta.members)
    && (forall m <- e.delta.members :: e.delta.members[m].None?)
  }

  ghost predicate MembersMove(a: DB, e: Effect, op: Op) {
    && (forall m <- e.delta.members :: if e.delta.members[m].Some? then Joins(a, op, m) else Leaves(a, e, op, m))
    && (forall w <- e.delta.workspaces ::
          e.delta.workspaces[w].Some? && e.delta.workspaces[w].value.Live() ==> Owns(a, e, w, e.delta.workspaces[w].value))
    && (forall u <- e.delta.accounts :: e.delta.accounts[u].None? ==> op == CloseAccount(u))
    && (op.CloseAccount? ==> ClosesCleanly(a, e, op.u))
  }

  lemma CloseMovesMembers(a: DB, op: Op)
    requires op.CloseAccount? && WorkClose(a, op).Success?
    ensures MembersMove(a, WorkClose(a, op).value, op)
  {
    forall m <- a.members | m.1 == op.u ensures MemberRow(m.0, m.1) in WorkClose(a, op).value.conflicts {
      MemberRowsListed(MembershipsOf(a, op.u), m.0, m.1);
    }
  }

  lemma GoneMovesMembers(a: DB, op: Op, now: Time, newId: Id)
    ensures op.DeleteWorkspace? && WorkDeleteWorkspace(a, op, now, newId).Success? ==>
              MembersMove(a, WorkDeleteWorkspace(a, op, now, newId).value, op)
    ensures op.PurgeRows? ==> MembersMove(a, WorkPurgeRows(a, op).value, op)
  {}

  lemma MembershipMovesMembers(a: DB, op: Op, newId: Id)
    requires forall w <- a.workspaces :: w < newId
    ensures op.FoundWorkspace? && WorkFound(a, op, newId).Success? ==> MembersMove(a, WorkFound(a, op, newId).value, op)
    ensures op.JoinWorkspace? && WorkJoin(a, op).Success? ==> MembersMove(a, WorkJoin(a, op).value, op)
  {}

  lemma RoleMovesMembers(a: DB, op: Op)
    ensures op.AssignRole? && WorkAssign(a, op).Success? ==> MembersMove(a, WorkAssign(a, op).value, op)
    ensures op.DropMember? && WorkDrop(a, op).Success? ==> MembersMove(a, WorkDrop(a, op).value, op)
    ensures op.TransferWorkspace? && WorkTransfer(a, op).Success? ==> MembersMove(a, WorkTransfer(a, op).value, op)
  {}

  predicate MovesMembers(op: Op) {
    || op.CloseAccount? || op.DeleteWorkspace? || op.PurgeRows? || op.FoundWorkspace? || op.JoinWorkspace?
    || op.AssignRole? || op.DropMember? || op.TransferWorkspace?
  }

  lemma OtherWorkLeavesMembers(a: DB, q: Quotas, op: Op, stored: seq<Key>, now: Time, newId: Id, batch: set<Id>)
    requires |stored| == Uploads(op) && Work(a, q, op, stored, now, newId, batch).Success? && !MovesMembers(op)
    ensures MembersMove(a, Work(a, q, op, stored, now, newId, batch).value, op)
  {}

  lemma EveryWorkMovesMembers(a: DB, q: Quotas, op: Op, stored: seq<Key>, now: Time, newId: Id, batch: set<Id>)
    requires forall w <- a.workspaces :: w < newId
    requires |stored| == Uploads(op) && Work(a, q, op, stored, now, newId, batch).Success?
    ensures MembersMove(a, Work(a, q, op, stored, now, newId, batch).value, op)
  {
    match op {
      case CloseAccount(_) => CloseMovesMembers(a, op);
      case DeleteWorkspace(_) => GoneMovesMembers(a, op, now, newId);
      case PurgeRows(_) => GoneMovesMembers(a, op, now, newId);
      case FoundWorkspace(_, _, _) => MembershipMovesMembers(a, op, newId);
      case JoinWorkspace(_, _, _) => MembershipMovesMembers(a, op, newId);
      case AssignRole(_, _, _) => RoleMovesMembers(a, op);
      case DropMember(_, _) => RoleMovesMembers(a, op);
      case TransferWorkspace(_, _, _) => RoleMovesMembers(a, op);
      case _ => OtherWorkLeavesMembers(a, q, op, stored, now, newId, batch);
    }
  }

  // --- a commit ---------------------------------------------------------------------

  /** A newcomer's account exists at the commit, and no close of it fails to notice. */
  ghost predicate Welcomed(s: State, e: Effect, op: Op) {
    Newcomer(op).Some? ==>
      var u := Newcomer(op).value;
      u in s.db.accounts && (AccountRow(u) in e.conflicts || !exists c :: Closing(s, c, u))
  }

  ghost predicate Settling(s: State, q: Quotas, c: Id, e: Effect) {
    && Committing(s, q, c, e) && Named(s)
    && MembersMove(s.clients[c].base, e, s.clients[c].op)
    && Welcomed(s, e, s.clients[c].op)
    && Guarded(e) && Current(s.clients[c].base, s.db, e.delta)
    && SameSince(s.db, s.log, s.clients[c])
  }

  /** Completing an onboarding writes the account's row. */
  lemma OnboardingWritesTheAccount(a: DB, q: Quotas, op: Op, stored: seq<Key>, now: Time, newId: Id, batch: set<Id>)
    requires |stored| == Uploads(op) && Work(a, q, op, stored, now, newId, batch).Success? && Newcomer(op).Some?
    ensures Newcomer(op).value in a.accounts
    ensures Onboards(a, op) <==> AccountRow(Newcomer(op).value) in Work(a, q, op, stored, now, newId, batch).value.conflicts
  {}

  lemma Settles(s: State, q: Quotas, c: Id, e: Effect)
    requires Committing(s, q, c, e) && Named(s) && KeepsApart(s, c)
    ensures Settling(s, q, c, e)
  {
    var x := s.clients[c];
    Pays(s, q, c, e);
    EveryWorkMovesMembers(x.base, q, x.op, x.stored, x.now, x.newId, x.batch);
    if Newcomer(x.op).Some? {
      OnboardingWritesTheAccount(x.base, q, x.op, x.stored, x.now, x.newId, x.batch);
      if Onboards(x.base, x.op) {
        assert SameRow(x.base, s.db, AccountRow(Newcomer(x.op).value));
      }
    }
  }

  lemma ClosedRowsAreCurrent(s: State, q: Quotas, c: Id, e: Effect, w: Id)
    requires Settling(s, q, c, e) && s.clients[c].op.CloseAccount? && (w, s.clients[c].op.u) in s.db.members
    ensures (w, s.clients[c].op.u) in e.delta.members
    ensures !Conflicted(s.log, s.clients[c].at, MemberRow(w, s.clients[c].op.u))
  {
    var x := s.clients[c];
    var u := x.op.u;
    assert Notices(s.db, s.log, x, u);
    assert !Conflicted(s.log, x.at, AccountRow(u));
    assert (w, u) in x.base.members;
    assert MemberRow((w, u).0, (w, u).1) in e.conflicts;
  }

  /** A close that passes validation finds no more than its snapshot showed. */
  lemma ClosingMissesNothing(s: State, q: Quotas, c: Id, e: Effect)
    requires Settling(s, q, c, e) && s.clients[c].op.CloseAccount?
    ensures !OwnsLive(s.db, s.clients[c].op.u)
    ensures forall m <- s.db.members :: m.1 == s.clients[c].op.u ==> m in e.delta.members
  {
    var x := s.clients[c];
    var u := x.op.u;
    assert Notices(s.db, s.log, x, u);
    assert !Conflicted(s.log, x.at, AccountRow(u));
    forall m <- s.db.members | m.1 == u ensures m in e.delta.members {
      ClosedRowsAreCurrent(s, q, c, e, m.0);
    }
    forall w | Live(s.db, w) ensures s.db.workspaces[w].ownerId != u {
      assert (w, s.db.workspaces[w].ownerId) in s.db.members;
      if (w, u) in s.db.members {
        ClosedRowsAreCurrent(s, q, c, e, w);
      }
    }
  }

  lemma MembersStillExist(s: State, q: Quotas, c: Id, e: Effect)
    requires Settling(s, q, c, e)
    ensures MembersExist(Apply(s.db, e.delta))
  {
    var x, db := s.clients[c], Apply(s.db, e.delta);
    if x.op.CloseAccount? {
      ClosingMissesNothing(s, q, c, e);
    }
    forall m <- db.members ensures m.1 in db.accounts {
      if m in e.delta.members {
        assert Joins(x.base, x.op, m);
        assert Writes(e.delta, MemberRow(m.0, m.1));
        assert SameRow(x.base, s.db, MemberRow(m.0, m.1));
      }
      assert m.1 in s.db.accounts;
    }
  }

  lemma OwnersStillBelong(s: State, q: Quotas, c: Id, e: Effect)
    requires Settling(s, q, c, e)
    ensures OwnersBelong(Apply(s.db, e.delta))
  {
    var x, db := s.clients[c], Apply(s.db, e.delta);
    if x.op.CloseAccount? {
      ClosingMissesNothing(s, q, c, e);
    }
    forall w | Live(db, w) ensures (w, db.workspaces[w].ownerId) in db.members {
      OwnerStillBelongs(s, q, c, e, w);
    }
  }

  lemma OwnersDoNotLeave(a: DB, b: DB, e: Effect, op: Op, w: Id)
    requires Live(Apply(b, e.delta), w) && (WorkspaceRow(w) in e.conflicts ==> SameRow(a, b, WorkspaceRow(w)))
    requires op.CloseAccount? ==> !OwnsLive(b, op.u) && e.delta.workspaces == map[]
    ensures !Leaves(a, e, op, (w, Apply(b, e.delta).workspaces[w].ownerId))
  {
    PatchNone(b.workspaces);
  }

  lemma OwnerDoesNotLeave(s: State, q: Quotas, c: Id, e: Effect, w: Id, owner: Id)
    requires Settling(s, q, c, e) && Live(Apply(s.db, e.delta), w)
    requires owner == Apply(s.db, e.delta).workspaces[w].ownerId
    requires s.clients[c].op.CloseAccount? ==> !OwnsLive(s.db, s.clients[c].op.u)
    ensures (w, owner) in e.delta.members ==> e.delta.members[(w, owner)].Some?
  {
    var x := s.clients[c];
    if WorkspaceRow(w) in e.conflicts {
      assert SameRow(x.base, s.db, WorkspaceRow(w));
    }
    OwnersDoNotLeave(x.base, s.db, e, x.op, w);
  }

  lemma OwnerStillBelongs(s: State, q: Quotas, c: Id, e: Effect, w: Id)
    requires Settling(s, q, c, e) && Live(Apply(s.db, e.delta), w)
    requires s.clients[c].op.CloseAccount? ==> !OwnsLive(s.db, s.clients[c].op.u)
    ensures (w, Apply(s.db, e.delta).workspaces[w].ownerId) in Apply(s.db, e.delta).members
  {
    var x, db := s.clients[c], Apply(s.db, e.delta);
    var owner := db.workspaces[w].ownerId;
    OwnerDoesNotLeave(s, q, c, e, w, owner);
    if w in e.delta.workspaces {
      assert Writes(e.delta, WorkspaceRow(w));
      assert SameRow(x.base, s.db, WorkspaceRow(w));
      assert Owns(x.base, e, w, e.delta.workspaces[w].value);
    }
  }

  lemma CloserNoticesMembers(s: State, q: Quotas, c: Id, e: Effect, o: Id, u: Id, w: Id)
    requires Settling(s, q, c, e) && Closing(s, o, u) && s.clients[o].at <= |s.log|
    requires Notices(s.db, s.log, s.clients[o], u) && (w, u) in Apply(s.db, e.delta).members
    ensures (w, u) in s.clients[o].base.members
         || Conflicted(s.log + [Entry(e.conflicts, e.edit)], s.clients[o].at, AccountRow(u))
  {
    var x := s.clients[c];
    ConflictedGrows(s.log, Entry(e.conflicts, e.edit), s.clients[o].at, AccountRow(u));
    if (w, u) !in s.db.members {
      assert Writes(e.delta, MemberRow(w, u));
      assert SameRow(x.base, s.db, MemberRow(w, u));
      assert Joins(x.base, x.op, (w, u));
    }
  }

  lemma CloserNoticesOwnership(s: State, q: Quotas, c: Id, e: Effect, o: Id, u: Id, w: Id)
    requires Settling(s, q, c, e) && Closing(s, o, u) && s.clients[o].at <= |s.log|
    requires Notices(s.db, s.log, s.clients[o], u)
    requires Live(Apply(s.db, e.delta), w) && Apply(s.db, e.delta).workspaces[w].ownerId == u
    ensures var y, log := s.clients[o], s.log + [Entry(e.conflicts, e.edit)];
            || (Live(y.base, w) && y.base.workspaces[w].ownerId == u)
            || Conflicted(log, y.at, MemberRow(w, u))
            || Conflicted(log, y.at, AccountRow(u))
  {
    var x := s.clients[c];
    ConflictedGrows(s.log, Entry(e.conflicts, e.edit), s.clients[o].at, AccountRow(u));
    ConflictedGrows(s.log, Entry(e.conflicts, e.edit), s.clients[o].at, MemberRow(w, u));
    if w in e.delta.workspaces {
      assert Writes(e.delta, WorkspaceRow(w));
      assert SameRow(x.base, s.db, WorkspaceRow(w));
      assert Owns(x.base, e, w, e.delta.workspaces[w].value);
      assert (w, u) in e.delta.members ==> Writes(e.delta, MemberRow(w, u));
    }
  }

  lemma CommitStaysNamed(s: State, s': State, q: Quotas, c: Id)
    requires Inv(s, q) && Named(s) && Commits(s, s', q, c) && KeepsApart(s, c)
    ensures Named(s')
  {
    var e := WorkOf(q, s.clients[c]).value;
    Settles(s, q, c, e);
    MembersStillExist(s, q, c, e);
    OwnersStillBelong(s, q, c, e);
    forall o <- s'.clients | s'.clients[o].Running? && s'.clients[o].op.CloseAccount?
      ensures Notices(s'.db, s'.log, s'.clients[o], s'.clients[o].op.u)
    {
      var y, u := s.clients[o], s.clients[o].op.u;
      assert ClientOk(s, y) && Closing(s, o, u) && Notices(s.db, s.log, y, u);
      forall w | (w, u) in s'.db.members ensures (w, u) in y.base.members || Conflicted(s'.log, y.at, AccountRow(u)) {
        CloserNoticesMembers(s, q, c, e, o, u, w);
      }
      forall w | Live(s'.db, w) && s'.db.workspaces[w].ownerId == u
        ensures (Live(y.base, w) && y.base.workspaces[w].ownerId == u)
             || Conflicted(s'.log, y.at, MemberRow(w, u)) || Conflicted(s'.log, y.at, AccountRow(u))
      {
        CloserNoticesOwnership(s, q, c, e, o, u, w);
      }
    }
  }

  // --- whole runs -------------------------------------------------------------------

  /** A step that is no commit changes no row; a transaction it opens sees the rows as they are. */
  lemma QuietStepStaysNamed(s: State, s': State, q: Quotas)
    requires Named(s) && Steps(s, s', q) && s'.db == s.db && s'.log == s.log
    ensures Named(s')
  {
    forall c <- s'.clients | s'.clients[c].Running? && s'.clients[c].op.CloseAccount?
      ensures Notices(s'.db, s'.log, s'.clients[c], s'.clients[c].op.u)
    {
      OpensOrGoesOn(s, s', q, c);
    }
  }

  /** Every founding and joining either completes an onboarding or meets no close. */
  ghost predicate AllApart(states: seq<State>, q: Quotas) {
    forall i: nat, c | CommitAt(states, q, i, c) :: KeepsApart(states[i], c)
  }

  lemma {:induction false} NamedAlways(states: seq<State>, q: Quotas, i: nat)
    requires IsRun(states, q) && i < |states| && AllApart(states, q)
    ensures Named(states[i])
    decreases i
  {
    if i > 0 {
      var j := i - 1;
      NamedAlways(states, q, j);
      InvAlways(states, q, j);
      assert Steps(states[j], states[j + 1], q);
      var commit := QuietOrCommit(states[j], states[j + 1], q);
      if commit.Some? {
        assert CommitAt(states, q, j, commit.value);
        CommitStaysNamed(states[j], states[j + 1], q, commit.value);
      } else {
        QuietStepStaysNamed(states[j], states[j + 1], q);
      }
    }
  }

  /** As long as no close of an account overlaps its founding or joining a workspace past
      onboarding, whoever is a member of something exists, and the owner of every live workspace
      exists and is a member of it, in every state of the run. */
  lemma OwnersExistWithoutOverlap(states: seq<State>, q: Quotas, i: nat)
    requires IsRun(states, q) && i < |states| && AllApart(states, q)
    ensures OwnersExist(states[i].db) && MembersExist(states[i].db) && OwnersBelong(states[i].db)
  {
    NamedAlways(states, q, i);
    var db := states[i].db;
    forall w | Live(db, w) ensures db.workspaces[w].ownerId in db.accounts {
      assert (w, db.workspaces[w].ownerId) in db.members;
    }
  }

  /** In particular when every founding and joining completes an onboarding, as its snapshot
      shows: such a transaction and a close of its account never both commit. */
  lemma OwnersExistWhileOnboarding(states: seq<State>, q: Quotas, i: nat)
    requires IsRun(states, q) && i < |states|
    requires forall j: nat, c | CommitAt(states, q, j, c) :: Onboards(states[j].clients[c].base, states[j].clients[c].op)
    ensures OwnersExist(states[i].db) && MembersExist(states[i].db)
  {
    forall j: nat, c | CommitAt(states, q, j, c) ensures KeepsApart(states[j], c) {
      assert Onboards(states[j].clients[c].base, states[j].clients[c].op);
    }
    OwnersExistWithoutOverlap(states, q, i);
  }
}
