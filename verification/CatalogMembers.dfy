/** Members are of live workspaces, however the requests interleave: whoever becomes a member
    locks the workspace, and whoever deletes it locks it too and takes its members along. */
module CatalogMembers {
  import opened Entities
  import opened Catalog
  import opened CatalogEffects
  import opened CatalogInvariant
  import opened CatalogCommit
  import opened CatalogOnboarding

  ghost predicate Housed(db: DB) {
    forall m <- db.members :: Live(db, m.0)
  }

  /** A deletion under way will notice everybody who joined since its snapshot. */
  ghost predicate SeesJoiners(db: DB, log: seq<Entry>, x: Client)
    requires x.Running? && x.op.DeleteWorkspace?
  {
    forall m <- db.members :: m.0 == x.op.w ==> m in x.base.members || Conflicted(log, x.at, WorkspaceRow(m.0))
  }

  ghost predicate DeletersSee(s: State) {
    forall c <- s.clients ::
      s.clients[c].Running? && s.clients[c].op.DeleteWorkspace? ==> SeesJoiners(s.db, s.log, s.clients[c])
  }

  // --- what a transaction does to workspaces and members ----------------------------

  /** A member row written is one that was there, or a new one under the workspace's lock. */
  ghost predicate MovesIn(a: DB, e: Effect, m: (Id, Id)) {
    m in a.members || (WorkspaceRow(m.0) in e.conflicts && Live(Apply(a, e.delta), m.0))
  }

  /** A workspace that is no longer live was not, or loses all its members. */
  ghost predicate Empties(a: DB, e: Effect, op: Op, w: Id) {
    || !Live(a, w)
    || (op == DeleteWorkspace(w) && WorkspaceRow(w) in e.conflicts
        && forall m <- a.members :: m.0 == w ==> m in e.delta.members && e.delta.members[m].None?)
  }

  ghost predicate KeepsHouse(a: DB, e: Effect, op: Op) {
    && (forall m <- e.delta.members :: e.delta.members[m].Some? ==> MovesIn(a, e, m))
    && (forall w <- e.delta.workspaces ::
          (e.delta.workspaces[w].Some? && e.delta.workspaces[w].value.Live()) || Empties(a, e, op, w))
  }

  lemma ArrivalsKeepHouse(a: DB, op: Op, newId: Id)
    ensures op.FoundWorkspace? && WorkFound(a, op, newId).Success? ==> KeepsHouse(a, WorkFound(a, op, newId).value, op)
    ensures op.JoinWorkspace? && WorkJoin(a, op).Success? ==> KeepsHouse(a, WorkJoin(a, op).value, op)
  {}

  lemma RolesKeepHouse(a: DB, op: Op)
    ensures op.AssignRole? && WorkAssign(a, op).Success? ==> KeepsHouse(a, WorkAssign(a, op).value, op)
    ensures op.TransferWorkspace? && WorkTransfer(a, op).Success? ==> KeepsHouse(a, WorkTransfer(a, op).value, op)
    ensures op.DropMember? && WorkDrop(a, op).Success? ==> KeepsHouse(a, WorkDrop(a, op).value, op)
  {}

  lemma DeletionsKeepHouse(a: DB, op: Op, now: Time, newId: Id)
    ensures op.DeleteWorkspace? && WorkDeleteWorkspace(a, op, now, newId).Success? ==>
              KeepsHouse(a, WorkDeleteWorkspace(a, op, now, newId).value, op)
    ensures op.PurgeRows? ==> KeepsHouse(a, WorkPurgeRows(a, op).value, op)
    ensures op.CloseAccount? && WorkClose(a, op).Success? ==> KeepsHouse(a, WorkClose(a, op).value, op)
  {}

  lemma OtherWorkKeepsHouse(a: DB, q: Quotas, op: Op, stored: seq<Key>, now: Time, newId: Id, batch: set<Id>)
    requires |stored| == Uploads(op) && Work(a, q, op, stored, now, newId, batch).Success?
    requires op.SetLogo? || op.RenameWorkspace? || op.OpenAccount? || op.RenameAccount? || op.SetAvatar?
    ensures KeepsHouse(a, Work(a, q, op, stored, now, newId, batch).value, op)
  {}

  lemma ProductWorkKeepsHouse(a: DB, q: Quotas, op: Op, stored: seq<Key>, now: Time, newId: Id, batch: set<Id>)
    requires |stored| == Uploads(op) && Work(a, q, op, stored, now, newId, batch).Success?
    requires WorkspaceOf(op).Some? || op.PurgeBatch?
    ensures KeepsHouse(a, Work(a, q, op, stored, now, newId, batch).value, op)
  {}

  lemma EveryWorkKeepsHouse(a: DB, q: Quotas, op: Op, stored: seq<Key>, now: Time, newId: Id, batch: set<Id>)
    requires |stored| == Uploads(op) && Work(a, q, op, stored, now, newId, batch).Success?
    ensures KeepsHouse(a, Work(a, q, op, stored, now, newId, batch).value, op)
  {
    match op {
      case FoundWorkspace(_, _, _) => ArrivalsKeepHouse(a, op, newId);
      case JoinWorkspace(_, _, _) => ArrivalsKeepHouse(a, op, newId);
      case AssignRole(_, _, _) => RolesKeepHouse(a, op);
      case TransferWorkspace(_, _, _) => RolesKeepHouse(a, op);
      case DropMember(_, _) => RolesKeepHouse(a, op);
      case DeleteWorkspace(_) => DeletionsKeepHouse(a, op, now, newId);
      case PurgeRows(_) => DeletionsKeepHouse(a, op, now, newId);
      case CloseAccount(_) => DeletionsKeepHouse(a, op, now, newId);
      case _ =>
        if WorkspaceOf(op).Some? || op.PurgeBatch? {
          ProductWorkKeepsHouse(a, q, op, stored, now, newId, batch);
        } else {
          OtherWorkKeepsHouse(a, q, op, stored, now, newId, batch);
        }
    }
  }

  // --- a commit ---------------------------------------------------------------------

  ghost predicate Housing(s: State, q: Quotas, c: Id, e: Effect) {
    && Committing(s, q, c, e) && Housed(s.db) && DeletersSee(s)
    && KeepsHouse(s.clients[c].base, e, s.clients[c].op)
    && Guarded(e) && SameSince(s.db, s.log, s.clients[c])
  }

  /** A member row that is new comes with its workspace's row among the conflicts. */
  lemma NewMembersLock(s: State, q: Quotas, c: Id, e: Effect, m: (Id, Id))
    requires Housing(s, q, c, e) && m in Apply(s.db, e.delta).members && m !in s.db.members
    ensures WorkspaceRow(m.0) in e.conflicts && Live(Apply(s.clients[c].base, e.delta), m.0)
  {
    var x := s.clients[c];
    assert Writes(e.delta, MemberRow(m.0, m.1));
    assert SameRow(x.base, s.db, MemberRow(m.0, m.1));
    assert MovesIn(x.base, e, m);
  }

  lemma LiveAfterToo(a: DB, b: DB, d: Delta, w: Id)
    requires At(a.workspaces, w) == At(b.workspaces, w)
    ensures Live(Apply(a, d), w) <==> Live(Apply(b, d), w)
  {}

  /** Whoever was a member and still is did not lose the workspace. */
  lemma OldMembersStayHoused(s: State, q: Quotas, c: Id, e: Effect, m: (Id, Id))
    requires Housing(s, q, c, e) && m in Apply(s.db, e.delta).members && m in s.db.members
    ensures Live(Apply(s.db, e.delta), m.0)
  {
    var x, w := s.clients[c], m.0;
    if w in e.delta.workspaces {
      assert Writes(e.delta, WorkspaceRow(w));
      assert SameRow(x.base, s.db, WorkspaceRow(w));
      assert Live(x.base, w);
      if x.op == DeleteWorkspace(w) {
        assert SeesJoiners(s.db, s.log, x);
      }
    }
  }

  lemma CommitStaysHoused(s: State, q: Quotas, c: Id, e: Effect)
    requires Housing(s, q, c, e)
    ensures Housed(Apply(s.db, e.delta))
  {
    forall m <- Apply(s.db, e.delta).members ensures Live(Apply(s.db, e.delta), m.0) {
      if m in s.db.members {
        OldMembersStayHoused(s, q, c, e, m);
      } else {
        NewMembersLock(s, q, c, e, m);
        assert SameRow(s.clients[c].base, s.db, WorkspaceRow(m.0));
        LiveAfterToo(s.clients[c].base, s.db, e.delta, m.0);
      }
    }
  }

  lemma OtherDeletersSee(s: State, q: Quotas, c: Id, e: Effect, o: Id)
    requires Housing(s, q, c, e) && o in s.clients && s.clients[o].Running? && s.clients[o].op.DeleteWorkspace?
    requires s.clients[o].at <= |s.log|
    ensures SeesJoiners(Apply(s.db, e.delta), s.log + [Entry(e.conflicts, e.edit)], s.clients[o])
  {
    var y := s.clients[o];
    forall m <- Apply(s.db, e.delta).members | m.0 == y.op.w
      ensures m in y.base.members || Conflicted(s.log + [Entry(e.conflicts, e.edit)], y.at, WorkspaceRow(m.0))
    {
      ConflictedGrows(s.log, Entry(e.conflicts, e.edit), y.at, WorkspaceRow(m.0));
      if m !in s.db.members {
        NewMembersLock(s, q, c, e, m);
      } else {
        assert SeesJoiners(s.db, s.log, y);
      }
    }
  }

  lemma CommitKeepsHouse(s: State, s': State, q: Quotas, c: Id)
    requires Inv(s, q) && Commits(s, s', q, c) && Housed(s.db) && DeletersSee(s)
    ensures Housed(s'.db) && DeletersSee(s')
  {
    var x := s.clients[c];
    var e := WorkOf(q, x).value;
    Pays(s, q, c, e);
    EveryWorkKeepsHouse(x.base, q, x.op, x.stored, x.now, x.newId, x.batch);
    CommitStaysHoused(s, q, c, e);
    forall o <- s'.clients | s'.clients[o].Running? && s'.clients[o].op.DeleteWorkspace?
      ensures SeesJoiners(s'.db, s'.log, s'.clients[o])
    {
      assert ClientOk(s, s.clients[o]);
      OtherDeletersSee(s, q, c, e, o);
    }
  }

  // --- whole runs -------------------------------------------------------------------

  lemma QuietStepKeepsHouse(s: State, s': State, q: Quotas)
    requires Steps(s, s', q) && s'.db == s.db && s'.log == s.log && DeletersSee(s)
    ensures DeletersSee(s')
  {
    forall o <- s'.clients | s'.clients[o].Running? && s'.clients[o].op.DeleteWorkspace?
      ensures SeesJoiners(s'.db, s'.log, s'.clients[o])
    {
      OpensOrGoesOn(s, s', q, o);
      assert o in s.clients && s.clients[o].Running? && s.clients[o].op.DeleteWorkspace? ==>
          SeesJoiners(s.db, s.log, s.clients[o]);
    }
  }

  lemma {:induction false} HousedUntil(states: seq<State>, q: Quotas, i: nat)
    requires IsRun(states, q) && i < |states|
    ensures Housed(states[i].db) && DeletersSee(states[i])
    decreases i
  {
    if i > 0 {
      var j := i - 1;
      HousedUntil(states, q, j);
      InvAlways(states, q, j);
      assert Steps(states[j], states[j + 1], q);
      var commit := QuietOrCommit(states[j], states[j + 1], q);
      if commit.Some? {
        CommitKeepsHouse(states[j], states[j + 1], q, commit.value);
      } else {
        QuietStepKeepsHouse(states[j], states[j + 1], q);
      }
    }
  }

  /** In every state of every run each member row names a live workspace. */
  lemma MembersAreHoused(states: seq<State>, q: Quotas, i: nat)
    requires IsRun(states, q) && i < |states|
    ensures forall m <- states[i].db.members :: Live(states[i].db, m.0)
    ensures forall w :: !Live(states[i].db, w) ==> MembersIn(states[i].db, w) == {}
  {
    HousedUntil(states, q, i);
  }

  /** So the purge of a deleted workspace's rows takes nobody's membership: of the ways to leave
      onboarding and membership apart, it is none. */
  lemma PurgesMisjudgeNobody(states: seq<State>, q: Quotas, i: nat, c: Id)
    requires IsRun(states, q) && CommitAt(states, q, i, c) && states[i].clients[c].op.PurgeRows?
    ensures !Misjudges(states[i].clients[c].base, states[i].db, states[i].clients[c].op)
  {
    HousedUntil(states, q, i);
    InvAlways(states, q, i);
    PurgeFindsNobody(states[i], q, c, WorkOf(q, states[i].clients[c]).value);
  }

  lemma PurgeFindsNobody(s: State, q: Quotas, c: Id, e: Effect)
    requires Committing(s, q, c, e) && Housed(s.db) && s.clients[c].op.PurgeRows?
    ensures !Misjudges(s.clients[c].base, s.db, s.clients[c].op)
  {
    var x := s.clients[c];
    var w := x.op.w;
    Pays(s, q, c, e);
    if w in x.base.workspaces && !Live(x.base, w) {
      assert SameRow(x.base, s.db, WorkspaceRow(w));
      PurgeWrites(x.base, x.op);
      forall m <- MembersIn(x.base, w) ensures m in s.db.members {
        assert SameRow(x.base, s.db, MemberRow(m.0, m.1));
      }
      assert MembersIn(x.base, w) == {};
    }
  }
}
