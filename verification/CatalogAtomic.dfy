/** A commit that passes validation is one atomic step on the latest database, as long as what
    its transaction read without locking still holds there. */
module CatalogAtomic {
  import opened Wrappers
  import opened Access
  import opened Entities
  import opened ProductRows
  import opened Catalog
  import opened CatalogBytes
  import opened CatalogInvariant
  import opened CatalogCommit

  /** The same work, on the same inputs, run on the database as it is at the commit. */
  ghost function WorkNow(s: State, q: Quotas, x: Client): Outcome
    requires x.Running? && |x.stored| == Uploads(x.op)
  {
    Work(s.db, q, x.op, x.stored, x.now, x.newId, x.batch)
  }

  /** The transaction could have run on the latest database from start to end: the products a
      purge found are some it could find there, and the work has the same effect. */
  ghost predicate AtomicNow(s: State, q: Quotas, x: Client, e: Effect)
    requires x.Running? && |x.stored| == Uploads(x.op)
  {
    (x.op.PurgeBatch? ==> BatchFound(s.db, x.op.w, x.batch)) && WorkNow(s, q, x) == Success(e)
  }

  /** What the transaction read in `a` without writing or locking it still holds in `b`. */
  ghost predicate ReadsStillHold(a: DB, b: DB, op: Op, batch: set<Id>) {
    match op
    case CreateProduct(w, _, _, _, _, _) => Live(b, w)
    case ConfirmImage(w, _, _, _) => Live(b, w)
    case PurgeBatch(w) => BatchFound(b, w, batch)
    case PurgeRows(w) => MembersIn(a, w) == MembersIn(b, w)
    case DeleteWorkspace(w) =>
      && MembersIn(a, w) == MembersIn(b, w)
      && forall m <- MembersIn(a, w) ::
           At(a.accounts, m.1) == At(b.accounts, m.1) && MembershipsOf(a, m.1) == MembershipsOf(b, m.1)
    case FoundWorkspace(founder, _, _) => At(a.accounts, founder) == At(b.accounts, founder)
    case JoinWorkspace(_, u, _) => At(a.accounts, u) == At(b.accounts, u)
    case AssignRole(w, u, _) => At(a.members, (w, u)) == At(b.members, (w, u))
    case DropMember(_, u) => At(a.accounts, u) == At(b.accounts, u) && MembershipsOf(a, u) == MembershipsOf(b, u)
    case OpenAccount(_, email, name) => !EmailTaken(b, User.New(email, name).email)
    case RenameAccount(u, _) => MembershipsOf(a, u) == MembershipsOf(b, u)
    case CloseAccount(u) => MembershipsOf(a, u) == MembershipsOf(b, u) && !OwnsLive(b, u)
    case _ => true
  }

  lemma ProductCommitIsAtomic(s: State, q: Quotas, c: Id, e: Effect)
    requires Committing(s, q, c, e)
    requires var op := s.clients[c].op; op.UpdateProduct? || op.DeleteProduct? || op.RemoveImage? || op.ReorderImages?
    ensures WorkNow(s, q, s.clients[c]) == Success(e)
  {
    var x := s.clients[c];
    assert RunOk(s, x) by {
      Pays(s, q, c, e);
    }
    assert CatalogRow(x.op.p) in e.conflicts;
    assert SameRow(x.base, s.db, CatalogRow(x.op.p));
  }

  /** Under the lock, the room a snapshot showed is still there. */
  lemma RoomIsStillThere(s: State, q: Quotas, c: Id, e: Effect, w: Id)
    requires Committing(s, q, c, e) && Live(s.db, w)
    requires WorkspaceOf(s.clients[c].op) == Some(w) && LockOf(s.clients[c].base, w) <= e.conflicts
    ensures LockOf(s.clients[c].base, w) == LockOf(s.db, w)
    ensures |ProductsIn(s.db, w)| <= |ProductsIn(s.clients[c].base, w)|
    ensures StorageBytes(s.db, w) <= StorageBytes(s.clients[c].base, w)
  {
    var x := s.clients[c];
    Pays(s, q, c, e);
    assert Live(x.base, w);
    assert NoGrowth(x.base, s.db, w);
    NoGrowthMeansNoMore(x.base, s.db, w);
  }

  lemma CreateCommitIsAtomic(s: State, q: Quotas, c: Id, e: Effect)
    requires Committing(s, q, c, e) && s.clients[c].op.CreateProduct? && Live(s.db, s.clients[c].op.w)
    ensures WorkNow(s, q, s.clients[c]) == Success(e)
  {
    RoomIsStillThere(s, q, c, e, s.clients[c].op.w);
  }

  lemma ConfirmCommitIsAtomic(s: State, q: Quotas, c: Id, e: Effect)
    requires Committing(s, q, c, e) && s.clients[c].op.ConfirmImage? && Live(s.db, s.clients[c].op.w)
    ensures WorkNow(s, q, s.clients[c]) == Success(e)
  {
    var x := s.clients[c];
    assert RunOk(s, x) by {
      Pays(s, q, c, e);
    }
    RoomIsStillThere(s, q, c, e, x.op.w);
    assert CatalogRow(x.op.p) in e.conflicts;
    assert SameRow(x.base, s.db, CatalogRow(x.op.p));
  }

  // --- workspaces, members and accounts ---------------------------------------------

  lemma WorkspaceCommitIsAtomic(s: State, q: Quotas, c: Id, e: Effect)
    requires Committing(s, q, c, e) && e.conflicts != {}
    requires var op := s.clients[c].op; op.PurgeRows? || op.SetLogo? || op.RenameWorkspace?
    requires ReadsStillHold(s.clients[c].base, s.db, s.clients[c].op, s.clients[c].batch)
    ensures WorkNow(s, q, s.clients[c]) == Success(e)
  {
    var x := s.clients[c];
    assert RunOk(s, x) by {
      Pays(s, q, c, e);
    }
    assert WorkspaceRow(x.op.w) in e.conflicts;
    assert SameRow(x.base, s.db, WorkspaceRow(x.op.w));
  }

  /** The people a loss of memberships concerns, seen the same in both databases. */
  lemma SameHomeless(a: DB, b: DB, gone: set<(Id, Id)>)
    requires forall m <- gone ::
               At(a.accounts, m.1) == At(b.accounts, m.1) && MembershipsOf(a, m.1) == MembershipsOf(b, m.1)
    ensures Homeless(a, gone) == Homeless(b, gone)
    ensures forall u <- Homeless(a, gone) :: a.accounts[u] == b.accounts[u]
  {
    forall u ensures u in Homeless(a, gone) <==> u in Homeless(b, gone) {
      if m :| m in gone && m.1 == u {
        assert At(a.accounts, m.1) == At(b.accounts, m.1);
      }
    }
    forall u <- Homeless(a, gone) ensures a.accounts[u] == b.accounts[u] {
      var m :| m in gone && m.1 == u;
      assert At(a.accounts, m.1) == At(b.accounts, m.1);
    }
  }

  /** Deleting a workspace does the same to any database that agrees on it and its people. */
  lemma DeletionRepeats(a: DB, b: DB, op: Op, now: Time, newId: Id)
    requires op.DeleteWorkspace? && At(a.workspaces, op.w) == At(b.workspaces, op.w)
    requires MembersIn(a, op.w) == MembersIn(b, op.w)
    requires forall m <- MembersIn(a, op.w) ::
               At(a.accounts, m.1) == At(b.accounts, m.1) && MembershipsOf(a, m.1) == MembershipsOf(b, m.1)
    ensures WorkDeleteWorkspace(a, op, now, newId) == WorkDeleteWorkspace(b, op, now, newId)
  {
    var gone := MembersIn(a, op.w);
    SameHomeless(a, b, gone);
    assert (map u <- Homeless(a, gone) :: Some(a.accounts[u].LeftEveryWorkspace()))
        == (map u <- Homeless(b, gone) :: Some(b.accounts[u].LeftEveryWorkspace()));
  }

  lemma DeletionIsAtomic(s: State, q: Quotas, c: Id, e: Effect)
    requires Committing(s, q, c, e) && s.clients[c].op.DeleteWorkspace?
    requires ReadsStillHold(s.clients[c].base, s.db, s.clients[c].op, s.clients[c].batch)
    ensures WorkNow(s, q, s.clients[c]) == Success(e)
  {
    var x := s.clients[c];
    var a, b := x.base, s.db;
    assert RunOk(s, x) by {
      Pays(s, q, c, e);
    }
    assert WorkspaceRow(x.op.w) in e.conflicts;
    assert SameRow(a, b, WorkspaceRow(x.op.w));
    DeletionRepeats(a, b, x.op, x.now, x.newId);
  }

  lemma MemberCommitIsAtomic(s: State, q: Quotas, c: Id, e: Effect)
    requires Committing(s, q, c, e)
    requires var op := s.clients[c].op; op.JoinWorkspace? || op.AssignRole? || op.DropMember?
    requires ReadsStillHold(s.clients[c].base, s.db, s.clients[c].op, s.clients[c].batch)
    ensures WorkNow(s, q, s.clients[c]) == Success(e)
  {
    var x := s.clients[c];
    assert RunOk(s, x) by {
      Pays(s, q, c, e);
    }
    assert WorkspaceRow(x.op.w) in e.conflicts;
    assert SameRow(x.base, s.db, WorkspaceRow(x.op.w));
    if MemberRow(x.op.w, x.op.u) in e.conflicts {
      assert SameRow(x.base, s.db, MemberRow(x.op.w, x.op.u));
    }
    if x.op.DropMember? {
      SameHomeless(x.base, s.db, {(x.op.w, x.op.u)});
    }
  }

  lemma TransferIsAtomic(s: State, q: Quotas, c: Id, e: Effect)
    requires Committing(s, q, c, e) && s.clients[c].op.TransferWorkspace?
    ensures WorkNow(s, q, s.clients[c]) == Success(e)
  {
    var x := s.clients[c];
    assert RunOk(s, x) by {
      Pays(s, q, c, e);
    }
    var owner := x.base.workspaces[x.op.w].ownerId;
    assert WorkspaceRow(x.op.w) in e.conflicts && MemberRow(x.op.w, x.op.target) in e.conflicts
      && MemberRow(x.op.w, owner) in e.conflicts;
    assert SameRow(x.base, s.db, WorkspaceRow(x.op.w));
    assert SameRow(x.base, s.db, MemberRow(x.op.w, x.op.target));
    assert SameRow(x.base, s.db, MemberRow(x.op.w, owner));
  }

  lemma AccountCommitIsAtomic(s: State, q: Quotas, c: Id, e: Effect)
    requires Committing(s, q, c, e) && e.conflicts != {}
    requires var op := s.clients[c].op; op.OpenAccount? || op.RenameAccount? || op.SetAvatar?
    requires ReadsStillHold(s.clients[c].base, s.db, s.clients[c].op, s.clients[c].batch)
    ensures WorkNow(s, q, s.clients[c]) == Success(e)
  {
    var x := s.clients[c];
    assert RunOk(s, x) by {
      Pays(s, q, c, e);
    }
    assert AccountRow(x.op.u) in e.conflicts;
    assert SameRow(x.base, s.db, AccountRow(x.op.u));
  }

  // --- exact conditions -------------------------------------------------------------

  /** A purge batch is one the latest database could return exactly when it was full, or no
      other product of the workspace is there by now. */
  lemma PurgingIsAtomicExactly(s: State, q: Quotas, c: Id, e: Effect)
    requires Committing(s, q, c, e) && s.clients[c].op.PurgeBatch?
    ensures var x := s.clients[c];
            AtomicNow(s, q, x, e) <==> |x.batch| == PRODUCT_BATCH || ProductsIn(s.db, x.op.w) == x.batch
    ensures AtomicNow(s, q, s.clients[c], e)
       <==> ReadsStillHold(s.clients[c].base, s.db, s.clients[c].op, s.clients[c].batch)
  {
    var x := s.clients[c];
    assert RunOk(s, x) by {
      Pays(s, q, c, e);
    }
    forall p <- x.batch ensures At(x.base.products, p) == At(s.db.products, p) {
      assert CatalogRow(p) in e.conflicts;
      assert SameRow(x.base, s.db, CatalogRow(p));
    }
    assert x.batch <= ProductsIn(s.db, x.op.w);
    SmallerSet(x.batch, ProductsIn(s.db, x.op.w));
    if |x.batch| == |ProductsIn(s.db, x.op.w)| {
      SubsetOfSameSize(x.batch, ProductsIn(s.db, x.op.w));
    }
    forall p <- x.batch ensures RowKeys(x.base, CatalogRow(p)) == RowKeys(s.db, CatalogRow(p)) {
      assert At(x.base.products, p) == At(s.db.products, p);
    }
    assert WorkPurgeBatch(s.db, x.op, x.batch).value.released == e.released;
  }

  lemma SubsetOfSameSize(a: set<Id>, b: set<Id>)
    requires a <= b && |a| == |b|
    ensures a == b
  {
    assert b == a + (b - a);
  }

  /** Closing an account is atomic exactly when, at the commit, the account still owns no live
      workspace and has the memberships it had. */
  lemma ClosingIsAtomicExactly(s: State, q: Quotas, c: Id, e: Effect)
    requires Committing(s, q, c, e) && s.clients[c].op.CloseAccount?
    ensures WorkNow(s, q, s.clients[c]) == Success(e)
       <==> ReadsStillHold(s.clients[c].base, s.db, s.clients[c].op, s.clients[c].batch)
  {
    var x := s.clients[c];
    assert RunOk(s, x) by {
      Pays(s, q, c, e);
    }
    assert AccountRow(x.op.u) in e.conflicts;
    assert SameRow(x.base, s.db, AccountRow(x.op.u));
    assert e.delta.members.Keys == MembershipsOf(x.base, x.op.u);
    assert Deleted(MembershipsOf(s.db, x.op.u)).Keys == MembershipsOf(s.db, x.op.u);
  }

  /** Founding is atomic exactly when it wrote its founder's row, or that founder is still
      there and past onboarding. */
  lemma FoundingIsAtomicExactly(s: State, q: Quotas, c: Id, e: Effect)
    requires Committing(s, q, c, e) && s.clients[c].op.FoundWorkspace?
    ensures var x := s.clients[c];
            WorkNow(s, q, x) == Success(e)
            <==> || AccountRow(x.op.founder) in e.conflicts
                 || (x.op.founder in s.db.accounts && s.db.accounts[x.op.founder].status == Completed)
  {
    var x := s.clients[c];
    assert RunOk(s, x) by {
      Pays(s, q, c, e);
    }
    if AccountRow(x.op.founder) in e.conflicts {
      assert SameRow(x.base, s.db, AccountRow(x.op.founder));
    }
  }

  /** Validation makes a commit atomic: a transaction that locked something wrote exactly what
      it would have written had it run on the latest database, as long as the few rows it read
      without locking still say the same. */
  lemma CommitIsAtomic(s: State, s': State, q: Quotas, c: Id)
    requires Inv(s, q) && Commits(s, s', q, c)
    requires WorkOf(q, s.clients[c]).value.conflicts != {}
    requires ReadsStillHold(s.clients[c].base, s.db, s.clients[c].op, s.clients[c].batch)
    ensures AtomicNow(s, q, s.clients[c], WorkOf(q, s.clients[c]).value)
    ensures s'.db == Apply(s.db, WorkNow(s, q, s.clients[c]).value.delta)
  {
    var x := s.clients[c];
    var e := WorkOf(q, x).value;
    match x.op {
      case CreateProduct(_, _, _, _, _, _) => CreateCommitIsAtomic(s, q, c, e);
      case UpdateProduct(_, _, _, _) => ProductCommitIsAtomic(s, q, c, e);
      case DeleteProduct(_, _) => ProductCommitIsAtomic(s, q, c, e);
      case ConfirmImage(_, _, _, _) => ConfirmCommitIsAtomic(s, q, c, e);
      case RemoveImage(_, _, _) => ProductCommitIsAtomic(s, q, c, e);
      case ReorderImages(_, _, _) => ProductCommitIsAtomic(s, q, c, e);
      case PurgeBatch(_) => PurgingIsAtomicExactly(s, q, c, e);
      case PurgeRows(_) => WorkspaceCommitIsAtomic(s, q, c, e);
      case SetLogo(_, _) => WorkspaceCommitIsAtomic(s, q, c, e);
      case DeleteWorkspace(_) => DeletionIsAtomic(s, q, c, e);
      case RenameWorkspace(_, _, _) => WorkspaceCommitIsAtomic(s, q, c, e);
      case FoundWorkspace(_, _, _) => FoundingIsAtomicExactly(s, q, c, e);
      case JoinWorkspace(_, _, _) => MemberCommitIsAtomic(s, q, c, e);
      case AssignRole(_, _, _) => MemberCommitIsAtomic(s, q, c, e);
      case DropMember(_, _) => MemberCommitIsAtomic(s, q, c, e);
      case TransferWorkspace(_, _, _) => TransferIsAtomic(s, q, c, e);
      case OpenAccount(_, _, _) => AccountCommitIsAtomic(s, q, c, e);
      case RenameAccount(_, _) => AccountCommitIsAtomic(s, q, c, e);
      case SetAvatar(_, _) => AccountCommitIsAtomic(s, q, c, e);
      case CloseAccount(_) => ClosingIsAtomicExactly(s, q, c, e);
    }
  }
}
