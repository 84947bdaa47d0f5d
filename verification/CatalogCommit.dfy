/** The commit is the one step that changes the database. A transaction that passes
    validation read current rows, so what it owes its snapshot it owes the database. */
module CatalogCommit {
  import opened Wrappers
  import opened Entities
  import opened ProductRows
  import opened Catalog
  import opened CatalogBytes
  import opened CatalogEffects
  import opened CatalogInvariant

  // --- from the snapshot to the database --------------------------------------------

  /** `b` shows the written rows as `a` did. */
  ghost predicate Current(a: DB, b: DB, d: Delta) {
    forall r :: Writes(d, r) ==> SameRow(a, b, r)
  }

  lemma WrittenRowsShowTheSame(a: DB, b: DB, d: Delta, r: RowId)
    requires Writes(d, r) && SameRow(a, b, r)
    ensures RowKeys(a, r) == RowKeys(b, r) && RowKeys(Apply(a, d), r) == RowKeys(Apply(b, d), r)
  {}

  lemma KeysMoveHere(a: DB, b: DB, d: Delta, released: set<Key>, stored: set<Key>)
    requires Current(a, b, d) && KeysMove(a, Apply(a, d), d, released, stored)
    ensures KeysMove(b, Apply(b, d), d, released, stored)
  {
    forall r | Writes(d, r) ensures RowKeys(a, r) == RowKeys(b, r) && RowKeys(Apply(a, d), r) == RowKeys(Apply(b, d), r) {
      WrittenRowsShowTheSame(a, b, d, r);
    }
    forall r | Writes(d, r) ensures Flows(b, Apply(b, d), released, stored, r) {
      assert Flows(a, Apply(a, d), released, stored, r);
    }
    forall k <- released ensures exists r :: Writes(d, r) && k in RowKeys(b, r) {
      var r :| Writes(d, r) && k in RowKeys(a, r);
      assert Writes(d, r) && k in RowKeys(b, r);
    }
    if stored != {} {
      var r :| Lands(Apply(a, d), d, stored, r);
      assert Lands(Apply(b, d), d, stored, r);
    }
  }

  lemma ProductsMoveHere(a: DB, b: DB, d: Delta, op: Op, now: Time, newId: Id)
    requires Current(a, b, d) && ProductsMove(a, d, op, now, newId)
    ensures ProductsMove(b, d, op, now, newId)
  {
    forall p <- d.products ensures At(a.products, p) == At(b.products, p) {
      assert Writes(d, CatalogRow(p));
    }
  }

  lemma WorkspacesMoveHere(a: DB, b: DB, d: Delta, newId: Id)
    requires Current(a, b, d) && WorkspacesMove(a, d, newId)
    ensures WorkspacesMove(b, d, newId)
  {
    forall w <- d.workspaces ensures At(a.workspaces, w) == At(b.workspaces, w) {
      assert Writes(d, WorkspaceRow(w));
    }
  }

  lemma ShrinksHere(a: DB, b: DB, d: Delta)
    requires Current(a, b, d) && Shrinks(a, d)
    ensures Shrinks(b, d)
  {
    forall p <- d.products ensures At(a.products, p) == At(b.products, p) {
      assert Writes(d, CatalogRow(p));
    }
  }

  // --- a commit about to happen -----------------------------------------------------

  /** Client `c` runs in `s`, its work reached the commit with `e`, and validation passes. */
  ghost predicate Committing(s: State, q: Quotas, c: Id, e: Effect) {
    && Inv(s, q) && IsRunning(s, c)
    && WorkOf(q, s.clients[c]) == Success(e)
    && Valid(s.log, s.clients[c].at, e.conflicts)
  }

  lemma Pays(s: State, q: Quotas, c: Id, e: Effect)
    requires Committing(s, q, c, e)
    ensures var x := s.clients[c];
            && RunOk(s, x) && WorkspaceBorn(x.op, s.born) && Distinct(x.stored)
            && Owed(x.base, e, q, x.op, x.stored, x.now, x.newId)
            && Current(x.base, s.db, e.delta)
  {
    var x := s.clients[c];
    assert ClientOk(s, x);
    EveryTransactionOwes(x.base, q, x.op, x.stored, x.now, x.newId, x.batch);
  }

  /** The new id of a transaction that wrote a row under it was never used for that. */
  lemma NewIdIsNew(s: State, q: Quotas, c: Id, e: Effect)
    requires Committing(s, q, c, e)
    ensures var x := s.clients[c];
            && (WorkspaceRow(x.newId) in e.conflicts ==> x.newId !in s.born)
            && (CatalogRow(x.newId) in e.conflicts ==> x.newId !in s.db.products)
  {
    var x := s.clients[c];
    Pays(s, q, c, e);
    if CatalogRow(x.newId) in e.conflicts {
      assert SameRow(x.base, s.db, CatalogRow(x.newId));
      assert x.newId in x.base.products ==> ProductFits(x.base.products[x.newId], x.newId, x.now, x.newId);
    }
  }

  /** Growth takes the lock: without its workspace's row among the conflicts, a commit leaves
      a live workspace no larger. */
  lemma GrowthNeedsTheLock(s: State, q: Quotas, c: Id, e: Effect, w: Id)
    requires Committing(s, q, c, e)
    requires Live(s.db, w) && WorkspaceRow(w) !in e.conflicts
    ensures NoGrowth(s.db, Apply(s.db, e.delta), w)
  {
    var x := s.clients[c];
    Pays(s, q, c, e);
    if Shrinks(x.base, e.delta) {
      ShrinkingIsNoGrowth(s, q, c, e, w);
    } else {
      var p, row :| Grows(x.base, e, q, x.op, p, row);
      assert row.workspaceId != w;
      OtherWorkspaceSame(s, q, c, e, p, row, w);
    }
  }

  lemma ShrinkingIsNoGrowth(s: State, q: Quotas, c: Id, e: Effect, w: Id)
    requires Committing(s, q, c, e) && Shrinks(s.clients[c].base, e.delta)
    ensures NoGrowth(s.db, Apply(s.db, e.delta), w)
  {
    var x := s.clients[c];
    Pays(s, q, c, e);
    ShrinksHere(x.base, s.db, e.delta);
    ProductsMoveHere(x.base, s.db, e.delta, x.op, x.now, x.newId);
  }

  /** A commit that adds or grows one product leaves the products of other workspaces alone. */
  lemma OtherWorkspaceSame(s: State, q: Quotas, c: Id, e: Effect, p: Id, row: ProductRow, w: Id)
    requires Committing(s, q, c, e) && Grows(s.clients[c].base, e, q, s.clients[c].op, p, row)
    requires row.workspaceId != w
    ensures NoGrowth(s.db, Apply(s.db, e.delta), w)
  {
    var x := s.clients[c];
    Pays(s, q, c, e);
    assert Writes(e.delta, CatalogRow(p));
    assert At(x.base.products, p) == At(s.db.products, p);
  }

  // --- what the commit keeps --------------------------------------------------------

  lemma ProductsStayOk(s: State, q: Quotas, c: Id, e: Effect)
    requires Committing(s, q, c, e)
    ensures ProductsOk(Apply(s.db, e.delta), s.born, s.clock, s.nextId)
  {
    var x := s.clients[c];
    Pays(s, q, c, e);
    ProductsMoveHere(x.base, s.db, e.delta, x.op, x.now, x.newId);
    forall p <- Apply(s.db, e.delta).products
      ensures ProductOk(Apply(s.db, e.delta).products[p], p, s.born, s.clock, s.nextId)
    {
      assert p in s.db.products ==> ProductOk(s.db.products[p], p, s.born, s.clock, s.nextId);
      if p in e.delta.products {
        assert RowMoves(At(s.db.products, p), p, e.delta.products[p].value, x.op, x.now, x.newId);
      }
    }
  }

  /** A workspace that is live after a commit was live before it, or was never seen. */
  lemma LiveWas(s: State, q: Quotas, c: Id, e: Effect, w: Id)
    requires Committing(s, q, c, e) && Live(Apply(s.db, e.delta), w)
    ensures Live(s.db, w) || w !in s.born
  {
    var x := s.clients[c];
    Pays(s, q, c, e);
    WorkspacesMoveHere(x.base, s.db, e.delta, x.newId);
    if w in e.delta.workspaces {
      assert Writes(e.delta, WorkspaceRow(w));
      NewIdIsNew(s, q, c, e);
    }
  }

  lemma WorkspacesStayOk(s: State, q: Quotas, c: Id, e: Effect)
    requires Committing(s, q, c, e)
    ensures WorkspacesOk(Apply(s.db, e.delta), s.born + Apply(s.db, e.delta).workspaces.Keys, s.nextId)
  {
    var x := s.clients[c];
    Pays(s, q, c, e);
    WorkspacesMoveHere(x.base, s.db, e.delta, x.newId);
  }

  lemma NewWorkspaceIsEmpty(s: State, q: Quotas, c: Id, e: Effect, w: Id)
    requires Committing(s, q, c, e) && w !in s.born
    ensures QuotaOk(Apply(s.db, e.delta), q, w)
  {
    ProductsStayOk(s, q, c, e);
    var db := Apply(s.db, e.delta);
    forall p <- db.products ensures db.products[p].workspaceId != w {
      assert ProductOk(db.products[p], p, s.born, s.clock, s.nextId);
    }
    assert ProductsIn(db, w) == {};
  }

  /** The check against the snapshot holds of the database too: since the lock was read nobody
      else locked the workspace, so nobody else made it larger. */
  lemma RoomIsThere(s: State, q: Quotas, c: Id, e: Effect, p: Id, row: ProductRow)
    requires Committing(s, q, c, e) && Grows(s.clients[c].base, e, q, s.clients[c].op, p, row)
    requires Live(s.db, row.workspaceId)
    ensures if p in s.db.products then
              && s.db.products[p].workspaceId == row.workspaceId
              && StorageBytes(s.db, row.workspaceId) + ImageBytes(row.images)
                 <= q.maxStorageBytes + ImageBytes(s.db.products[p].images)
            else
              |ProductsIn(s.db, row.workspaceId)| < q.maxProducts && row.images == []
  {
    var x, w := s.clients[c], row.workspaceId;
    Pays(s, q, c, e);
    assert Live(x.base, w);
    assert WorkspaceRow(w) in e.conflicts;
    assert NoGrowth(x.base, s.db, w);
    NoGrowthMeansNoMore(x.base, s.db, w);
    assert Writes(e.delta, CatalogRow(p));
    assert At(x.base.products, p) == At(s.db.products, p);
  }

  lemma GrownStaysWithinQuota(s: State, q: Quotas, c: Id, e: Effect, p: Id, row: ProductRow)
    requires Committing(s, q, c, e) && Grows(s.clients[c].base, e, q, s.clients[c].op, p, row)
    requires Live(s.db, row.workspaceId)
    ensures QuotaOk(Apply(s.db, e.delta), q, row.workspaceId)
  {
    RoomIsThere(s, q, c, e, p, row);
    assert QuotaOk(s.db, q, row.workspaceId);
    OneProductMore(s.db, Apply(s.db, e.delta), row.workspaceId, p);
  }

  lemma QuotasStayOk(s: State, q: Quotas, c: Id, e: Effect)
    requires Committing(s, q, c, e)
    ensures QuotasOk(Apply(s.db, e.delta), q)
  {
    var x := s.clients[c];
    Pays(s, q, c, e);
    forall w | Live(Apply(s.db, e.delta), w) ensures QuotaOk(Apply(s.db, e.delta), q, w) {
      LiveWas(s, q, c, e, w);
      if w !in s.born {
        NewWorkspaceIsEmpty(s, q, c, e, w);
      } else {
        assert QuotaOk(s.db, q, w);
        if Shrinks(x.base, e.delta) {
          ShrinkingIsNoGrowth(s, q, c, e, w);
          NoGrowthMeansNoMore(s.db, Apply(s.db, e.delta), w);
        } else {
          var p, row :| Grows(x.base, e, q, x.op, p, row);
          if row.workspaceId == w {
            GrownStaysWithinQuota(s, q, c, e, p, row);
          } else {
            OtherWorkspaceSame(s, q, c, e, p, row, w);
            NoGrowthMeansNoMore(s.db, Apply(s.db, e.delta), w);
          }
        }
      }
    }
  }

  // --- what the other requests keep -------------------------------------------------

  lemma ConflictedGrows(log: seq<Entry>, entry: Entry, at: nat, r: RowId)
    requires at <= |log|
    ensures Conflicted(log + [entry], at, r) <==> Conflicted(log, at, r) || r in entry.conflicts
  {
    var log' := log + [entry];
    if Conflicted(log, at, r) {
      var i :| at <= i < |log| && r in log[i].conflicts;
      assert r in log'[i].conflicts;
    }
    if r in entry.conflicts {
      assert r in log'[|log|].conflicts;
    }
  }

  lemma OtherRunSeesTheSame(s: State, q: Quotas, c: Id, e: Effect, y: Client)
    requires Committing(s, q, c, e) && y.Running? && RunOk(s, y)
    ensures SameSince(Apply(s.db, e.delta), s.log + [Entry(e.conflicts, e.edit)], y)
  {
    var log', db' := s.log + [Entry(e.conflicts, e.edit)], Apply(s.db, e.delta);
    Pays(s, q, c, e);
    forall r | !Conflicted(log', y.at, r) ensures SameRow(y.base, db', r) {
      ConflictedGrows(s.log, Entry(e.conflicts, e.edit), y.at, r);
      assert SameRow(y.base, s.db, r);
      assert !Writes(e.delta, r);
    }
  }

  lemma OtherRunSeesNoGrowth(s: State, q: Quotas, c: Id, e: Effect, y: Client)
    requires Committing(s, q, c, e) && y.Running? && RunOk(s, y)
    ensures NoGrowthSince(Apply(s.db, e.delta), s.log + [Entry(e.conflicts, e.edit)], y)
  {
    var log', db' := s.log + [Entry(e.conflicts, e.edit)], Apply(s.db, e.delta);
    forall w | Live(y.base, w) && !Conflicted(log', y.at, WorkspaceRow(w)) ensures NoGrowth(y.base, db', w) {
      ConflictedGrows(s.log, Entry(e.conflicts, e.edit), y.at, WorkspaceRow(w));
      assert SameRow(y.base, s.db, WorkspaceRow(w));
      GrowthNeedsTheLock(s, q, c, e, w);
      NoGrowthComposes(y.base, s.db, db', w);
    }
  }

  lemma OtherRunKnowsTheBorn(s: State, q: Quotas, c: Id, e: Effect, y: Client)
    requires Committing(s, q, c, e) && y.Running? && RunOk(s, y)
    ensures BornSince(s.born + Apply(s.db, e.delta).workspaces.Keys, s.log + [Entry(e.conflicts, e.edit)], y)
  {
    var x := s.clients[c];
    Pays(s, q, c, e);
    WorkspacesMoveHere(x.base, s.db, e.delta, x.newId);
    forall w <- s.born + Apply(s.db, e.delta).workspaces.Keys
      ensures w < y.newId || Conflicted(s.log + [Entry(e.conflicts, e.edit)], y.at, WorkspaceRow(w))
    {
      ConflictedGrows(s.log, Entry(e.conflicts, e.edit), y.at, WorkspaceRow(w));
      if w !in s.born {
        assert Writes(e.delta, WorkspaceRow(w));
      }
    }
  }

  lemma OtherRunKeeps(s: State, s': State, q: Quotas, c: Id, e: Effect, y: Client)
    requires Committing(s, q, c, e) && Commits(s, s', q, c)
    requires y.Running? && RunOk(s, y) && WorkspaceBorn(y.op, s.born)
    ensures RunOk(s', y)
  {
    OtherRunSeesTheSame(s, q, c, e, y);
    OtherRunSeesNoGrowth(s, q, c, e, y);
    OtherRunKnowsTheBorn(s, q, c, e, y);
    forall w | WorkspaceOf(y.op) == Some(w) && !Live(y.base, w) ensures !Live(s'.db, w) {
      if Live(s'.db, w) {
        LiveWas(s, q, c, e, w);
      }
    }
  }

  lemma ClientsStayOk(s: State, s': State, q: Quotas, c: Id, e: Effect)
    requires Committing(s, q, c, e) && Commits(s, s', q, c)
    ensures ClientsOk(s')
  {
    Pays(s, q, c, e);
    forall o <- s'.clients ensures ClientOk(s', s'.clients[o]) {
      if o != c {
        assert ClientOk(s, s.clients[o]);
        if s.clients[o].Running? {
          OtherRunKeeps(s, s', q, c, e, s.clients[o]);
        }
      }
    }
  }

  // --- versions ---------------------------------------------------------------------

  /** A product that an earlier versioned edit moved is never moved back. */
  lemma EditsStayPast(s: State, q: Quotas, c: Id, e: Effect, i: nat)
    requires Committing(s, q, c, e) && i < |s.log|
    ensures EditPast(Apply(s.db, e.delta), s.log[i], s.nextId)
  {
    var x := s.clients[c];
    Pays(s, q, c, e);
    ProductsMoveHere(x.base, s.db, e.delta, x.op, x.now, x.newId);
    assert EditPast(s.db, s.log[i], s.nextId);
    if s.log[i].edit.Some? {
      var p := s.log[i].edit.value.0;
      assert i >= x.at ==> Conflicted(s.log, x.at, CatalogRow(p));
      if p in e.delta.products && e.delta.products[p].Some? {
        assert Writes(e.delta, CatalogRow(p));
        assert RowMoves(At(s.db.products, p), p, e.delta.products[p].value, x.op, x.now, x.newId);
      }
    }
  }

  lemma NewEditIsPast(s: State, q: Quotas, c: Id, e: Effect)
    requires Committing(s, q, c, e)
    ensures EditPast(Apply(s.db, e.delta), Entry(e.conflicts, e.edit), s.nextId)
    ensures forall i | 0 <= i < |s.log| :: e.edit.Some? ==> s.log[i].edit != e.edit
  {
    var x := s.clients[c];
    Pays(s, q, c, e);
    if e.edit.Some? {
      var p := e.edit.value.0;
      assert ProductFits(x.base.products[p], p, x.now, x.newId);
      assert Writes(e.delta, CatalogRow(p));
      assert At(x.base.products, p) == At(s.db.products, p);
      forall i | 0 <= i < |s.log| ensures s.log[i].edit != e.edit {
        assert EditPast(s.db, s.log[i], s.nextId);
      }
    }
  }

  lemma EditsStayOk(s: State, q: Quotas, c: Id, e: Effect)
    requires Committing(s, q, c, e)
    ensures EditsOk(Apply(s.db, e.delta), s.log + [Entry(e.conflicts, e.edit)], s.nextId)
  {
    NewEditIsPast(s, q, c, e);
    var log' := s.log + [Entry(e.conflicts, e.edit)];
    forall i | 0 <= i < |log'| ensures EditPast(Apply(s.db, e.delta), log'[i], s.nextId) {
      if i < |s.log| {
        EditsStayPast(s, q, c, e, i);
      }
    }
  }

  lemma CommitsKeeps(s: State, s': State, q: Quotas, c: Id)
    requires Inv(s, q) && Commits(s, s', q, c)
    ensures Inv(s', q)
  {
    var x := s.clients[c];
    var e := WorkOf(q, x).value;
    Pays(s, q, c, e);
    KeysMoveHere(x.base, s.db, e.delta, e.released, KeySet(x.stored));
    CommitConserves(s.db, s.clients, s.bucket, e.delta, c, Cleaning(x.op, e.released, e.next));
    ProductsStayOk(s, q, c, e);
    ProductsOkWidens(s'.db, s.born, s'.born, s.clock, s.nextId);
    WorkspacesStayOk(s, q, c, e);
    QuotasStayOk(s, q, c, e);
    ClientsStayOk(s, s', q, c, e);
    EditsStayOk(s, q, c, e);
  }

  lemma ProductsOkWidens(db: DB, born: set<Id>, born': set<Id>, clock: Time, nextId: Id)
    requires ProductsOk(db, born, clock, nextId) && born <= born'
    ensures ProductsOk(db, born', clock, nextId)
  {
    forall p <- db.products ensures ProductOk(db.products[p], p, born', clock, nextId) {
      assert ProductOk(db.products[p], p, born, clock, nextId);
    }
  }

  // --- every step -------------------------------------------------------------------

  lemma StepsKeeps(s: State, s': State, q: Quotas)
    requires Inv(s, q) && Steps(s, s', q)
    ensures Inv(s', q)
  {
    if c, op, batch :| Arrives(s, s', c, op, batch) {
      ArrivesKeeps(s, s', q, c, op, batch);
    } else if c, answer :| Answers(s, s', c, answer) {
      AnswersKeeps(s, s', q, c, answer);
    } else if c :| Stores(s, s', c) {
      StoresKeeps(s, s', q, c);
    } else if c, batch :| Begins(s, s', c, batch) {
      BeginsKeeps(s, s', q, c, batch);
    } else if c :| Commits(s, s', q, c) {
      CommitsKeeps(s, s', q, c);
    } else if c :| Loses(s, s', q, c) {
      LosesKeeps(s, s', q, c);
    } else if c :| Refuses(s, s', q, c) {
      RefusesKeeps(s, s', q, c);
    } else if c, next :| Breaks(s, s', c, next) {
      BreaksKeeps(s, s', q, c, next);
    } else if c, key :| DeletesFile(s, s', c, key) {
      DeletesFileKeeps(s, s', q, c, key);
    } else {
      var c :| Finishes(s, s', c);
      FinishesKeeps(s, s', q, c);
    }
  }

  ghost predicate CommitAt(states: seq<State>, q: Quotas, i: nat, c: Id) {
    i + 1 < |states| && Commits(states[i], states[i + 1], q, c)
  }

  lemma OnlyCommitsChangeRows(s: State, s': State, q: Quotas)
    requires Steps(s, s', q)
    ensures s'.db == s.db || exists c :: Commits(s, s', q, c)
  {}

  lemma QuietOrCommit(s: State, s': State, q: Quotas) returns (commit: Option<Id>)
    requires Steps(s, s', q)
    ensures if commit.Some? then Commits(s, s', q, commit.value) else s'.db == s.db && s'.log == s.log
  {
    commit := None;
    if s'.db != s.db || s'.log != s.log {
      var c :| Commits(s, s', q, c);
      commit := Some(c);
    }
  }

  lemma OpensOrGoesOn(s: State, s': State, q: Quotas, c: Id)
    requires Steps(s, s', q) && c in s'.clients && s'.clients[c].Running?
    ensures || (s'.clients[c].base == s.db && s'.clients[c].at == |s.log|)
            || (c in s.clients && s.clients[c].Running? && s.clients[c].op == s'.clients[c].op
                && s.clients[c].base == s'.clients[c].base && s.clients[c].at == s'.clients[c].at)
  {
    if d :| Stores(s, s', d) {
    } else if d, op, batch :| Arrives(s, s', d, op, batch) {
    } else if d, batch :| Begins(s, s', d, batch) {
    } else {
      RunsOn(s, s', q, c);
    }
  }

  /** The other steps start no attempt and leave those under way as they are. */
  lemma RunsOn(s: State, s': State, q: Quotas, c: Id)
    requires Steps(s, s', q) && c in s'.clients && s'.clients[c].Running? && !exists d :: Stores(s, s', d)
    requires !(exists d, op, batch :: Arrives(s, s', d, op, batch)) && !exists d, batch :: Begins(s, s', d, batch)
    ensures c in s.clients && s.clients[c] == s'.clients[c]
  {}

  /** The invariant holds in every state of every run. */
  lemma {:induction false} InvAlways(states: seq<State>, q: Quotas, i: nat)
    requires IsRun(states, q) && i < |states|
    ensures Inv(states[i], q)
    decreases i
  {
    if i == 0 {
      InvAtStart(q);
    } else {
      InvAlways(states, q, i - 1);
      assert Steps(states[i - 1], states[(i - 1) + 1], q);
      StepsKeeps(states[i - 1], states[i], q);
    }
  }
}
