/** Whether the owner of every live workspace exists. No foreign key says so; the use cases keep
    it when they run one after the other (`WorkspaceTheorems.ReferencesHold`). Here requests
    interleave: it is said exactly which commits break it, and when none can. */
module CatalogOwners {
  import opened Wrappers
  import opened Text
  import opened Entities
  import opened Catalog
  import opened CatalogInvariant
  import opened CatalogCommit

  ghost predicate OwnersExist(db: DB) {
    forall w :: Live(db, w) ==> db.workspaces[w].ownerId in db.accounts
  }

  /** A commit that leaves a live workspace without its owner: the database as it is now shows
      what the snapshot of the transaction did not. */
  ghost predicate Strands(db: DB, op: Op) {
    match op
    case CloseAccount(u) => OwnsLive(db, u)
    case FoundWorkspace(founder, _, _) => founder !in db.accounts
    case TransferWorkspace(_, target, _) => target !in db.accounts
    case _ => false
  }

  // --- one commit -------------------------------------------------------------------

  /** No account goes, and live workspaces keep their owners. */
  ghost predicate LeavesOwners(a: DB, d: Delta) {
    && (forall u <- d.accounts :: d.accounts[u].Some?)
    && (forall w <- d.workspaces ::
          d.workspaces[w].Some? && d.workspaces[w].value.Live() ==>
            Live(a, w) && d.workspaces[w].value.ownerId == a.workspaces[w].ownerId)
  }

  predicate MovesOwners(op: Op) {
    op.CloseAccount? || op.FoundWorkspace? || op.TransferWorkspace?
  }

  lemma ProductWorkLeavesOwners(a: DB, q: Quotas, op: Op, stored: seq<Key>, now: Time, newId: Id, batch: set<Id>)
    requires |stored| == Uploads(op) && Work(a, q, op, stored, now, newId, batch).Success?
    requires WorkspaceOf(op).Some? || op.PurgeBatch?
    ensures LeavesOwners(a, Work(a, q, op, stored, now, newId, batch).value.delta)
  {}

  lemma MostWorkLeavesOwners(a: DB, q: Quotas, op: Op, stored: seq<Key>, now: Time, newId: Id, batch: set<Id>)
    requires |stored| == Uploads(op) && Work(a, q, op, stored, now, newId, batch).Success? && !MovesOwners(op)
    ensures LeavesOwners(a, Work(a, q, op, stored, now, newId, batch).value.delta)
  {
    if WorkspaceOf(op).Some? || op.PurgeBatch? {
      ProductWorkLeavesOwners(a, q, op, stored, now, newId, batch);
    }
  }

  lemma LeavingOwnersKeepsThem(s: State, q: Quotas, c: Id, e: Effect)
    requires Committing(s, q, c, e) && OwnersExist(s.db) && LeavesOwners(s.clients[c].base, e.delta)
    ensures OwnersExist(Apply(s.db, e.delta))
  {
    var x, db := s.clients[c], Apply(s.db, e.delta);
    Pays(s, q, c, e);
    forall w | Live(db, w) ensures db.workspaces[w].ownerId in db.accounts {
      if w in e.delta.workspaces {
        assert Writes(e.delta, WorkspaceRow(w));
        assert SameRow(x.base, s.db, WorkspaceRow(w));
      }
      assert Live(s.db, w);
    }
  }

  lemma OtherCommitsKeepOwners(s: State, q: Quotas, c: Id, e: Effect)
    requires Committing(s, q, c, e) && OwnersExist(s.db) && !MovesOwners(s.clients[c].op)
    ensures OwnersExist(Apply(s.db, e.delta))
  {
    var x := s.clients[c];
    MostWorkLeavesOwners(x.base, q, x.op, x.stored, x.now, x.newId, x.batch);
    LeavingOwnersKeepsThem(s, q, c, e);
  }

  lemma CloseWrites(a: DB, op: Op)
    requires op.CloseAccount? && WorkClose(a, op).Success?
    ensures var d := WorkClose(a, op).value.delta; d.workspaces == map[] && d.accounts == map[op.u := None]
  {}

  lemma ClosingStrands(a: DB, d: Delta, u: Id)
    requires OwnersExist(a) && d.workspaces == map[] && d.accounts == map[u := None]
    ensures OwnersExist(Apply(a, d)) <==> !OwnsLive(a, u)
  {
    var b := Apply(a, d);
    PatchNone(a.workspaces);
    PatchOneAway(a.accounts, u);
    if w :| Live(a, w) && a.workspaces[w].ownerId == u {
      assert Live(b, w);
    } else {
      forall w | Live(b, w) ensures b.workspaces[w].ownerId in b.accounts {
        assert Live(a, w);
      }
    }
  }

  lemma FoundingStrands(a: DB, d: Delta, w: Id, row: Workspace)
    requires OwnersExist(a) && d.workspaces == map[w := Some(row)] && row.Live()
    requires forall u <- d.accounts :: u == row.ownerId && d.accounts[u].Some? && u in a.accounts
    ensures OwnersExist(Apply(a, d)) <==> row.ownerId in a.accounts
  {
    var b := Apply(a, d);
    assert Live(b, w) && b.workspaces[w] == row;
    forall v | Live(b, v) && v != w ensures b.workspaces[v].ownerId in b.accounts {
      assert Live(a, v);
    }
  }

  lemma ClosingStrandsExactly(s: State, q: Quotas, c: Id, e: Effect)
    requires Committing(s, q, c, e) && OwnersExist(s.db) && s.clients[c].op.CloseAccount?
    ensures OwnersExist(Apply(s.db, e.delta)) <==> !OwnsLive(s.db, s.clients[c].op.u)
  {
    CloseWrites(s.clients[c].base, s.clients[c].op);
    ClosingStrands(s.db, e.delta, s.clients[c].op.u);
  }

  lemma FoundingStrandsExactly(s: State, q: Quotas, c: Id, e: Effect)
    requires Committing(s, q, c, e) && OwnersExist(s.db) && s.clients[c].op.FoundWorkspace?
    ensures OwnersExist(Apply(s.db, e.delta)) <==> s.clients[c].op.founder in s.db.accounts
  {
    var x := s.clients[c];
    assert Current(x.base, s.db, e.delta) by {
      Pays(s, q, c, e);
    }
    if x.op.founder in e.delta.accounts {
      assert Writes(e.delta, AccountRow(x.op.founder));
      assert SameRow(x.base, s.db, AccountRow(x.op.founder));
    }
    FoundingStrands(s.db, e.delta, x.newId, Workspace(Strip(x.op.newName), x.op.slug, x.op.founder, None, None));
  }

  lemma TransferStrandsExactly(s: State, q: Quotas, c: Id, e: Effect)
    requires Committing(s, q, c, e) && OwnersExist(s.db) && s.clients[c].op.TransferWorkspace?
    ensures OwnersExist(Apply(s.db, e.delta)) <==> s.clients[c].op.target in s.db.accounts
  {
    var x := s.clients[c];
    FoundingStrands(s.db, e.delta, x.op.w, x.base.workspaces[x.op.w].(ownerId := x.op.target));
  }

  lemma EffectKeepsOwnersExactly(s: State, q: Quotas, c: Id, e: Effect)
    requires Committing(s, q, c, e) && OwnersExist(s.db)
    ensures OwnersExist(Apply(s.db, e.delta)) <==> !Strands(s.db, s.clients[c].op)
  {
    var op := s.clients[c].op;
    if !MovesOwners(op) {
      OtherCommitsKeepOwners(s, q, c, e);
    } else if op.CloseAccount? {
      ClosingStrandsExactly(s, q, c, e);
    } else if op.FoundWorkspace? {
      FoundingStrandsExactly(s, q, c, e);
    } else {
      TransferStrandsExactly(s, q, c, e);
    }
  }

  /** From a database where every owner exists, a commit leaves one if and only if it is not a
      close whose account owns a live workspace by now, not a founding whose founder is gone by
      now, and not a transfer to a member whose account is gone by now. */
  lemma CommitKeepsOwnersExactly(s: State, s': State, q: Quotas, c: Id)
    requires Inv(s, q) && Commits(s, s', q, c) && OwnersExist(s.db)
    ensures OwnersExist(s'.db) <==> !Strands(s.db, s.clients[c].op)
  {
    EffectKeepsOwnersExactly(s, q, c, WorkOf(q, s.clients[c]).value);
  }

  // --- whole runs -------------------------------------------------------------------

  lemma {:induction false} OwnersExistUntil(states: seq<State>, q: Quotas, i: nat)
    requires IsRun(states, q) && i < |states|
    requires forall j: nat, c | CommitAt(states, q, j, c) :: !Strands(states[j].db, states[j].clients[c].op)
    ensures OwnersExist(states[i].db)
    decreases i
  {
    if i > 0 {
      var j := i - 1;
      OwnersExistUntil(states, q, j);
      assert Steps(states[j], states[j + 1], q);
      OnlyCommitsChangeRows(states[j], states[j + 1], q);
      if states[j + 1].db != states[j].db {
        var c :| Commits(states[j], states[j + 1], q, c);
        assert CommitAt(states, q, j, c);
        InvAlways(states, q, j);
        CommitKeepsOwnersExactly(states[j], states[j + 1], q, c);
      }
    }
  }

  /** In a whole run every owner exists at every moment if and only if no commit strands one. */
  lemma OwnersExistExactly(states: seq<State>, q: Quotas)
    requires IsRun(states, q)
    ensures (forall i: nat | i < |states| :: OwnersExist(states[i].db))
       <==> forall i: nat, c | CommitAt(states, q, i, c) :: !Strands(states[i].db, states[i].clients[c].op)
  {
    if forall i: nat | i < |states| :: OwnersExist(states[i].db) {
      forall i: nat, c | CommitAt(states, q, i, c) ensures !Strands(states[i].db, states[i].clients[c].op) {
        InvAlways(states, q, i);
        CommitKeepsOwnersExactly(states[i], states[i + 1], q, c);
      }
    }
    if forall i: nat, c | CommitAt(states, q, i, c) :: !Strands(states[i].db, states[i].clients[c].op) {
      forall i: nat | i < |states| ensures OwnersExist(states[i].db) {
        OwnersExistUntil(states, q, i);
      }
    }
  }
}
