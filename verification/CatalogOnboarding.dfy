/** When the onboarding status of accounts agrees with their memberships. The use cases read
    whether a person still belongs somewhere without locking what they read, so a commit may
    decide on memberships that are no longer the case. */
module CatalogOnboarding {
  import opened Wrappers
  import opened Access
  import opened Text
  import opened Entities
  import opened Catalog
  import opened CatalogInvariant
  import opened CatalogCommit
  import opened CatalogAtomic

  /** Past the profile step, an account has completed onboarding if and only if it is a member
      somewhere. */
  ghost predicate Agrees(db: DB, u: Id) {
    u in db.accounts && db.accounts[u].status != ProfilePending ==>
      (db.accounts[u].status == Completed <==> MembershipsOf(db, u) != {})
  }

  ghost predicate OnboardingAgrees(db: DB) {
    forall u :: Agrees(db, u)
  }

  /** The account has yet to complete its onboarding by now, which the snapshot did not show. */
  predicate MissedOnboarding(a: DB, db: DB, u: Id) {
    && (u in a.accounts ==> a.accounts[u].status != WorkspacePending)
    && u in db.accounts && db.accounts[u].status == WorkspacePending
  }

  /** What the transaction decided on `a` is decided otherwise on the database as it is now. */
  ghost predicate Misjudges(a: DB, db: DB, op: Op) {
    match op
    case FoundWorkspace(founder, _, _) => MissedOnboarding(a, db, founder)
    case JoinWorkspace(_, u, _) => MissedOnboarding(a, db, u)
    case DropMember(w, u) => Homeless(a, {(w, u)}) != Homeless(db, {(w, u)})
    case DeleteWorkspace(w) => Homeless(a, MembersIn(a, w)) != Homeless(db, MembersIn(a, w))
    case PurgeRows(w) => w in a.workspaces && !Live(a, w) && Homeless(db, MembersIn(a, w)) != {}
    case OpenAccount(u, email, name) =>
      && u !in a.accounts && !EmailTaken(a, Lower(email)) && Strip(name) != []
      && MembershipsOf(db, u) != {}
    case RenameAccount(u, _) =>
      && u in a.accounts && a.accounts[u].status == ProfilePending
      && (MembershipsOf(a, u) == {}) != (MembershipsOf(db, u) == {})
    case _ => false
  }

  /** Nobody is misjudged as long as what was read without a lock still holds. What is read says
      nothing of memberships that an account not yet there, or a deleted workspace, may have. */
  lemma CurrentReadsMisjudgeNobody(a: DB, b: DB, op: Op, batch: set<Id>)
    requires ReadsStillHold(a, b, op, batch)
    requires op.OpenAccount? ==> MembershipsOf(b, op.u) == {}
    requires op.PurgeRows? ==> MembersIn(b, op.w) == {}
    ensures !Misjudges(a, b, op)
  {
    match op {
      case DropMember(w, u) => SameHomeless(a, b, {(w, u)});
      case DeleteWorkspace(w) => SameHomeless(a, b, MembersIn(a, w));
      case _ =>
    }
  }

  // --- people who leave -------------------------------------------------------------

  /** The memberships `gone` go, and the accounts in `told` return to the workspace step. */
  lemma LeavingAgreesExactly(db: DB, d: Delta, gone: set<(Id, Id)>, told: set<Id>)
    requires OnboardingAgrees(db) && gone <= db.members.Keys && d.members == Deleted(gone) && d.accounts.Keys == told
    requires forall u <- told ::
               && u in db.accounts && db.accounts[u].status == Completed && (exists m <- gone :: m.1 == u)
               && d.accounts[u].Some? && d.accounts[u].value.status == WorkspacePending
    ensures OnboardingAgrees(Apply(db, d)) <==> told == Homeless(db, gone)
  {
    var db' := Apply(db, d);
    assert db'.members == db.members - gone by {
      PatchAway(db.members, gone);
    }
    forall u ensures Agrees(db', u) <==> (u in told <==> u in Homeless(db, gone)) {
      LeaverAgreesExactly(db, db', d, gone, told, u);
    }
  }

  lemma LeaverAgreesExactly(db: DB, db': DB, d: Delta, gone: set<(Id, Id)>, told: set<Id>, u: Id)
    requires Agrees(db, u) && gone <= db.members.Keys && d.accounts.Keys == told
    requires db'.accounts == Patch(db.accounts, d.accounts) && db'.members == db.members - gone
    requires u in told ==>
               && u in db.accounts && db.accounts[u].status == Completed && (exists m <- gone :: m.1 == u)
               && d.accounts[u].Some? && d.accounts[u].value.status == WorkspacePending
    ensures Agrees(db', u) <==> (u in told <==> u in Homeless(db, gone))
  {
    assert MembershipsOf(db', u) == MembershipsOf(db, u) - gone;
    assert (exists m <- gone :: m.1 == u) <==> MembershipsOf(db, u) * gone != {} by {
      if m :| m in gone && m.1 == u {
        assert m in MembershipsOf(db, u) * gone;
      }
      if m :| m in MembershipsOf(db, u) * gone {
        assert m in gone && m.1 == u;
      }
    }
    HomelessExactly(db, gone, u);
    NothingLeft(MembershipsOf(db, u), gone);
  }

  lemma NothingLeft(held: set<(Id, Id)>, gone: set<(Id, Id)>)
    ensures held - gone == {} <==> held <= gone
  {
    forall m <- held | held - gone == {} ensures m in gone {
      assert m !in held - gone;
    }
  }

  lemma HomelessExactly(db: DB, gone: set<(Id, Id)>, u: Id)
    ensures u in Homeless(db, gone) <==>
              && u in db.accounts && db.accounts[u].status == Completed
              && MembershipsOf(db, u) <= gone && exists m <- gone :: m.1 == u
  {
    if m :| m in gone && m.1 == u && m.1 in db.accounts && db.accounts[m.1].status == Completed
            && MembershipsOf(db, m.1) <= gone {
      assert m.1 in Homeless(db, gone);
    }
  }

  /** The accounts a loss of memberships was told to, in the snapshot and so in the database. */
  lemma ToldAreCompleted(a: DB, db: DB, gone: set<(Id, Id)>)
    requires forall u <- Homeless(a, gone) :: At(a.accounts, u) == At(db.accounts, u)
    ensures forall u <- Homeless(a, gone) ::
              u in db.accounts && db.accounts[u].status == Completed && exists m <- gone :: m.1 == u
  {
    forall u <- Homeless(a, gone) ensures u in db.accounts && db.accounts[u].status == Completed && exists m <- gone :: m.1 == u {
      HomelessExactly(a, gone, u);
      assert At(a.accounts, u) == At(db.accounts, u);
    }
  }

  lemma DropWrites(a: DB, op: Op)
    requires op.DropMember? && WorkDrop(a, op).Success?
    ensures var e, gone := WorkDrop(a, op).value, {(op.w, op.u)};
            && e.delta.members == Deleted(gone) && MemberRow(op.w, op.u) in e.conflicts && (op.w, op.u) in a.members
            && e.delta.accounts.Keys == Homeless(a, gone)
            && forall u <- Homeless(a, gone) ::
                 && AccountRow(u) in e.conflicts
                 && e.delta.accounts[u].Some? && e.delta.accounts[u].value.status == WorkspacePending
  {
    var gone := {(op.w, op.u)};
    assert Deleted(gone) == map[(op.w, op.u) := None];
    HomelessExactly(a, gone, op.u);
  }

  lemma DroppingAgreesExactly(s: State, q: Quotas, c: Id, e: Effect)
    requires Committing(s, q, c, e) && OnboardingAgrees(s.db) && s.clients[c].op.DropMember?
    ensures OnboardingAgrees(Apply(s.db, e.delta)) <==> !Misjudges(s.clients[c].base, s.db, s.clients[c].op)
  {
    var x := s.clients[c];
    var gone := {(x.op.w, x.op.u)};
    Pays(s, q, c, e);
    DropWrites(x.base, x.op);
    assert SameRow(x.base, s.db, MemberRow(x.op.w, x.op.u));
    forall u <- Homeless(x.base, gone) ensures At(x.base.accounts, u) == At(s.db.accounts, u) {
      assert SameRow(x.base, s.db, AccountRow(u));
    }
    ToldAreCompleted(x.base, s.db, gone);
    LeavingAgreesExactly(s.db, e.delta, gone, Homeless(x.base, gone));
  }

  lemma DeletionWrites(a: DB, op: Op, now: Time, newId: Id)
    requires op.DeleteWorkspace? && WorkDeleteWorkspace(a, op, now, newId).Success?
    ensures var e, gone := WorkDeleteWorkspace(a, op, now, newId).value, MembersIn(a, op.w);
            && e.delta.members == Deleted(gone) && (forall m <- gone :: MemberRow(m.0, m.1) in e.conflicts)
            && e.delta.accounts.Keys == Homeless(a, gone)
            && forall u <- Homeless(a, gone) ::
                 && AccountRow(u) in e.conflicts
                 && e.delta.accounts[u].Some? && e.delta.accounts[u].value.status == WorkspacePending
  {
    forall u <- Homeless(a, MembersIn(a, op.w)) ensures a.accounts[u].status == Completed {
      HomelessExactly(a, MembersIn(a, op.w), u);
    }
  }

  lemma DeletionAgreesExactly(s: State, q: Quotas, c: Id, e: Effect)
    requires Committing(s, q, c, e) && OnboardingAgrees(s.db) && s.clients[c].op.DeleteWorkspace?
    ensures OnboardingAgrees(Apply(s.db, e.delta)) <==> !Misjudges(s.clients[c].base, s.db, s.clients[c].op)
  {
    var x := s.clients[c];
    var gone := MembersIn(x.base, x.op.w);
    Pays(s, q, c, e);
    DeletionWrites(x.base, x.op, x.now, x.newId);
    forall m <- gone ensures m in s.db.members {
      assert SameRow(x.base, s.db, MemberRow(m.0, m.1));
    }
    forall u <- Homeless(x.base, gone) ensures At(x.base.accounts, u) == At(s.db.accounts, u) {
      assert SameRow(x.base, s.db, AccountRow(u));
    }
    ToldAreCompleted(x.base, s.db, gone);
    LeavingAgreesExactly(s.db, e.delta, gone, Homeless(x.base, gone));
  }

  lemma PurgeWrites(a: DB, op: Op)
    requires op.PurgeRows?
    ensures var e, gone := WorkPurgeRows(a, op).value, MembersIn(a, op.w);
            && e.delta.accounts == map[]
            && if op.w in a.workspaces && !Live(a, op.w) then
                 e.delta.members == Deleted(gone) && forall m <- gone :: MemberRow(m.0, m.1) in e.conflicts
               else e.delta.members == map[]
  {}

  lemma PurgeAgreesExactly(s: State, q: Quotas, c: Id, e: Effect)
    requires Committing(s, q, c, e) && OnboardingAgrees(s.db) && s.clients[c].op.PurgeRows?
    ensures OnboardingAgrees(Apply(s.db, e.delta)) <==> !Misjudges(s.clients[c].base, s.db, s.clients[c].op)
  {
    var x := s.clients[c];
    var gone := MembersIn(x.base, x.op.w);
    Pays(s, q, c, e);
    PurgeWrites(x.base, x.op);
    if x.op.w in x.base.workspaces && !Live(x.base, x.op.w) {
      forall m <- gone ensures m in s.db.members {
        assert SameRow(x.base, s.db, MemberRow(m.0, m.1));
      }
      LeavingAgreesExactly(s.db, e.delta, gone, {});
    } else {
      UntouchedAgrees(s.db, e.delta);
    }
  }

  /** Who is a member where stays, and no account changes its status. */
  lemma UntouchedAgrees(db: DB, d: Delta)
    requires OnboardingAgrees(db)
    requires forall m <- d.members :: d.members[m].Some? && m in db.members
    requires forall u <- d.accounts ::
               d.accounts[u].Some? && u in db.accounts && d.accounts[u].value.status == db.accounts[u].status
    ensures OnboardingAgrees(Apply(db, d))
  {
    var db' := Apply(db, d);
    forall u ensures Agrees(db', u) {
      assert Agrees(db, u) && MembershipsOf(db', u) == MembershipsOf(db, u);
    }
  }

  // --- people who arrive ------------------------------------------------------------

  /** Membership `m` is new; its account is written as onboarded, or left as it is. */
  lemma ArrivingAgreesExactly(db: DB, d: Delta, m: (Id, Id))
    requires OnboardingAgrees(db) && d.members.Keys == {m} && d.members[m].Some?
    requires d.accounts.Keys <= {m.1}
    requires m.1 in d.accounts ==> d.accounts[m.1].Some? && d.accounts[m.1].value.status == Completed
    ensures OnboardingAgrees(Apply(db, d))
       <==> (m.1 !in d.accounts && m.1 in db.accounts ==> db.accounts[m.1].status != WorkspacePending)
  {
    var db' := Apply(db, d);
    forall u | u != m.1 ensures Agrees(db', u) {
      assert Agrees(db, u) && MembershipsOf(db', u) == MembershipsOf(db, u);
    }
    assert m in MembershipsOf(db', m.1);
    assert Agrees(db', m.1) <==> (m.1 !in d.accounts && m.1 in db.accounts ==> db.accounts[m.1].status != WorkspacePending);
  }

  lemma FoundingAgreesExactly(s: State, q: Quotas, c: Id, e: Effect)
    requires Committing(s, q, c, e) && OnboardingAgrees(s.db) && s.clients[c].op.FoundWorkspace?
    ensures OnboardingAgrees(Apply(s.db, e.delta)) <==> !Misjudges(s.clients[c].base, s.db, s.clients[c].op)
  {
    var x := s.clients[c];
    Pays(s, q, c, e);
    if AccountRow(x.op.founder) in e.conflicts {
      assert SameRow(x.base, s.db, AccountRow(x.op.founder));
    }
    ArrivingAgreesExactly(s.db, e.delta, (x.newId, x.op.founder));
  }

  lemma JoiningAgreesExactly(s: State, q: Quotas, c: Id, e: Effect)
    requires Committing(s, q, c, e) && OnboardingAgrees(s.db) && s.clients[c].op.JoinWorkspace?
    ensures OnboardingAgrees(Apply(s.db, e.delta)) <==> !Misjudges(s.clients[c].base, s.db, s.clients[c].op)
  {
    var x := s.clients[c];
    Pays(s, q, c, e);
    if AccountRow(x.op.u) in e.conflicts {
      assert SameRow(x.base, s.db, AccountRow(x.op.u));
    }
    ArrivingAgreesExactly(s.db, e.delta, (x.op.w, x.op.u));
  }

  // --- accounts ---------------------------------------------------------------------

  /** Only account `u` is written, past the profile step. */
  lemma WritingAgreesExactly(db: DB, d: Delta, u: Id, row: User)
    requires OnboardingAgrees(db) && d.members == map[] && d.accounts == map[u := Some(row)]
    ensures OnboardingAgrees(Apply(db, d))
       <==> (row.status != ProfilePending ==> (row.status == Completed <==> MembershipsOf(db, u) != {}))
  {
    var db' := Apply(db, d);
    forall v | v != u ensures Agrees(db', v) {
      assert Agrees(db, v) && MembershipsOf(db', v) == MembershipsOf(db, v);
    }
    assert MembershipsOf(db', u) == MembershipsOf(db, u);
    assert Agrees(db', u) <==> (row.status != ProfilePending ==> (row.status == Completed <==> MembershipsOf(db, u) != {}));
  }

  lemma OpeningAgreesExactly(s: State, q: Quotas, c: Id, e: Effect)
    requires Committing(s, q, c, e) && OnboardingAgrees(s.db) && s.clients[c].op.OpenAccount?
    ensures OnboardingAgrees(Apply(s.db, e.delta)) <==> !Misjudges(s.clients[c].base, s.db, s.clients[c].op)
  {
    var x := s.clients[c];
    if e.delta.accounts == map[] {
      UntouchedAgrees(s.db, e.delta);
    } else {
      WritingAgreesExactly(s.db, e.delta, x.op.u, User.New(x.op.email, x.op.displayName));
    }
  }

  lemma RenamingAgreesExactly(s: State, q: Quotas, c: Id, e: Effect)
    requires Committing(s, q, c, e) && OnboardingAgrees(s.db) && s.clients[c].op.RenameAccount?
    ensures OnboardingAgrees(Apply(s.db, e.delta)) <==> !Misjudges(s.clients[c].base, s.db, s.clients[c].op)
  {
    var x := s.clients[c];
    Pays(s, q, c, e);
    if e.delta.accounts == map[] {
      UntouchedAgrees(s.db, e.delta);
    } else {
      assert SameRow(x.base, s.db, AccountRow(x.op.u));
      assert Agrees(s.db, x.op.u);
      WritingAgreesExactly(s.db, e.delta, x.op.u, e.delta.accounts[x.op.u].value);
    }
  }

  lemma ClosingAgrees(s: State, q: Quotas, c: Id, e: Effect)
    requires Committing(s, q, c, e) && OnboardingAgrees(s.db) && s.clients[c].op.CloseAccount?
    ensures OnboardingAgrees(Apply(s.db, e.delta))
  {
    var x, db' := s.clients[c], Apply(s.db, e.delta);
    assert forall m <- e.delta.members :: m.1 == x.op.u;
    forall u ensures Agrees(db', u) {
      assert Agrees(s.db, u) && (u != x.op.u ==> MembershipsOf(db', u) == MembershipsOf(s.db, u));
    }
  }

  // --- the rest ---------------------------------------------------------------------

  predicate MovesPeople(op: Op) {
    || op.FoundWorkspace? || op.JoinWorkspace? || op.DropMember? || op.DeleteWorkspace? || op.PurgeRows?
    || op.OpenAccount? || op.RenameAccount? || op.CloseAccount?
  }

  /** Members keep their memberships, an account its status. */
  ghost predicate LeavesPeople(a: DB, d: Delta) {
    && (forall m <- d.members :: d.members[m].Some? && m in a.members)
    && (forall u <- d.accounts ::
          d.accounts[u].Some? && u in a.accounts && d.accounts[u].value.status == a.accounts[u].status)
  }

  lemma RolesLeavePeople(a: DB, op: Op, stored: seq<Key>)
    ensures op.AssignRole? && WorkAssign(a, op).Success? ==> LeavesPeople(a, WorkAssign(a, op).value.delta)
    ensures op.TransferWorkspace? && WorkTransfer(a, op).Success? ==> LeavesPeople(a, WorkTransfer(a, op).value.delta)
    ensures op.SetAvatar? && WorkSetAvatar(a, op, stored).Success? ==> LeavesPeople(a, WorkSetAvatar(a, op, stored).value.delta)
  {}

  lemma RolesAgree(s: State, q: Quotas, c: Id, e: Effect)
    requires Committing(s, q, c, e) && OnboardingAgrees(s.db) && LeavesPeople(s.clients[c].base, e.delta)
    ensures OnboardingAgrees(Apply(s.db, e.delta))
  {
    var x := s.clients[c];
    Pays(s, q, c, e);
    forall m <- e.delta.members ensures m in s.db.members {
      assert Writes(e.delta, MemberRow(m.0, m.1));
      assert SameRow(x.base, s.db, MemberRow(m.0, m.1));
    }
    forall u <- e.delta.accounts ensures At(x.base.accounts, u) == At(s.db.accounts, u) {
      assert Writes(e.delta, AccountRow(u));
      assert SameRow(x.base, s.db, AccountRow(u));
    }
    UntouchedAgrees(s.db, e.delta);
  }

  lemma OthersAgree(s: State, q: Quotas, c: Id, e: Effect)
    requires Committing(s, q, c, e) && OnboardingAgrees(s.db) && !MovesPeople(s.clients[c].op)
    ensures OnboardingAgrees(Apply(s.db, e.delta))
  {
    var x := s.clients[c];
    if x.op.AssignRole? || x.op.TransferWorkspace? || x.op.SetAvatar? {
      RolesLeavePeople(x.base, x.op, x.stored);
      RolesAgree(s, q, c, e);
    } else {
      UntouchedAgrees(s.db, e.delta);
    }
  }

  lemma EffectAgreesExactly(s: State, q: Quotas, c: Id, e: Effect)
    requires Committing(s, q, c, e) && OnboardingAgrees(s.db)
    ensures OnboardingAgrees(Apply(s.db, e.delta)) <==> !Misjudges(s.clients[c].base, s.db, s.clients[c].op)
  {
    match s.clients[c].op {
      case FoundWorkspace(_, _, _) => FoundingAgreesExactly(s, q, c, e);
      case JoinWorkspace(_, _, _) => JoiningAgreesExactly(s, q, c, e);
      case DropMember(_, _) => DroppingAgreesExactly(s, q, c, e);
      case DeleteWorkspace(_) => DeletionAgreesExactly(s, q, c, e);
      case PurgeRows(_) => PurgeAgreesExactly(s, q, c, e);
      case OpenAccount(_, _, _) => OpeningAgreesExactly(s, q, c, e);
      case RenameAccount(_, _) => RenamingAgreesExactly(s, q, c, e);
      case CloseAccount(_) => ClosingAgrees(s, q, c, e);
      case _ => OthersAgree(s, q, c, e);
    }
  }

  /** From a database where onboarding agrees with membership, a commit leaves one if and only
      if it misjudges no one: it does not leave somebody past onboarding without a membership,
      or short of it with one, because of what it read and did not lock. */
  lemma CommitAgreesExactly(s: State, s': State, q: Quotas, c: Id)
    requires Inv(s, q) && Commits(s, s', q, c) && OnboardingAgrees(s.db)
    ensures OnboardingAgrees(s'.db) <==> !Misjudges(s.clients[c].base, s.db, s.clients[c].op)
  {
    EffectAgreesExactly(s, q, c, WorkOf(q, s.clients[c]).value);
  }

  // --- whole runs -------------------------------------------------------------------

  lemma {:induction false} AgreesUntil(states: seq<State>, q: Quotas, i: nat)
    requires IsRun(states, q) && i < |states|
    requires forall j: nat, c | CommitAt(states, q, j, c) ::
               !Misjudges(states[j].clients[c].base, states[j].db, states[j].clients[c].op)
    ensures OnboardingAgrees(states[i].db)
    decreases i
  {
    if i > 0 {
      var j := i - 1;
      AgreesUntil(states, q, j);
      assert Steps(states[j], states[j + 1], q);
      OnlyCommitsChangeRows(states[j], states[j + 1], q);
      if states[j + 1].db != states[j].db {
        var c :| Commits(states[j], states[j + 1], q, c);
        assert CommitAt(states, q, j, c);
        InvAlways(states, q, j);
        CommitAgreesExactly(states[j], states[j + 1], q, c);
      }
    }
  }

  /** In a whole run onboarding agrees with membership at every moment if and only if no commit
      misjudges anyone. */
  lemma OnboardingAgreesExactly(states: seq<State>, q: Quotas)
    requires IsRun(states, q)
    ensures (forall i: nat | i < |states| :: OnboardingAgrees(states[i].db))
       <==> forall i: nat, c | CommitAt(states, q, i, c) ::
              !Misjudges(states[i].clients[c].base, states[i].db, states[i].clients[c].op)
  {
    if forall i: nat | i < |states| :: OnboardingAgrees(states[i].db) {
      forall i: nat, c | CommitAt(states, q, i, c)
        ensures !Misjudges(states[i].clients[c].base, states[i].db, states[i].clients[c].op)
      {
        InvAlways(states, q, i);
        CommitAgreesExactly(states[i], states[i + 1], q, c);
      }
    }
    if forall i: nat, c | CommitAt(states, q, i, c) ::
         !Misjudges(states[i].clients[c].base, states[i].db, states[i].clients[c].op) {
      forall i: nat | i < |states| ensures OnboardingAgrees(states[i].db) {
        AgreesUntil(states, q, i);
      }
    }
  }
}
