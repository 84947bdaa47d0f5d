/** Three things the validation does not give, each with a run that shows it: the owner of a live
    workspace may be gone (`CatalogOwners` says exactly when), a workspace that was deleted may
    hold more products than its quota allows (`CatalogQuotas`), and an account past onboarding
    may be left without a workspace (`CatalogOnboarding`). */
module CatalogAnomaly {
  import opened Wrappers
  import opened Access
  import opened Text
  import opened Entities
  import opened ProductRows
  import opened Catalog
  import opened CatalogOwners
  import opened CatalogQuotas
  import opened CatalogOnboarding
  import opened CatalogRuns

  const OWNER_EMAIL := "ann@acme.io"
  const GUEST_EMAIL := "ben@acme.com"

  /** Request `c` runs `op` on the database as it is, after losing `attempt` races. */
  ghost predicate RunsNow(s: State, c: Id, op: Op, attempt: nat) {
    && IsRunning(s, c) && s.clients[c].op == op && s.clients[c].attempt == attempt
    && s.clients[c].base == s.db && s.clients[c].at == |s.log|
  }

  /** Account 1 has registered and founded workspace `w`. */
  lemma SomebodyFounds(q: Quotas) returns (s: State, w: Id)
    ensures Reachable(s, q) && s.clients.Keys == {0, 1} && w < s.nextId
    ensures s.db == DB(map[w := Workspace("A", Address("acme"), 1, None, None)],
                       map[1 := User(Lower(OWNER_EMAIL), "A", None, Completed)], map[(w, 1) := Member(w + 1)], map[])
  {
    LeadsNowhere(START, q);
    s := Registers(START, 0, 1, OWNER_EMAIL, 'A', q);
    w := s.nextId;
    s := Founds(s, 1, 1, 'A', "acme", q);
  }

  // --- a founder that vanishes ------------------------------------------------------

  /** Account 0 is past onboarding the ordinary way: registered under a name, and a member of
      the live workspace `w`, which account 1 owns. */
  ghost predicate Settled(db: DB, w: Id) {
    && Live(db, w) && db.workspaces[w].ownerId == 1 && 1 in db.accounts
    && 0 in db.accounts && db.accounts[0].status == Completed && db.accounts[0].displayName == "B"
    && (w, 0) in db.members
  }

  lemma SomebodyJoins(q: Quotas) returns (s: State, w: Id)
    ensures Reachable(s, q) && s.clients.Keys == {0, 1, 2, 3} && w < s.nextId
    ensures Settled(s.db, w) && s.db.workspaces.Keys == {w} && forall m <- s.db.members :: m.0 == w
  {
    s, w := SomebodyFounds(q);
    assert |Lower(GUEST_EMAIL)| != |Lower(OWNER_EMAIL)|;
    s := Registers(s, 2, 0, GUEST_EMAIL, 'B', q);
    s := Joins(s, 3, w, 0, w + 4, q);
  }

  const CLOSING := CloseAccount(0)
  const FOUNDING := FoundWorkspace(0, "B", Address("bakery"))

  /** Two requests of account 0 overlap: request 4 closes it, request 5 founds a workspace. */
  ghost predicate Racing(s: State) {
    RunsNow(s, 4, CLOSING, 0) && RunsNow(s, 5, FOUNDING, 0)
  }

  lemma BothBegin(q: Quotas) returns (s: State, w: Id)
    ensures Reachable(s, q) && Racing(s) && Settled(s.db, w)
    ensures s.db.workspaces.Keys == {w} && w < s.clients[5].newId && forall m <- s.db.members :: m.0 == w
  {
    s, w := SomebodyJoins(q);
    ArrivesNext(START, s, 4, CLOSING, q);
    s := Opened(s, 4, CLOSING, 0);
    ArrivesNext(START, s, 5, FOUNDING, q);
    s := Opened(s, 5, FOUNDING, 0);
  }

  function FoundedRow(): Workspace {
    Workspace("B", Address("bakery"), 0, None, None)
  }

  lemma FoundingLands(s: State, w: Id, q: Quotas) returns (s1: State, v: Id)
    requires Reachable(s, q) && Racing(s) && Settled(s.db, w) && w < s.clients[5].newId
    requires s.db.workspaces.Keys == {w}
    ensures Reachable(s1, q) && Commits(s, s1, q, 5)
    ensures 4 in s1.clients && s1.clients[4] == s.clients[4] && s1.db.accounts == s.db.accounts
    ensures s1.log == s.log + [Entry({WorkspaceRow(v), MemberRow(v, 0)}, None)] && v != w
    ensures s1.db.workspaces == s.db.workspaces[v := FoundedRow()]
  {
    v := s.clients[5].newId;
    OneLetterName('B');
    var founded := WorkOf(q, s.clients[5]).value;
    CommitsNext(START, s, 5, founded, q);
    s1 := Landed(s, 5, founded);
  }

  /** On the snapshot the account owns nothing, and closing it touches no row of workspace `v`. */
  lemma ClosingIsClear(db: DB, w: Id, v: Id)
    requires Settled(db, w) && db.workspaces.Keys == {w} && v != w && forall m <- db.members :: m.0 == w
    ensures var e := WorkClose(db, CLOSING);
            && e.Success?
            && e.value.conflicts !! {WorkspaceRow(v), MemberRow(v, 0)}
            && e.value.delta.workspaces == map[] && e.value.delta.accounts == map[0 := None]
  {}

  lemma AccountGoes(db: DB, d: Delta, u: Id)
    requires d.workspaces == map[] && d.accounts == map[u := None]
    ensures Apply(db, d).workspaces == db.workspaces && Apply(db, d).accounts == db.accounts - {u}
  {
    PatchNone(db.workspaces);
    PatchOneAway(db.accounts, u);
  }

  lemma ClosingLands(s: State, s1: State, w: Id, v: Id, q: Quotas) returns (s2: State)
    requires Racing(s) && Settled(s.db, w) && s.db.workspaces.Keys == {w}
    requires Reachable(s1, q) && 4 in s1.clients && s1.clients[4] == s.clients[4]
    requires s1.log == s.log + [Entry({WorkspaceRow(v), MemberRow(v, 0)}, None)] && v != w
    requires forall m <- s.db.members :: m.0 == w
    ensures Commits(s1, s2, q, 4)
    ensures s2.db.workspaces == s1.db.workspaces && s2.db.accounts == s1.db.accounts - {0}
  {
    ClosingIsClear(s.db, w, v);
    var closed := WorkClose(s.db, CLOSING).value;
    StillValid(s.log, s1.log[|s.log|], closed.conflicts);
    CommitsNext(START, s1, 4, closed, q);
    s2 := Landed(s1, 4, closed);
    AccountGoes(s1.db, closed.delta, 0);
  }

  lemma OwnerIsGone(a: DB, b: DB, c: DB, w: Id, v: Id)
    requires Settled(a, w) && a.workspaces.Keys == {w}
    requires b.accounts == a.accounts && b.workspaces == a.workspaces[v := FoundedRow()]
    requires v != w && c.workspaces == b.workspaces && c.accounts == b.accounts - {0}
    ensures OwnersExist(a) && OwnersExist(b) && !OwnersExist(c)
  {
    assert Live(c, v);
  }

  /** Closing an account and founding a workspace with it race: in `s` both transactions run, on
      a database where every owner exists and the account is past onboarding the ordinary way;
      the founding commits, then the close commits, and the new workspace has no owner. */
  lemma ClosingRacesFounding(q: Quotas) returns (s: State, s1: State, s2: State, w: Id)
    ensures Reachable(s, q) && Racing(s) && OwnersExist(s.db) && Settled(s.db, w)
    ensures Commits(s, s1, q, 5) && Commits(s1, s2, q, 4)
    ensures OwnersExist(s1.db) && !OwnersExist(s2.db)
  {
    s, w := BothBegin(q);
    var v: Id;
    s1, v := FoundingLands(s, w, q);
    s2 := ClosingLands(s, s1, w, v, q);
    OwnerIsGone(s.db, s1.db, s2.db, w, v);
  }

  // --- a workspace deleted meanwhile that overfills ---------------------------------

  const ONE_PRODUCT := Quotas(1, 0)

  function Creating(w: Id): Op {
    CreateProduct(w, "x", None, 0, Draft, None)
  }

  /** Requests 4 and 5 each create a product in workspace `w`. */
  ghost predicate Filling(s: State, w: Id, attempt: nat) {
    RunsNow(s, 4, Creating(w), attempt) && RunsNow(s, 5, Creating(w), attempt) && s.clients[4].newId != s.clients[5].newId
  }

  lemma CreatingAdds(db: DB, w: Id, now: Time, newId: Id) returns (e: Effect)
    requires db.products == map[]
    ensures WorkCreate(db, ONE_PRODUCT, Creating(w), now, newId) == Success(e)
    ensures e.conflicts == LockOf(db, w) + {CatalogRow(newId)} && e.delta.workspaces == map[]
    ensures e.delta.products == map[newId := Some(ProductRow(w, "x", None, 0, Draft, None, now, now, []))]
  {
    assert ProductsIn(db, w) == {};
    e := WorkCreate(db, ONE_PRODUCT, Creating(w), now, newId).value;
  }

  lemma BothArrive() returns (s: State, w: Id)
    ensures Reachable(s, ONE_PRODUCT) && Filling(s, w, 0) && 6 !in s.clients
    ensures Live(s.db, w) && s.db.products == map[] && AllWithin(s.db, ONE_PRODUCT)
  {
    s, w := SomebodyFounds(ONE_PRODUCT);
    ArrivesNext(START, s, 4, Creating(w), ONE_PRODUCT);
    s := Opened(s, 4, Creating(w), 0);
    ArrivesNext(START, s, 5, Creating(w), ONE_PRODUCT);
    s := Opened(s, 5, Creating(w), 0);
    assert forall v :: ProductsIn(s.db, v) == {};
  }

  lemma DeletingLeaves(s: State, w: Id)
    requires Live(s.db, w) && s.db.products == map[]
    ensures var e := EffectOf(s, DeleteWorkspace(w), ONE_PRODUCT);
            && e.Success? && WorkspaceRow(w) in e.value.conflicts
            && var after := Apply(s.db, e.value.delta);
               w in after.workspaces && !Live(after, w) && after.products == map[]
  {}

  /** Request 6 deletes the workspace meanwhile. */
  lemma SomebodyDeletes(o: State, w: Id) returns (s: State)
    requires Filling(o, w, 0) && 6 !in o.clients && Live(o.db, w) && o.db.products == map[]
    ensures Leads(o, s, ONE_PRODUCT)
    ensures 4 in s.clients && s.clients[4] == o.clients[4] && 5 in s.clients && s.clients[5] == o.clients[5]
    ensures Conflicted(s.log, |o.log|, WorkspaceRow(w))
    ensures w in s.db.workspaces && !Live(s.db, w) && s.db.products == map[]
  {
    LeadsNowhere(o, ONE_PRODUCT);
    DeletingLeaves(o, w);
    s := RunsAlone(o, o, 6, DeleteWorkspace(w), ONE_PRODUCT);
    assert WorkspaceRow(w) in s.log[|o.log|].conflicts;
  }

  /** A creation whose workspace was deleted under it loses the race and tries again. */
  lemma CreatesAgain(o: State, s: State, c: Id, w: Id) returns (s': State)
    requires Leads(o, s, ONE_PRODUCT) && IsRunning(s, c) && s.clients[c].op == Creating(w) && s.clients[c].attempt == 0
    requires Live(s.clients[c].base, w) && s.clients[c].base.products == map[]
    requires Conflicted(s.log, s.clients[c].at, WorkspaceRow(w))
    ensures Leads(o, s', ONE_PRODUCT) && s'.db == s.db && s'.log == s.log
    ensures RunsNow(s', c, Creating(w), 1) && s'.clients[c].newId == s.nextId && s'.nextId == s.nextId + 1
    ensures s'.clients == s.clients[c := s'.clients[c]]
  {
    var x := s.clients[c];
    var e := CreatingAdds(x.base, w, x.now, x.newId);
    LosesNext(o, s, c, e, WorkspaceRow(w), ONE_PRODUCT);
    var lost := Placed(s, c, Ready(x.op, x.stored, 1));
    TriesAgain(o, lost, c, x.op, 1, ONE_PRODUCT);
    s' := Opened(lost, c, x.op, 1);
    assert s'.clients == s.clients[c := s'.clients[c]];
  }

  lemma BothTryAgain(o: State, w: Id) returns (s: State)
    requires Filling(o, w, 0) && 6 !in o.clients && Live(o.db, w) && o.db.products == map[]
    ensures Leads(o, s, ONE_PRODUCT) && Filling(s, w, 1)
    ensures w in s.db.workspaces && !Live(s.db, w) && s.db.products == map[]
  {
    s := SomebodyDeletes(o, w);
    s := CreatesAgain(o, s, 4, w);
    s := CreatesAgain(o, s, 5, w);
  }

  lemma TwoProducts(db: DB, first: Delta, second: Delta, w: Id, a: Id, b: Id)
    requires db.products == map[] && a != b
    requires first.products.Keys == {a} && first.products[a].Some? && first.products[a].value.workspaceId == w
    requires second.products.Keys == {b} && second.products[b].Some? && second.products[b].value.workspaceId == w
    ensures ProductsIn(Apply(Apply(db, first), second), w) == {a, b}
  {}

  lemma TwoIds(a: Id, b: Id)
    requires a != b
    ensures |{a, b}| == 2
  {}

  lemma CreationLands(s: State, c: Id, w: Id) returns (s': State, e: Effect)
    requires IsRunning(s, c) && s.clients[c].op == Creating(w)
    requires s.clients[c].base.products == map[] && !Live(s.clients[c].base, w)
    requires Valid(s.log, s.clients[c].at, {CatalogRow(s.clients[c].newId)})
    ensures Commits(s, s', ONE_PRODUCT, c) && s'.db == Apply(s.db, e.delta) && s'.db.workspaces == s.db.workspaces
    ensures s'.clients == s.clients[c := s'.clients[c]] && s'.log == s.log + [Entry({CatalogRow(s.clients[c].newId)}, e.edit)]
    ensures var newId := s.clients[c].newId;
            && e.delta.products.Keys == {newId} && e.delta.products[newId].Some?
            && e.delta.products[newId].value.workspaceId == w
  {
    var x := s.clients[c];
    LeadsNowhere(s, ONE_PRODUCT);
    e := CreatingAdds(x.base, w, x.now, x.newId);
    CommitsNext(s, s, c, e, ONE_PRODUCT);
    s' := Landed(s, c, e);
    PatchNone(s.db.workspaces);
  }

  lemma BothLand(s: State, w: Id) returns (s1: State, s2: State)
    requires Filling(s, w, 1) && !Live(s.db, w) && s.db.products == map[]
    ensures Commits(s, s1, ONE_PRODUCT, 4) && Commits(s1, s2, ONE_PRODUCT, 5)
    ensures s2.db.workspaces == s.db.workspaces && |ProductsIn(s2.db, w)| == 2
  {
    var a, b := s.clients[4].newId, s.clients[5].newId;
    var first: Effect, second: Effect;
    s1, first := CreationLands(s, 4, w);
    StillValid(s.log, s1.log[|s.log|], {CatalogRow(b)});
    s2, second := CreationLands(s1, 5, w);
    TwoProducts(s.db, first.delta, second.delta, w, a, b);
    TwoIds(a, b);
  }

  /** Two creations arrive while their workspace is live and empty, in `o`. It is deleted before
      they commit; both lose that race and try again. The lock of the deleted workspace then
      locks nothing: both find room for one product, and both commit. */
  lemma DeletedWorkspaceOverfills() returns (o: State, s: State, s1: State, s2: State, w: Id)
    ensures Reachable(o, ONE_PRODUCT) && Filling(o, w, 0) && Live(o.db, w) && AllWithin(o.db, ONE_PRODUCT)
    ensures Leads(o, s, ONE_PRODUCT) && Filling(s, w, 1)
    ensures Commits(s, s1, ONE_PRODUCT, 4) && Commits(s1, s2, ONE_PRODUCT, 5)
    ensures w in s2.db.workspaces && !Live(s2.db, w) && |ProductsIn(s2.db, w)| > ONE_PRODUCT.maxProducts
  {
    o, w := BothArrive();
    s := BothTryAgain(o, w);
    s1, s2 := BothLand(s, w);
  }

  // --- a member dropped twice -------------------------------------------------------

  /** Account 0 is past onboarding and a member of exactly the live workspaces `w` and `v`, which
      somebody else owns. */
  ghost predicate InBoth(db: DB, w: Id, v: Id) {
    && w != v && Live(db, w) && Live(db, v) && db.workspaces[w].ownerId == 1 && db.workspaces[v].ownerId == 1
    && 0 in db.accounts && db.accounts[0].status == Completed
    && db.members.Keys == {(w, 1), (v, 1), (w, 0), (v, 0)} && db.accounts.Keys == {0, 1}
    && db.accounts[1].status == Completed
  }

  /** Account 1 owns the live workspaces `w` and `v`, and nobody else is a member of anything. */
  ghost predicate OwnsBoth(db: DB, w: Id, v: Id) {
    && w != v && Live(db, w) && Live(db, v) && db.workspaces[w].ownerId == 1 && db.workspaces[v].ownerId == 1
    && 1 in db.accounts && db.accounts[1].status == Completed && db.members.Keys == {(w, 1), (v, 1)}
  }

  lemma SomebodyFoundsBoth(q: Quotas) returns (s: State, w: Id, v: Id)
    ensures Reachable(s, q) && s.clients.Keys == {0, 1, 2} && OwnsBoth(s.db, w, v)
    ensures s.db.accounts.Keys == {1} && s.db.accounts[1].email == Lower(OWNER_EMAIL)
  {
    s, w := SomebodyFounds(q);
    v := s.nextId;
    s := Founds(s, 2, 1, 'C', "cinema", q);
  }

  lemma SomebodyRegisters(q: Quotas) returns (s: State, w: Id, v: Id)
    ensures Reachable(s, q) && s.clients.Keys == {0, 1, 2, 3} && OwnsBoth(s.db, w, v)
    ensures s.db.accounts.Keys == {0, 1} && s.db.accounts[0].status == WorkspacePending
  {
    s, w, v := SomebodyFoundsBoth(q);
    assert |Lower(GUEST_EMAIL)| != |Lower(OWNER_EMAIL)|;
    s := Registers(s, 3, 0, GUEST_EMAIL, 'B', q);
  }

  lemma SomebodyJoinsBoth(q: Quotas) returns (s: State, w: Id, v: Id)
    ensures Reachable(s, q) && s.clients.Keys == {0, 1, 2, 3, 4, 5} && InBoth(s.db, w, v)
  {
    s, w, v := SomebodyRegisters(q);
    s := Joins(s, 4, w, 0, w + 4, q);
    s := Joins(s, 5, v, 0, v + 4, q);
  }

  /** Requests 6 and 7 remove account 0 from workspaces `w` and `v`. */
  ghost predicate Removing(s: State, w: Id, v: Id) {
    RunsNow(s, 6, DropMember(w, 0), 0) && RunsNow(s, 7, DropMember(v, 0), 0)
  }

  function Dropping(w: Id): Delta {
    NOTHING.(members := map[(w, 0) := None])
  }

  /** Removing account 0 from one of the two sees the other, and does not write the account. */
  lemma DroppingLeaves(db: DB, w: Id, v: Id, which: Id)
    requires InBoth(db, w, v) && which in {w, v}
    ensures var e := WorkDrop(db, DropMember(which, 0));
            && e.Success?
            && e.value.conflicts == {WorkspaceRow(which), MemberRow(which, 0)}
            && e.value.delta == Dropping(which)
  {
    assert (w, 0) in MembershipsOf(db, 0) && (v, 0) in MembershipsOf(db, 0);
  }

  lemma DroppedFrom(db: DB, w: Id)
    ensures Apply(db, Dropping(w)) == db.(members := db.members - {(w, 0)})
  {
    PatchNone(db.workspaces);
    PatchNone(db.accounts);
    PatchNone(db.products);
    PatchOneAway(db.members, (w, 0));
  }

  lemma TwoMembersAgree(db: DB, w: Id)
    requires db.accounts.Keys == {0, 1} && db.accounts[0].status == Completed && db.accounts[1].status == Completed
    requires (w, 0) in db.members && (w, 1) in db.members
    ensures OnboardingAgrees(db)
  {
    assert (w, 0) in MembershipsOf(db, 0) && (w, 1) in MembershipsOf(db, 1);
  }

  lemma BothDropped(db: DB, w: Id, v: Id)
    requires InBoth(db, w, v)
    ensures OnboardingAgrees(db) && OnboardingAgrees(Apply(db, Dropping(w)))
    ensures var after := Apply(Apply(db, Dropping(w)), Dropping(v));
            0 in after.accounts && after.accounts[0].status == Completed && MembershipsOf(after, 0) == {}
  {
    DroppedFrom(db, w);
    var first := Apply(db, Dropping(w));
    DroppedFrom(first, v);
    TwoMembersAgree(db, v);
    TwoMembersAgree(first, v);
    assert MembershipsOf(Apply(first, Dropping(v)), 0) == {};
  }

  lemma BothRemoved(s: State, w: Id, v: Id, q: Quotas) returns (s1: State, s2: State)
    requires Removing(s, w, v) && InBoth(s.db, w, v)
    ensures Commits(s, s1, q, 6) && Commits(s1, s2, q, 7)
    ensures s1.db == Apply(s.db, Dropping(w)) && s2.db == Apply(s1.db, Dropping(v))
  {
    LeadsNowhere(s, q);
    DroppingLeaves(s.db, w, v, w);
    DroppingLeaves(s.db, w, v, v);
    var first, second := WorkDrop(s.db, DropMember(w, 0)).value, WorkDrop(s.db, DropMember(v, 0)).value;
    CommitsNext(s, s, 6, first, q);
    s1 := Landed(s, 6, first);
    StillValid(s.log, Entry(first.conflicts, first.edit), second.conflicts);
    CommitsNext(s, s1, 7, second, q);
    s2 := Landed(s1, 7, second);
  }

  lemma BothRemove(q: Quotas) returns (s: State, w: Id, v: Id)
    ensures Reachable(s, q) && Removing(s, w, v) && InBoth(s.db, w, v)
  {
    s, w, v := SomebodyJoinsBoth(q);
    ArrivesNext(START, s, 6, DropMember(w, 0), q);
    s := Opened(s, 6, DropMember(w, 0), 0);
    ArrivesNext(START, s, 7, DropMember(v, 0), q);
    s := Opened(s, 7, DropMember(v, 0), 0);
  }

  /** Two removals of one person, from two workspaces, each see the other membership. Both
      commit, and the account is left past onboarding without a workspace. */
  lemma RemovalsMissEachOther(q: Quotas) returns (s: State, s1: State, s2: State, w: Id, v: Id)
    ensures Reachable(s, q) && Removing(s, w, v) && InBoth(s.db, w, v) && OnboardingAgrees(s.db)
    ensures Commits(s, s1, q, 6) && Commits(s1, s2, q, 7)
    ensures OnboardingAgrees(s1.db) && !OnboardingAgrees(s2.db)
    ensures 0 in s2.db.accounts && s2.db.accounts[0].status == Completed && MembershipsOf(s2.db, 0) == {}
  {
    s, w, v := BothRemove(q);
    s1, s2 := BothRemoved(s, w, v, q);
    BothDropped(s.db, w, v);
    assert !Agrees(s2.db, 0);
  }
}
