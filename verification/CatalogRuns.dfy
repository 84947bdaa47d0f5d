/** Building runs of the catalog step by step: requests that arrive, commit, lose a race and try
    again. */
module CatalogRuns {
  import opened Wrappers
  import opened Access
  import opened Text
  import opened Entities
  import opened Catalog

  /** Some run leads from `s` to `s'`. */
  ghost predicate Leads(s: State, s': State, q: Quotas) {
    exists states: seq<State> :: Path(states, q) && states[0] == s && states[|states| - 1] == s'
  }

  ghost predicate Path(states: seq<State>, q: Quotas) {
    states != [] && forall i | 0 <= i < |states| - 1 :: Steps(states[i], states[i + 1], q)
  }

  /** `s` is the last state of a run (`IsRun`). */
  ghost predicate Reachable(s: State, q: Quotas) {
    Leads(START, s, q)
  }

  lemma LeadsNowhere(s: State, q: Quotas)
    ensures Leads(s, s, q)
  {
    assert Path([s], q);
  }

  lemma OneMoreStep(o: State, s: State, s': State, q: Quotas)
    requires Leads(o, s, q) && Steps(s, s', q)
    ensures Leads(o, s', q)
  {
    var states :| Path(states, q) && states[0] == o && states[|states| - 1] == s;
    var longer := states + [s'];
    forall i | 0 <= i < |longer| - 1 ensures Steps(longer[i], longer[i + 1], q) {
      if i < |states| - 1 {
        assert Steps(states[i], states[i + 1], q);
      }
    }
    assert Path(longer, q);
  }

  // --- single steps -----------------------------------------------------------------

  function Placed(s: State, c: Id, x: Client): State {
    s.(clients := s.clients[c := x])
  }

  /** The state once client `c` has opened a transaction. */
  function Opened(s: State, c: Id, op: Op, attempt: nat): State {
    Placed(s, c, Running(op, [], attempt, s.db, |s.log|, s.clock + 1, s.nextId, {}))
      .(clock := s.clock + 1, nextId := s.nextId + 1)
  }

  /** A request that stores no files; the route lets it in. */
  predicate Admitted(s: State, op: Op) {
    && (WorkspaceOf(op).Some? ==> Live(s.db, WorkspaceOf(op).value))
    && Uploads(op) == 0 && !op.PurgeBatch?
  }

  lemma ArrivesNext(o: State, s: State, c: Id, op: Op, q: Quotas)
    requires Leads(o, s, q) && c !in s.clients && Admitted(s, op)
    ensures Leads(o, Opened(s, c, op, 0), q)
  {
    assert Arrives(s, Opened(s, c, op, 0), c, op, {});
    OneMoreStep(o, s, Opened(s, c, op, 0), q);
  }

  lemma TriesAgain(o: State, s: State, c: Id, op: Op, attempt: nat, q: Quotas)
    requires Leads(o, s, q) && c in s.clients && s.clients[c] == Ready(op, [], attempt) && !op.PurgeBatch?
    ensures Leads(o, Opened(s, c, op, attempt), q)
  {
    assert Begins(s, Opened(s, c, op, attempt), c, {});
    OneMoreStep(o, s, Opened(s, c, op, attempt), q);
  }

  /** The state once client `c` has committed with effect `e`. */
  function Landed(s: State, c: Id, e: Effect): State
    requires c in s.clients
  {
    Placed(s, c, Cleaning(s.clients[c].op, e.released, e.next))
      .(db := Apply(s.db, e.delta),
        log := s.log + [Entry(e.conflicts, e.edit)],
        born := s.born + Apply(s.db, e.delta).workspaces.Keys)
  }

  lemma CommitsNext(o: State, s: State, c: Id, e: Effect, q: Quotas)
    requires Leads(o, s, q) && IsRunning(s, c) && WorkOf(q, s.clients[c]) == Success(e)
    requires Valid(s.log, s.clients[c].at, e.conflicts)
    ensures Commits(s, Landed(s, c, e), q, c)
    ensures Leads(o, Landed(s, c, e), q)
  {
    assert Commits(s, Landed(s, c, e), q, c);
    OneMoreStep(o, s, Landed(s, c, e), q);
  }

  /** Client `c` loses a race over row `r` and will try again. */
  lemma LosesNext(o: State, s: State, c: Id, e: Effect, r: RowId, q: Quotas)
    requires Leads(o, s, q) && IsRunning(s, c) && s.clients[c].attempt + 1 < ATTEMPTS
    requires WorkOf(q, s.clients[c]) == Success(e) && r in e.conflicts && Conflicted(s.log, s.clients[c].at, r)
    ensures var x := s.clients[c]; Leads(o, Placed(s, c, Ready(x.op, x.stored, x.attempt + 1)), q)
  {
    var x := s.clients[c];
    assert Loses(s, Placed(s, c, Ready(x.op, x.stored, x.attempt + 1)), q, c);
    OneMoreStep(o, s, Placed(s, c, Ready(x.op, x.stored, x.attempt + 1)), q);
  }

  // --- requests that run alone ------------------------------------------------------

  /** The effect of `op` on the database as it is. */
  ghost function EffectOf(s: State, op: Op, q: Quotas): Outcome
    requires Uploads(op) == 0
  {
    Work(s.db, q, op, [], s.clock + 1, s.nextId, {})
  }

  /** A request that nothing overlaps commits. */
  lemma RunsAlone(o: State, s: State, c: Id, op: Op, q: Quotas) returns (s': State)
    requires Leads(o, s, q) && c !in s.clients && Admitted(s, op) && EffectOf(s, op, q).Success?
    ensures Leads(o, s', q) && s'.clients.Keys == s.clients.Keys + {c} && s'.nextId == s.nextId + 1
    ensures forall d <- s.clients :: s'.clients[d] == s.clients[d]
    ensures var e := EffectOf(s, op, q).value;
            s'.db == Apply(s.db, e.delta) && s'.log == s.log + [Entry(e.conflicts, e.edit)]
  {
    ArrivesNext(o, s, c, op, q);
    var s0, e := Opened(s, c, op, 0), EffectOf(s, op, q).value;
    CommitsNext(o, s0, c, e, q);
    s' := Landed(s0, c, e);
  }

  /** The state once client `c` has stored its one file. */
  function Stored(s: State, c: Id): State
    requires c in s.clients && s.clients[c].Running?
  {
    var x := s.clients[c];
    Placed(s, c, Running(x.op, [s.nextKey], 0, x.base, x.at, x.now, x.newId, x.batch))
      .(bucket := s.bucket + {s.nextKey}, nextKey := s.nextKey + 1)
  }

  lemma StoresNext(o: State, s: State, c: Id, q: Quotas)
    requires Leads(o, s, q) && IsChecking(s, c) && Uploads(s.clients[c].op) == 1
    ensures Leads(o, Stored(s, c), q)
  {
    assert seq(1, i requires 0 <= i < 1 => s.nextKey + i) == [s.nextKey];
    assert KeySet([s.nextKey]) == {s.nextKey};
    assert Stores(s, Stored(s, c), c);
    OneMoreStep(o, s, Stored(s, c), q);
  }

  lemma ArrivesAndStores(o: State, s: State, c: Id, op: Op, q: Quotas)
    requires Leads(o, s, q) && c !in s.clients && WorkspaceOf(op).None? && !op.PurgeBatch? && Uploads(op) == 1
    ensures Leads(o, Stored(Opened(s, c, op, 0), c), q)
  {
    assert Arrives(s, Opened(s, c, op, 0), c, op, {});
    OneMoreStep(o, s, Opened(s, c, op, 0), q);
    StoresNext(o, Opened(s, c, op, 0), c, q);
  }

  /** A request of no product that stores one file, and that nothing overlaps, commits. */
  lemma RunsWithAFile(o: State, s: State, c: Id, op: Op, q: Quotas) returns (s': State)
    requires Leads(o, s, q) && c !in s.clients && WorkspaceOf(op).None? && !op.PurgeBatch? && Uploads(op) == 1
    requires Work(s.db, q, op, [s.nextKey], s.clock + 1, s.nextId, {}).Success?
    ensures Leads(o, s', q) && s'.clients.Keys == s.clients.Keys + {c}
    ensures forall d <- s.clients :: s'.clients[d] == s.clients[d]
    ensures s'.db == Apply(s.db, Work(s.db, q, op, [s.nextKey], s.clock + 1, s.nextId, {}).value.delta)
  {
    ArrivesAndStores(o, s, c, op, q);
    var s1, e := Stored(Opened(s, c, op, 0), c), Work(s.db, q, op, [s.nextKey], s.clock + 1, s.nextId, {}).value;
    CommitsNext(o, s1, c, e, q);
    s' := Landed(s1, c, e);
  }

  lemma RunsStoring(o: State, s: State, c: Id, op: Op, stored: seq<Key>, q: Quotas) returns (s': State)
    requires Leads(o, s, q) && c !in s.clients && WorkspaceOf(op).None? && !op.PurgeBatch?
    requires |stored| == Uploads(op) && (stored == [] || stored == [s.nextKey])
    requires Work(s.db, q, op, stored, s.clock + 1, s.nextId, {}).Success?
    ensures Leads(o, s', q) && s'.clients.Keys == s.clients.Keys + {c}
    ensures forall d <- s.clients :: s'.clients[d] == s.clients[d]
    ensures s'.db == Apply(s.db, Work(s.db, q, op, stored, s.clock + 1, s.nextId, {}).value.delta)
  {
    if stored == [] {
      s' := RunsAlone(o, s, c, op, q);
    } else {
      s' := RunsWithAFile(o, s, c, op, q);
    }
  }

  lemma OneLetterName(letter: char)
    requires !IsSpace(letter)
    ensures Strip([letter]) == [letter]
  {}

  lemma RegisteringAdds(db: DB, u: Id, email: string, letter: char)
    requires u !in db.accounts && !EmailTaken(db, Lower(email)) && !IsSpace(letter)
    ensures var e := WorkOpen(db, OpenAccount(u, email, [letter]));
            && e.Success?
            && Apply(db, e.value.delta)
            == db.(accounts := db.accounts[u := User(Lower(email), [letter], None, WorkspacePending)])
  {
    OneLetterName(letter);
    assert User.New(email, [letter]) == User(Lower(email), [letter], None, WorkspacePending);
  }

  lemma Registers(s: State, c: Id, u: Id, email: string, letter: char, q: Quotas) returns (s': State)
    requires Reachable(s, q) && c !in s.clients && u !in s.db.accounts && !EmailTaken(s.db, Lower(email))
    requires !IsSpace(letter)
    ensures Reachable(s', q) && s'.clients.Keys == s.clients.Keys + {c} && s'.nextId == s.nextId + 1
    ensures s'.db == s.db.(accounts := s.db.accounts[u := User(Lower(email), [letter], None, WorkspacePending)])
  {
    RegisteringAdds(s.db, u, email, letter);
    s' := RunsAlone(START, s, c, OpenAccount(u, email, [letter]), q);
  }

  function WithWorkspace(db: DB, w: Id, u: Id, name: string, slug: string): DB
    requires u in db.accounts
  {
    db.(workspaces := db.workspaces[w := Workspace(name, Address(slug), u, None, None)],
    accounts := db.accounts[u := db.accounts[u].(status := Completed)],
    members := db.members[(w, u) := Member(w + 1)])
  }

  lemma FoundingAdds(db: DB, w: Id, u: Id, letter: char, slug: string)
    requires u in db.accounts && db.accounts[u].status != ProfilePending && !IsSpace(letter)
    ensures var e := WorkFound(db, FoundWorkspace(u, [letter], Address(slug)), w);
            && e.Success?
            && Apply(db, e.value.delta) == WithWorkspace(db, w, u, [letter], slug)
  {
    OneLetterName(letter);
    PatchNone(db.accounts);
    PatchNone(db.products);
    PatchOne(db.workspaces, w, Workspace([letter], Address(slug), u, None, None));
    PatchOne(db.members, (w, u), Member(w + 1));
    PatchOne(db.accounts, u, db.accounts[u].CreatedAWorkspace());
    assert db.accounts[u].CreatedAWorkspace() == db.accounts[u] ==> db.accounts[u := db.accounts[u]] == db.accounts;
  }

  lemma Founds(s: State, c: Id, u: Id, letter: char, slug: string, q: Quotas) returns (s': State)
    requires Reachable(s, q) && c !in s.clients && u in s.db.accounts && s.db.accounts[u].status != ProfilePending
    requires !IsSpace(letter)
    ensures Reachable(s', q) && s'.clients.Keys == s.clients.Keys + {c} && s'.nextId == s.nextId + 1
    ensures s'.db == WithWorkspace(s.db, s.nextId, u, [letter], slug)
  {
    FoundingAdds(s.db, s.nextId, u, letter, slug);
    s' := RunsAlone(START, s, c, FoundWorkspace(u, [letter], Address(slug)), q);
  }

  function WithMember(db: DB, w: Id, u: Id, roleId: Id): DB
    requires u in db.accounts
  {
    db.(accounts := db.accounts[u := db.accounts[u].(status := Completed)], members := db.members[(w, u) := Member(roleId)])
  }

  lemma JoiningAdds(db: DB, w: Id, u: Id, roleId: Id)
    requires Live(db, w) && (w, u) !in db.members && u in db.accounts && db.accounts[u].status != ProfilePending
    ensures var e := WorkJoin(db, JoinWorkspace(w, u, roleId));
            e.Success? && Apply(db, e.value.delta) == WithMember(db, w, u, roleId)
  {
    PatchNone(db.accounts);
    PatchNone(db.products);
    PatchNone(db.workspaces);
    PatchOne(db.members, (w, u), Member(roleId));
    PatchOne(db.accounts, u, db.accounts[u].JoinedAWorkspace());
    assert db.accounts[u].JoinedAWorkspace() == db.accounts[u] ==> db.accounts[u := db.accounts[u]] == db.accounts;
  }

  lemma Joins(s: State, c: Id, w: Id, u: Id, roleId: Id, q: Quotas) returns (s': State)
    requires Reachable(s, q) && c !in s.clients && Live(s.db, w) && (w, u) !in s.db.members
    requires u in s.db.accounts && s.db.accounts[u].status != ProfilePending
    ensures Reachable(s', q) && s'.clients.Keys == s.clients.Keys + {c} && s'.nextId == s.nextId + 1
    ensures s'.db == WithMember(s.db, w, u, roleId)
  {
    JoiningAdds(s.db, w, u, roleId);
    s' := RunsAlone(START, s, c, JoinWorkspace(w, u, roleId), q);
  }

  /** One commit since the snapshot, of other rows, does not fail validation. */
  lemma StillValid(log: seq<Entry>, entry: Entry, conflicts: set<RowId>)
    requires entry.conflicts !! conflicts
    ensures Valid(log + [entry], |log|, conflicts)
  {
    assert (log + [entry])[|log|] == entry;
  }
}
