/** The retry loop over transactions of the catalog: the validation of `Catalog` is what the loop
    asks of its database. */
module CatalogRetry {
  import opened Wrappers
  import opened Entities
  import opened ProductRows
  import opened Catalog
  import opened CatalogInvariant
  import opened CatalogCommit
  import opened CatalogAtomic
  import T = Transactions

  // --- installing a session's rows --------------------------------------------------

  /** A row the session changed comes from the session, any other one from the latest database. */
  function Merge<K, V(==)>(snapshot: map<K, V>, pending: map<K, V>, latest: map<K, V>): map<K, V> {
    map k | k in pending.Keys + latest.Keys && (if At(snapshot, k) == At(pending, k) then k in latest else k in pending)
      :: if At(snapshot, k) == At(pending, k) then latest[k] else pending[k]
  }

  function Install(snapshot: DB, pending: DB, latest: DB): DB {
    DB(Merge(snapshot.workspaces, pending.workspaces, latest.workspaces),
       Merge(snapshot.accounts, pending.accounts, latest.accounts),
       Merge(snapshot.members, pending.members, latest.members),
       Merge(snapshot.products, pending.products, latest.products))
  }

  lemma MergingIsPatching<K, V>(snapshot: map<K, V>, d: map<K, Option<V>>, latest: map<K, V>)
    requires forall k <- d :: At(snapshot, k) == At(latest, k)
    ensures Merge(snapshot, Patch(snapshot, d), latest) == Patch(latest, d)
  {
    var pending := Patch(snapshot, d);
    forall k ensures k in Merge(snapshot, pending, latest) <==> k in Patch(latest, d) {
      if k in d {
        assert At(snapshot, k) == At(latest, k);
      }
    }
    forall k <- Patch(latest, d) ensures Merge(snapshot, pending, latest)[k] == Patch(latest, d)[k] {
      if k in d {
        assert At(snapshot, k) == At(latest, k);
      }
    }
  }

  /** When the written rows are current, installing them is applying the delta. */
  lemma InstallingIsApplying(snapshot: DB, d: Delta, latest: DB)
    requires Current(snapshot, latest, d)
    ensures Install(snapshot, Apply(snapshot, d), latest) == Apply(latest, d)
  {
    forall w <- d.workspaces ensures At(snapshot.workspaces, w) == At(latest.workspaces, w) {
      assert Writes(d, WorkspaceRow(w));
    }
    forall u <- d.accounts ensures At(snapshot.accounts, u) == At(latest.accounts, u) {
      assert Writes(d, AccountRow(u));
    }
    forall m <- d.members ensures At(snapshot.members, m) == At(latest.members, m) {
      assert Writes(d, MemberRow(m.0, m.1));
    }
    forall p <- d.products ensures At(snapshot.products, p) == At(latest.products, p) {
      assert Writes(d, CatalogRow(p));
    }
    MergingIsPatching(snapshot.workspaces, d.workspaces, latest.workspaces);
    MergingIsPatching(snapshot.accounts, d.accounts, latest.accounts);
    MergingIsPatching(snapshot.members, d.members, latest.members);
    MergingIsPatching(snapshot.products, d.products, latest.products);
  }

  // --- a request of the catalog as the work of the loop -----------------------------

  predicate Runs(xs: seq<Client>) {
    |xs| == ATTEMPTS && forall x <- xs :: x.Running? && |x.stored| == Uploads(x.op)
  }

  /** The work of a request whose n-th attempt is the transaction `xs[n - 1]`. */
  ghost function WorkOfAttempts(q: Quotas, xs: seq<Client>): T.Work<DB, Next, ProductError>
    requires Runs(xs)
  {
    (n: nat, db: DB) =>
      if 1 <= n <= ATTEMPTS then RunOnce(db, q, xs[n - 1]) else (db, Failure(T.SerializationFailure))
  }

  ghost function RunOnce(db: DB, q: Quotas, x: Client): (DB, Result<Next, T.Raised<ProductError>>)
    requires x.Running? && |x.stored| == Uploads(x.op)
  {
    match Work(db, q, x.op, x.stored, x.now, x.newId, x.batch)
    case Success(e) => (Apply(db, e.delta), Success(e.next))
    case Failure(error) => (db, Failure(T.OtherError(error)))
  }

  lemma RunAtTheCommit(s: State, s': State, q: Quotas, c: Id)
    requires Inv(s, q) && Commits(s, s', q, c)
    requires WorkOf(q, s.clients[c]).value.conflicts != {}
    requires ReadsStillHold(s.clients[c].base, s.db, s.clients[c].op, s.clients[c].batch)
    ensures var x, next := s.clients[c], WorkOf(q, s.clients[c]).value.next;
            && RunOnce(x.base, q, x).1 == Success(next)
            && RunOnce(s.db, q, x) == (s'.db, Success(next))
            && s'.db == Install(x.base, RunOnce(x.base, q, x).0, s.db)
  {
    var x := s.clients[c];
    var e := WorkOf(q, x).value;
    assert Current(x.base, s.db, e.delta) by {
      Pays(s, q, c, e);
    }
    InstallingIsApplying(x.base, e.delta, s.db);
    CommitIsAtomic(s, s', q, c);
  }

  lemma RunsAreValidated(q: Quotas, xs: seq<Client>, attempts: seq<T.Attempt<DB, ProductError>>, n: nat,
                         x: Client, latest: DB)
    requires Runs(xs) && |attempts| == ATTEMPTS && 1 <= n <= ATTEMPTS && xs[n - 1] == x
    requires attempts[n - 1] == T.Attempt(x.base, latest, None)
    requires RunOnce(latest, q, x) == (Install(x.base, RunOnce(x.base, q, x).0, latest), RunOnce(x.base, q, x).1)
    ensures T.Validated(WorkOfAttempts(q, xs), Install, attempts, n)
  {
    var work := WorkOfAttempts(q, xs);
    assert work(n, x.base) == RunOnce(x.base, q, x) && work(n, latest) == RunOnce(latest, q, x);
  }

  /** A commit of the catalog is one the loop may rely on: `Transactions.Validated`. */
  lemma CatalogCommitsAreValidated(s: State, s': State, q: Quotas, c: Id, xs: seq<Client>,
                                   attempts: seq<T.Attempt<DB, ProductError>>, n: nat)
    requires Inv(s, q) && Commits(s, s', q, c)
    requires WorkOf(q, s.clients[c]).value.conflicts != {}
    requires ReadsStillHold(s.clients[c].base, s.db, s.clients[c].op, s.clients[c].batch)
    requires Runs(xs) && |attempts| == ATTEMPTS && 1 <= n <= ATTEMPTS
    requires xs[n - 1] == s.clients[c] && attempts[n - 1] == T.Attempt(s.clients[c].base, s.db, None)
    ensures T.Validated(WorkOfAttempts(q, xs), Install, attempts, n)
  {
    RunAtTheCommit(s, s', q, c);
    RunsAreValidated(q, xs, attempts, n, s.clients[c], s.db);
  }

  /** What the loop makes of an attempt whose work succeeds and whose commit is not refused. */
  lemma LoopInstalls(q: Quotas, xs: seq<Client>, attempts: seq<T.Attempt<DB, ProductError>>,
                     r: Result<Next, T.Failed<ProductError>>, runs: nat, database: DB, x: Client, latest: DB)
    requires Runs(xs) && |attempts| == ATTEMPTS && T.Decided(WorkOfAttempts(q, xs), Install, attempts, r, runs, database)
    requires xs[runs - 1] == x && attempts[runs - 1] == T.Attempt(x.base, latest, None)
    requires RunOnce(x.base, q, x).1.Success?
    ensures r.Success? && RunOnce(x.base, q, x).1 == Success(r.value)
    ensures database == Install(x.base, RunOnce(x.base, q, x).0, latest)
  {
    assert WorkOfAttempts(q, xs)(runs, x.base) == RunOnce(x.base, q, x);
  }

  /** The loop, over a request of the catalog whose last attempt is the commit `s` to `s'`, leaves
      the database of `s'`: what one run of the work makes of the latest database. */
  lemma CatalogTransactionIsOneStep(s: State, s': State, q: Quotas, c: Id, xs: seq<Client>,
                                    attempts: seq<T.Attempt<DB, ProductError>>,
                                    r: Result<Next, T.Failed<ProductError>>, runs: nat, database: DB)
    requires Inv(s, q) && Commits(s, s', q, c)
    requires WorkOf(q, s.clients[c]).value.conflicts != {}
    requires ReadsStillHold(s.clients[c].base, s.db, s.clients[c].op, s.clients[c].batch)
    requires Runs(xs) && |attempts| == ATTEMPTS && T.Decided(WorkOfAttempts(q, xs), Install, attempts, r, runs, database)
    requires xs[runs - 1] == s.clients[c] && attempts[runs - 1] == T.Attempt(s.clients[c].base, s.db, None)
    ensures r.Success? && database == s'.db
    ensures RunOnce(s.db, q, s.clients[c]) == (database, Success(r.value))
  {
    var x := s.clients[c];
    RunAtTheCommit(s, s', q, c);
    LoopInstalls(q, xs, attempts, r, runs, database, x, s.db);
  }

  // --- giving up --------------------------------------------------------------------

  /** The races a client has lost with the request it is at. */
  function Losses(x: Client): nat {
    match x
    case Ready(_, _, attempt) => attempt
    case Running(_, _, attempt, _, _, _, _, _) => attempt
    case Cleaning(_, _, Reply(ConcurrencyConflict)) => 3
    case _ => 0
  }

  lemma WorkNeverGivesUp(db: DB, q: Quotas, op: Op, stored: seq<Key>, now: Time, newId: Id, batch: set<Id>)
    requires |stored| == Uploads(op) && Work(db, q, op, stored, now, newId, batch).Success?
    ensures Work(db, q, op, stored, now, newId, batch).value.next != Reply(ConcurrencyConflict)
  {}

  /** A lost race is tried again, unless it was the third. */
  lemma LostRacesAreRetried(s: State, s': State, q: Quotas, c: Id)
    requires Inv(s, q) && Loses(s, s', q, c)
    ensures c in s'.clients && Losses(s'.clients[c]) == Losses(s.clients[c]) + 1 <= 3
    ensures if Losses(s'.clients[c]) < 3 then s'.clients[c].Ready?
            else s'.clients[c].Cleaning? && s'.clients[c].next == Reply(ConcurrencyConflict)
    ensures s'.clients[c].op == s.clients[c].op
    ensures s'.clients[c].Ready? ==> s'.clients[c].stored == s.clients[c].stored
    ensures s'.clients[c].Cleaning? ==> s'.clients[c].doomed == KeySet(s.clients[c].stored)
  {
    assert ClientOk(s, s.clients[c]);
  }

  lemma CommitsDoNotGiveUp(s: State, s': State, q: Quotas, c: Id)
    requires Commits(s, s', q, c)
    ensures Losses(s'.clients[c]) == 0
  {
    var x := s.clients[c];
    WorkNeverGivesUp(x.base, q, x.op, x.stored, x.now, x.newId, x.batch);
  }

  lemma OnlyLosingCounts(s: State, s': State, q: Quotas, c: Id)
    requires Steps(s, s', q) && c in s'.clients
    requires c in s.clients && s.clients[c].Running? ==> s.clients[c].attempt < ATTEMPTS
    ensures || Losses(s'.clients[c]) == 0
            || (c in s.clients && Losses(s.clients[c]) == Losses(s'.clients[c]))
            || (Loses(s, s', q, c) && Losses(s'.clients[c]) == Losses(s.clients[c]) + 1)
  {
    if Commits(s, s', q, c) {
      CommitsDoNotGiveUp(s, s', q, c);
    }
  }

  /** Step `j` is one in which client `c` loses a race. */
  ghost predicate LosesAt(states: seq<State>, q: Quotas, j: nat, c: Id) {
    j + 1 < |states| && Loses(states[j], states[j + 1], q, c)
  }

  /** Client `c` lost `n` races before the i-th state, each at a step of its own. */
  ghost predicate LostRaces(states: seq<State>, q: Quotas, i: nat, c: Id, n: nat)
    requires i < |states|
    decreases n
  {
    n == 0 || exists j: nat :: j < i && LosesAt(states, q, j, c) && LostRaces(states, q, j, c, n - 1)
  }

  lemma LostRacesStayLost(states: seq<State>, q: Quotas, j: nat, c: Id, n: nat)
    requires j + 1 < |states| && LostRaces(states, q, j, c, n)
    ensures LostRaces(states, q, j + 1, c, n)
  {
    if n > 0 {
      var k: nat :| k < j && LosesAt(states, q, k, c) && LostRaces(states, q, k, c, n - 1);
      assert k < j + 1;
    }
  }

  lemma LossesAt(states: seq<State>, q: Quotas, j: nat, c: Id)
    requires IsRun(states, q) && j + 1 < |states| && c in states[j + 1].clients && Losses(states[j + 1].clients[c]) > 0
    ensures c in states[j].clients
    ensures var was, now := Losses(states[j].clients[c]), Losses(states[j + 1].clients[c]);
            was == now || (LosesAt(states, q, j, c) && now == was + 1)
  {
    InvAlways(states, q, j);
    assert c in states[j].clients && states[j].clients[c].Running? ==> ClientOk(states[j], states[j].clients[c]);
    assert Steps(states[j], states[j + 1], q);
    OnlyLosingCounts(states[j], states[j + 1], q, c);
  }

  /** In every run a client has lost as many races as it counts; one that gives up has lost
      three. */
  lemma {:induction false} GivesUpAfterThreeLosses(states: seq<State>, q: Quotas, i: nat, c: Id)
    requires IsRun(states, q) && i < |states| && c in states[i].clients
    ensures LostRaces(states, q, i, c, Losses(states[i].clients[c]))
    ensures states[i].clients[c].Cleaning? && states[i].clients[c].next == Reply(ConcurrencyConflict) ==>
              LostRaces(states, q, i, c, 3)
    decreases i
  {
    if i > 0 && Losses(states[i].clients[c]) > 0 {
      var j := i - 1;
      LossesAt(states, q, j, c);
      GivesUpAfterThreeLosses(states, q, j, c);
      if Losses(states[j].clients[c]) == Losses(states[i].clients[c]) {
        LostRacesStayLost(states, q, j, c, Losses(states[j].clients[c]));
      }
    }
  }
}
