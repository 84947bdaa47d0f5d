/** What every reachable state of the catalog keeps, whatever the interleaving. */
module CatalogInvariant {
  import opened Wrappers
  import opened Entities
  import opened ProductRows
  import opened Catalog
  import opened CatalogBytes
  import opened CatalogEffects

  // --- who answers for an object in the bucket --------------------------------------

  datatype Holder = OfRow(r: RowId) | OfClient(c: Id)

  /** Objects a request stored and no row points at yet, or released and has yet to delete. */
  function InFlight(x: Client): set<Key> {
    match x
    case Ready(_, stored, _) => KeySet(stored)
    case Running(_, stored, _, _, _, _, _, _) => KeySet(stored)
    case Cleaning(_, doomed, _) => doomed
    case _ => {}
  }

  function Held(db: DB, clients: map<Id, Client>, h: Holder): set<Key> {
    match h
    case OfRow(r) => RowKeys(db, r)
    case OfClient(c) => if c in clients then InFlight(clients[c]) else {}
  }

  /** Every object in the bucket has exactly one holder, and every held key is in the bucket. */
  ghost predicate Conserved(db: DB, clients: map<Id, Client>, bucket: set<Key>) {
    && (forall h :: Held(db, clients, h) <= bucket)
    && (forall k <- bucket :: exists h :: k in Held(db, clients, h))
    && (forall g, h :: g != h ==> Held(db, clients, g) !! Held(db, clients, h))
  }

  // --- the rest of the invariant ----------------------------------------------------

  ghost predicate QuotaOk(db: DB, q: Quotas, w: Id) {
    |ProductsIn(db, w)| <= q.maxProducts && StorageBytes(db, w) <= q.maxStorageBytes
  }

  ghost predicate QuotasOk(db: DB, q: Quotas) {
    forall w :: Live(db, w) ==> QuotaOk(db, q, w)
  }

  ghost predicate ProductOk(row: ProductRow, p: Id, born: set<Id>, clock: Time, nextId: Id) {
    && ProductFits(row, p, clock + 1, nextId)
    && row.workspaceId in born
  }

  ghost predicate ProductsOk(db: DB, born: set<Id>, clock: Time, nextId: Id) {
    forall p <- db.products :: ProductOk(db.products[p], p, born, clock, nextId)
  }

  ghost predicate WorkspacesOk(db: DB, born: set<Id>, nextId: Id) {
    db.workspaces.Keys <= born && forall w <- born :: w < nextId
  }

  ghost predicate SameSince(db: DB, log: seq<Entry>, x: Client)
    requires x.Running?
  {
    forall r :: !Conflicted(log, x.at, r) ==> SameRow(x.base, db, r)
  }

  ghost predicate NoGrowthSince(db: DB, log: seq<Entry>, x: Client)
    requires x.Running?
  {
    forall w :: Live(x.base, w) && !Conflicted(log, x.at, WorkspaceRow(w)) ==> NoGrowth(x.base, db, w)
  }

  ghost predicate BornSince(born: set<Id>, log: seq<Entry>, x: Client)
    requires x.Running?
  {
    forall w <- born :: w < x.newId || Conflicted(log, x.at, WorkspaceRow(w))
  }

  ghost predicate EditsBefore(log: seq<Entry>, x: Client)
    requires x.Running? && x.at <= |log|
  {
    forall i | 0 <= i < x.at :: log[i].edit.Some? ==> log[i].edit.value.0 < x.newId
  }

  ghost predicate DeadStays(db: DB, x: Client)
    requires x.Running?
  {
    forall w :: WorkspaceOf(x.op) == Some(w) && !Live(x.base, w) ==> !Live(db, w)
  }

  /** The first attempt's snapshot is the one the route let the request in on. */
  ghost predicate LetIn(x: Client)
    requires x.Running?
  {
    x.attempt == 0 && WorkspaceOf(x.op).Some? ==> Live(x.base, WorkspaceOf(x.op).value)
  }

  /** Rows point at keys handed out before; the next files get new ones. */
  ghost predicate KeysBelow(db: DB, nextKey: Key) {
    forall r, k | k in RowKeys(db, r) :: k < nextKey
  }

  ghost predicate RunOk(s: State, x: Client)
    requires x.Running?
  {
    && x.at <= |s.log| && x.now <= s.clock && x.newId < s.nextId && x.attempt < ATTEMPTS
    && Snapshot(x.base, x.stored, x.now, x.newId)
    && (x.op.PurgeBatch? ==> BatchFound(x.base, x.op.w, x.batch))
    && SameSince(s.db, s.log, x)
    && NoGrowthSince(s.db, s.log, x)
    && BornSince(s.born, s.log, x)
    && EditsBefore(s.log, x)
    && DeadStays(s.db, x)
    && LetIn(x)
    && KeysBelow(x.base, s.nextKey)
  }

  predicate WorkspaceBorn(op: Op, born: set<Id>) {
    WorkspaceOf(op).Some? ==> WorkspaceOf(op).value in born
  }

  ghost predicate FilesStored(op: Op, stored: seq<Key>) {
    |stored| == Uploads(op) && Distinct(stored)
  }

  ghost predicate ClientOk(s: State, x: Client) {
    match x
    case Ready(op, stored, attempt) =>
      && WorkspaceBorn(op, s.born) && FilesStored(op, stored) && attempt < ATTEMPTS
      && (attempt == 0 ==> WorkspaceOf(op).None?)
    case Running(op, stored, attempt, _, _, _, _, _) =>
      && WorkspaceBorn(op, s.born) && (FilesStored(op, stored) || (attempt == 0 && stored == []))
      && RunOk(s, x)
    case Cleaning(op, _, next) => NextFits(op, next)
    case Done(op, answer) => AnswerFits(op, answer)
  }

  ghost predicate ClientsOk(s: State) {
    forall c <- s.clients :: ClientOk(s, s.clients[c])
  }

  /** A versioned edit moved its product past the version it was sent with, for good. */
  ghost predicate EditPast(db: DB, entry: Entry, nextId: Id) {
    entry.edit.Some? ==>
      var (p, version) := entry.edit.value;
      && p < nextId && CatalogRow(p) in entry.conflicts
      && (p in db.products ==> version < db.products[p].updatedAt)
  }

  ghost predicate EditsOk(db: DB, log: seq<Entry>, nextId: Id) {
    && (forall i | 0 <= i < |log| :: EditPast(db, log[i], nextId))
    && (forall i, j | 0 <= i < j < |log| :: log[i].edit.Some? ==> log[i].edit != log[j].edit)
  }

  ghost predicate Inv(s: State, q: Quotas) {
    && Conserved(s.db, s.clients, s.bucket)
    && (forall k <- s.bucket :: k < s.nextKey)
    && ProductsOk(s.db, s.born, s.clock, s.nextId)
    && WorkspacesOk(s.db, s.born, s.nextId)
    && QuotasOk(s.db, q)
    && ClientsOk(s)
    && EditsOk(s.db, s.log, s.nextId)
  }

  lemma InvAtStart(q: Quotas)
    ensures Inv(START, q)
  {
    forall h ensures Held(START.db, START.clients, h) == {} {}
  }

  // --- conservation -----------------------------------------------------------------

  /** One client changes: what it drops leaves the bucket, what it takes is new there. */
  lemma ClientConserves(db: DB, clients: map<Id, Client>, bucket: set<Key>, bucket': set<Key>, c: Id, x: Client)
    requires Conserved(db, clients, bucket)
    requires var held := Held(db, clients, OfClient(c));
             && bucket' == bucket - (held - InFlight(x)) + InFlight(x)
             && (InFlight(x) - held) !! bucket
    ensures Conserved(db, clients[c := x], bucket')
  {
    var clients' := clients[c := x];
    forall h | h != OfClient(c) ensures Held(db, clients', h) == Held(db, clients, h) {}
    assert Held(db, clients', OfClient(c)) == InFlight(x);
    forall h ensures Held(db, clients', h) <= bucket' {
      assert h != OfClient(c) ==> Held(db, clients, h) !! Held(db, clients, OfClient(c));
    }
    forall k <- bucket' ensures exists h :: k in Held(db, clients', h) {
      if k in InFlight(x) {
        assert k in Held(db, clients', OfClient(c));
      } else {
        var h :| k in Held(db, clients, h);
        assert k in Held(db, clients', h);
      }
    }
    forall g, h | g != h ensures Held(db, clients', g) !! Held(db, clients', h) {
      assert Held(db, clients, g) !! Held(db, clients, h);
    }
  }

  /** Where a key that a row holds after a commit was before it. */
  lemma RowKeyOrigin(db: DB, d: Delta, released: set<Key>, stored: set<Key>, r: RowId, k: Key)
    requires KeysMove(db, Apply(db, d), d, released, stored)
    requires k in RowKeys(Apply(db, d), r)
    ensures k in RowKeys(db, r) || (k in stored && Lands(Apply(db, d), d, stored, r))
    ensures k in released ==> !Writes(d, r) && k in RowKeys(db, r)
  {
    if Writes(d, r) {
      assert Flows(db, Apply(db, d), released, stored, r);
      if k !in RowKeys(db, r) {
        var o :| Lands(Apply(db, d), d, stored, o);
      }
    }
  }

  lemma CommitConserves(db: DB, clients: map<Id, Client>, bucket: set<Key>, d: Delta, c: Id, x: Client)
    requires Conserved(db, clients, bucket) && c in clients
    requires KeysMove(db, Apply(db, d), d, InFlight(x), InFlight(clients[c]))
    ensures Conserved(Apply(db, d), clients[c := x], bucket)
  {
    var db', clients', stored, released := Apply(db, d), clients[c := x], InFlight(clients[c]), InFlight(x);
    forall k, h | k in Held(db', clients', h) ensures k in bucket {
      HeldBefore(db, clients, d, c, x, h, k);
    }
    forall k <- bucket ensures exists h :: k in Held(db', clients', h) {
      var h := KeyStaysHeld(db, clients, bucket, d, c, x, k);
    }
    forall g, h, k | k in Held(db', clients', g) && k in Held(db', clients', h) ensures g == h {
      HeldOnce(db, clients, bucket, d, c, x, g, h, k);
    }
  }

  lemma HeldBefore(db: DB, clients: map<Id, Client>, d: Delta, c: Id, x: Client, h: Holder, k: Key)
    requires c in clients && KeysMove(db, Apply(db, d), d, InFlight(x), InFlight(clients[c]))
    requires k in Held(Apply(db, d), clients[c := x], h)
    ensures exists g :: k in Held(db, clients, g)
  {
    match h {
      case OfRow(r) =>
        RowKeyOrigin(db, d, InFlight(x), InFlight(clients[c]), r, k);
        assert k in Held(db, clients, OfRow(r)) || k in Held(db, clients, OfClient(c));
      case OfClient(o) =>
        if o == c {
          var r :| Writes(d, r) && k in RowKeys(db, r);
          assert k in Held(db, clients, OfRow(r));
        } else {
          assert k in Held(db, clients, h);
        }
    }
  }

  lemma KeyStaysHeld(db: DB, clients: map<Id, Client>, bucket: set<Key>, d: Delta, c: Id, x: Client, k: Key)
    returns (now: Holder)
    requires Conserved(db, clients, bucket) && c in clients && k in bucket
    requires KeysMove(db, Apply(db, d), d, InFlight(x), InFlight(clients[c]))
    ensures k in Held(Apply(db, d), clients[c := x], now)
  {
    var db' := Apply(db, d);
    var h :| k in Held(db, clients, h);
    now := h;
    match h {
      case OfRow(r) =>
        if k !in RowKeys(db', r) {
          assert Writes(d, r) ==> Flows(db, db', InFlight(x), InFlight(clients[c]), r);
          now := OfClient(c);
        }
      case OfClient(o) =>
        if o == c {
          var r :| Lands(db', d, InFlight(clients[c]), r);
          now := OfRow(r);
        }
    }
  }

  lemma HeldOnce(db: DB, clients: map<Id, Client>, bucket: set<Key>, d: Delta, c: Id, x: Client,
                     g: Holder, h: Holder, k: Key)
    requires Conserved(db, clients, bucket) && c in clients
    requires KeysMove(db, Apply(db, d), d, InFlight(x), InFlight(clients[c]))
    requires k in Held(Apply(db, d), clients[c := x], g) && k in Held(Apply(db, d), clients[c := x], h)
    ensures g == h
  {
    var g', r' := HolderBefore(db, clients, d, c, x, g, k);
    var h', o' := HolderBefore(db, clients, d, c, x, h, k);
    assert k in Held(db, clients, g') && k in Held(db, clients, h');
    assert g' == h' by {
      assert g' != h' ==> Held(db, clients, g') !! Held(db, clients, h');
    }
  }

  /** The one holder of `k` before the commit that explains its holder after it. */
  lemma HolderBefore(db: DB, clients: map<Id, Client>, d: Delta, c: Id, x: Client, h: Holder, k: Key)
    returns (was: Holder, r: RowId)
    requires c in clients && KeysMove(db, Apply(db, d), d, InFlight(x), InFlight(clients[c]))
    requires k in Held(Apply(db, d), clients[c := x], h)
    ensures k in Held(db, clients, was)
    ensures match h
            case OfRow(o) =>
              && (was == h || (was == OfClient(c) && Lands(Apply(db, d), d, InFlight(clients[c]), o)))
              && (k in InFlight(x) ==> !Writes(d, o) && was == h)
            case OfClient(o) => if o == c then k in InFlight(x) && was == OfRow(r) && Writes(d, r) else was == h
  {
    was, r := h, WorkspaceRow(0);
    match h {
      case OfRow(o) =>
        RowKeyOrigin(db, d, InFlight(x), InFlight(clients[c]), o, k);
        if k !in RowKeys(db, o) {
          was := OfClient(c);
        }
      case OfClient(o) =>
        if o == c {
          r :| Writes(d, r) && k in RowKeys(db, r);
          was := OfRow(r);
        }
    }
  }

  // --- steps that touch one client only ---------------------------------------------

  lemma QuietStep(s: State, s': State, q: Quotas, c: Id, x: Client)
    requires Inv(s, q)
    requires s'.db == s.db && s'.log == s.log && s'.born == s.born
    requires s.clock <= s'.clock && s.nextId <= s'.nextId && s.nextKey <= s'.nextKey && s'.clients == s.clients[c := x]
    requires Conserved(s'.db, s'.clients, s'.bucket) && forall k <- s'.bucket :: k < s'.nextKey
    requires ClientOk(s', x)
    ensures Inv(s', q)
  {
    forall o <- s'.clients ensures ClientOk(s', s'.clients[o]) {
      if o != c {
        assert ClientOk(s, s.clients[o]);
      }
    }
    forall p <- s'.db.products ensures ProductOk(s'.db.products[p], p, s'.born, s'.clock, s'.nextId) {
      assert ProductOk(s.db.products[p], p, s.born, s.clock, s.nextId);
    }
    forall i | 0 <= i < |s'.log| ensures EditPast(s'.db, s'.log[i], s'.nextId) {
      assert EditPast(s.db, s.log[i], s.nextId);
    }
  }

  /** The database as it is fits a snapshot under a new clock reading and a new id. */
  lemma NowIsASnapshot(s: State, q: Quotas)
    requires Inv(s, q)
    ensures Snapshot(s.db, [], s.clock + 1, s.nextId) && KeysBelow(s.db, s.nextKey)
    ensures forall i | 0 <= i < |s.log| :: s.log[i].edit.Some? ==> s.log[i].edit.value.0 < s.nextId
  {
    forall p <- s.db.products ensures ProductFits(s.db.products[p], p, s.clock + 1, s.nextId) {
      assert ProductOk(s.db.products[p], p, s.born, s.clock, s.nextId);
    }
    forall i | 0 <= i < |s.log| ensures s.log[i].edit.Some? ==> s.log[i].edit.value.0 < s.nextId {
      assert EditPast(s.db, s.log[i], s.nextId);
    }
    forall r, k | k in RowKeys(s.db, r) ensures k < s.nextKey {
      assert Held(s.db, s.clients, OfRow(r)) <= s.bucket;
    }
  }

  lemma OpensWell(s: State, s': State, q: Quotas, c: Id, op: Op, stored: seq<Key>, attempt: nat, batch: set<Id>)
    requires Inv(s, q) && Opens(s, s', c, op, stored, attempt, batch) && attempt < ATTEMPTS
    requires KeySet(stored) == Held(s.db, s.clients, OfClient(c)) && Distinct(stored)
    requires attempt == 0 && WorkspaceOf(op).Some? ==> Live(s.db, WorkspaceOf(op).value)
    ensures RunOk(s', s'.clients[c])
  {
    var x := s'.clients[c];
    NowIsASnapshot(s, q);
    forall r ensures RowKeys(x.base, r) !! KeySet(x.stored) {
      assert Held(s.db, s.clients, OfRow(r)) !! Held(s.db, s.clients, OfClient(c));
    }
  }

  lemma OpensKeeps(s: State, s': State, q: Quotas, c: Id, op: Op, stored: seq<Key>, attempt: nat, batch: set<Id>)
    requires Inv(s, q) && Opens(s, s', c, op, stored, attempt, batch)
    requires KeySet(stored) == Held(s.db, s.clients, OfClient(c)) && Distinct(stored)
    requires WorkspaceBorn(op, s.born) && (|stored| == Uploads(op) || (attempt == 0 && stored == [])) && attempt < ATTEMPTS
    requires attempt == 0 && WorkspaceOf(op).Some? ==> Live(s.db, WorkspaceOf(op).value)
    ensures Inv(s', q)
  {
    var x := s'.clients[c];
    ClientConserves(s.db, s.clients, s.bucket, s'.bucket, c, x);
    OpensWell(s, s', q, c, op, stored, attempt, batch);
    QuietStep(s, s', q, c, x);
  }

  lemma ArrivesKeeps(s: State, s': State, q: Quotas, c: Id, op: Op, batch: set<Id>)
    requires Inv(s, q) && Arrives(s, s', c, op, batch)
    ensures Inv(s', q)
  {
    OpensKeeps(s, s', q, c, op, [], 0, batch);
  }

  lemma BeginsKeeps(s: State, s': State, q: Quotas, c: Id, batch: set<Id>)
    requires Inv(s, q) && Begins(s, s', c, batch)
    ensures Inv(s', q)
  {
    assert ClientOk(s, s.clients[c]);
    OpensKeeps(s, s', q, c, s.clients[c].op, s.clients[c].stored, s.clients[c].attempt, batch);
  }

  lemma AnswersKeeps(s: State, s': State, q: Quotas, c: Id, answer: Answer)
    requires Inv(s, q) && Answers(s, s', c, answer)
    ensures Inv(s', q)
  {
    var x := Done(s.clients[c].op, answer);
    ClientConserves(s.db, s.clients, s.bucket, s'.bucket, c, x);
    QuietStep(s, s', q, c, x);
  }

  lemma StoresKeeps(s: State, s': State, q: Quotas, c: Id)
    requires Inv(s, q) && Stores(s, s', c)
    ensures Inv(s', q)
  {
    var x := s'.clients[c];
    assert ClientOk(s, s.clients[c]);
    forall k <- InFlight(x) ensures s.nextKey <= k < s'.nextKey {
      var i :| 0 <= i < |x.stored| && x.stored[i] == k;
    }
    ClientConserves(s.db, s.clients, s.bucket, s'.bucket, c, x);
    forall r ensures RowKeys(x.base, r) !! KeySet(x.stored) {}
    assert RunOk(s', x);
    QuietStep(s, s', q, c, x);
  }

  lemma LosesKeeps(s: State, s': State, q: Quotas, c: Id)
    requires Inv(s, q) && Loses(s, s', q, c)
    ensures Inv(s', q)
  {
    assert ClientOk(s, s.clients[c]);
    ClientConserves(s.db, s.clients, s.bucket, s'.bucket, c, s'.clients[c]);
    QuietStep(s, s', q, c, s'.clients[c]);
  }

  lemma OnlyConfirmsDuplicate(q: Quotas, x: Client)
    requires x.Running? && |x.stored| == Uploads(x.op) && WorkOf(q, x) == Failure(DuplicateUpload)
    ensures x.op.ConfirmImage?
  {
  }

  lemma RefusesKeeps(s: State, s': State, q: Quotas, c: Id)
    requires Inv(s, q) && Refuses(s, s', q, c)
    ensures Inv(s', q)
  {
    assert ClientOk(s, s.clients[c]);
    if WorkOf(q, s.clients[c]).error == DuplicateUpload {
      OnlyConfirmsDuplicate(q, s.clients[c]);
    }
    ClientConserves(s.db, s.clients, s.bucket, s'.bucket, c, s'.clients[c]);
    QuietStep(s, s', q, c, s'.clients[c]);
  }

  lemma BreaksKeeps(s: State, s': State, q: Quotas, c: Id, next: Next)
    requires Inv(s, q) && Breaks(s, s', c, next)
    ensures Inv(s', q)
  {
    assert ClientOk(s, s.clients[c]);
    ClientConserves(s.db, s.clients, s.bucket, s'.bucket, c, s'.clients[c]);
    QuietStep(s, s', q, c, s'.clients[c]);
  }

  lemma DeletesFileKeeps(s: State, s': State, q: Quotas, c: Id, key: Key)
    requires Inv(s, q) && DeletesFile(s, s', c, key)
    ensures Inv(s', q)
  {
    assert ClientOk(s, s.clients[c]);
    assert key in Held(s.db, s.clients, OfClient(c));
    assert Held(s.db, s.clients, OfClient(c)) <= s.bucket;
    ClientConserves(s.db, s.clients, s.bucket, s'.bucket, c, s'.clients[c]);
    QuietStep(s, s', q, c, s'.clients[c]);
  }

  lemma FinishesKeeps(s: State, s': State, q: Quotas, c: Id)
    requires Inv(s, q) && Finishes(s, s', c)
    ensures Inv(s', q)
  {
    var x := s.clients[c];
    assert ClientOk(s, x);
    ClientConserves(s.db, s.clients, s.bucket, s'.bucket, c, s'.clients[c]);
    QuietStep(s, s', q, c, s'.clients[c]);
  }
}
