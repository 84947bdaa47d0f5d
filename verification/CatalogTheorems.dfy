/** What the interleaved requests can rely on, in every state of every run. */
module CatalogTheorems {
  import opened Wrappers
  import opened Entities
  import opened ProductRows
  import opened Catalog
  import opened CatalogInvariant
  import opened CatalogCommit

  // --- media conservation -----------------------------------------------------------

  ghost predicate Referenced(db: DB, k: Key) {
    exists r :: k in RowKeys(db, r)
  }

  ghost predicate Pending(s: State, k: Key) {
    exists c :: c in s.clients && k in InFlight(s.clients[c])
  }

  /** No request holds files that no row points at, or still has files to delete. */
  ghost predicate Quiet(s: State) {
    forall c <- s.clients :: InFlight(s.clients[c]) == {}
  }

  /** Each key a row points at names a stored object; each stored object is pointed at by one
      row, or is in flight with one request, never both. */
  lemma MediaIsConserved(states: seq<State>, q: Quotas, i: nat)
    requires IsRun(states, q) && i < |states|
    ensures var s := states[i];
            && (forall k :: k in s.bucket <==> Referenced(s.db, k) || Pending(s, k))
            && (forall k :: !(Referenced(s.db, k) && Pending(s, k)))
            && (forall r, o :: r != o ==> RowKeys(s.db, r) !! RowKeys(s.db, o))
            && (forall c, d | c in s.clients && d in s.clients && c != d ::
                  InFlight(s.clients[c]) !! InFlight(s.clients[d]))
  {
    InvAlways(states, q, i);
    var s := states[i];
    forall k ensures k in s.bucket <==> Referenced(s.db, k) || Pending(s, k) {
      if k in s.bucket {
        var h :| k in Held(s.db, s.clients, h);
        assert match h case OfRow(r) => k in RowKeys(s.db, r) case OfClient(c) => k in InFlight(s.clients[c]);
      }
      if r :| k in RowKeys(s.db, r) {
        assert Held(s.db, s.clients, OfRow(r)) <= s.bucket;
      }
      if c :| c in s.clients && k in InFlight(s.clients[c]) {
        assert Held(s.db, s.clients, OfClient(c)) <= s.bucket;
      }
    }
    forall r, c | c in s.clients ensures RowKeys(s.db, r) !! InFlight(s.clients[c]) {
      assert Held(s.db, s.clients, OfRow(r)) !! Held(s.db, s.clients, OfClient(c));
    }
    forall r, o | r != o ensures RowKeys(s.db, r) !! RowKeys(s.db, o) {
      assert Held(s.db, s.clients, OfRow(r)) !! Held(s.db, s.clients, OfRow(o));
    }
    forall c, d | c in s.clients && d in s.clients && c != d ensures InFlight(s.clients[c]) !! InFlight(s.clients[d]) {
      assert Held(s.db, s.clients, OfClient(c)) !! Held(s.db, s.clients, OfClient(d));
    }
  }

  /** With nothing in flight the bucket holds exactly what the rows point at. */
  lemma NothingLeaks(states: seq<State>, q: Quotas, i: nat)
    requires IsRun(states, q) && i < |states| && Quiet(states[i])
    ensures forall k :: k in states[i].bucket <==> Referenced(states[i].db, k)
  {
    MediaIsConserved(states, q, i);
    assert forall k :: !Pending(states[i], k);
  }

  // --- quotas and image order -------------------------------------------------------

  /** Every live workspace stays within its quotas, and every product's images keep their
      order, however the requests interleave. */
  lemma QuotasAlwaysHold(states: seq<State>, q: Quotas, i: nat)
    requires IsRun(states, q) && i < |states|
    ensures forall w | Live(states[i].db, w) ::
              |ProductsIn(states[i].db, w)| <= q.maxProducts && StorageBytes(states[i].db, w) <= q.maxStorageBytes
    ensures forall p <- states[i].db.products :: ImagesOk(states[i].db.products[p].images)
  {
    InvAlways(states, q, i);
    var s := states[i];
    forall w | Live(s.db, w) ensures |ProductsIn(s.db, w)| <= q.maxProducts && StorageBytes(s.db, w) <= q.maxStorageBytes {
      assert QuotaOk(s.db, q, w);
    }
    forall p <- s.db.products ensures ImagesOk(s.db.products[p].images) {
      assert ProductOk(s.db.products[p], p, s.born, s.clock, s.nextId);
    }
  }

  // --- no lost update ---------------------------------------------------------------

  /** Step `i` of the run commits an update of product `p` that was sent with `version` and
      changed a field. */
  ghost predicate EditsAt(states: seq<State>, q: Quotas, i: nat, p: Id, version: Time) {
    && i + 1 < |states|
    && exists c ::
         && Commits(states[i], states[i + 1], q, c)
         && WorkOf(q, states[i].clients[c]).value.edit == Some((p, version))
  }

  /** What `edit` records: exactly an update with a version that changes a field. */
  lemma EditsAreVersionedChanges(q: Quotas, x: Client)
    requires x.Running? && |x.stored| == Uploads(x.op) && WorkOf(q, x).Success?
    ensures WorkOf(q, x).value.edit.Some? <==>
              && x.op.UpdateProduct? && x.op.ifMatch.Some?
              && Updated(x.base.products[x.op.p], x.op.changes, x.now) != Success(x.base.products[x.op.p])
    ensures WorkOf(q, x).value.edit.Some? ==> WorkOf(q, x).value.edit.value == (x.op.p, x.op.ifMatch.value)
  {}

  lemma StepGrowsLog(s: State, s': State, q: Quotas)
    requires Steps(s, s', q)
    ensures s.log <= s'.log
  {}

  lemma LogGrowsAt(states: seq<State>, q: Quotas, k: nat, j: nat)
    requires IsRun(states, q) && k + 1 == j < |states|
    ensures states[k].log <= states[j].log
  {
    assert Steps(states[k], states[k + 1], q);
    StepGrowsLog(states[k], states[j], q);
  }

  lemma {:induction false} LogGrows(states: seq<State>, q: Quotas, i: nat, j: nat)
    requires IsRun(states, q) && i <= j < |states|
    ensures states[i].log <= states[j].log
    decreases j
  {
    if i < j {
      var k := j - 1;
      LogGrows(states, q, i, k);
      LogGrowsAt(states, q, k, j);
    }
  }

  ghost predicate Logged(states: seq<State>, i: nat, p: Id, version: Time) {
    && i + 1 < |states| && |states[i].log| < |states[i + 1].log|
    && states[i + 1].log[|states[i].log|].edit == Some((p, version))
  }

  lemma EditIsLogged(states: seq<State>, q: Quotas, i: nat, p: Id, version: Time)
    requires EditsAt(states, q, i, p, version)
    ensures Logged(states, i, p, version)
  {}

  lemma StaysLogged(states: seq<State>, q: Quotas, i: nat, m: nat, p: Id, version: Time)
    requires IsRun(states, q) && Logged(states, i, p, version) && i < m < |states|
    ensures var n := |states[i].log|;
            n < |states[i + 1].log| <= |states[m].log| && states[m].log[n].edit == Some((p, version))
  {
    LogGrows(states, q, i + 1, m);
  }

  lemma EditsAreDistinct(db: DB, log: seq<Entry>, nextId: Id, a: nat, b: nat)
    requires EditsOk(db, log, nextId) && a < |log| && b < |log|
    ensures log[a].edit.Some? && log[a].edit == log[b].edit ==> a == b
  {
    assert a < b && log[a].edit.Some? ==> log[a].edit != log[b].edit;
    assert b < a && log[b].edit.Some? ==> log[b].edit != log[a].edit;
  }

  lemma NoLaterEdit(states: seq<State>, q: Quotas, i: nat, j: nat, p: Id, version: Time)
    requires IsRun(states, q) && Logged(states, i, p, version) && Logged(states, j, p, version)
    ensures j <= i
  {
    var m := j + 1;
    if i < j {
      StaysLogged(states, q, i, j, p, version);
      StaysLogged(states, q, i, m, p, version);
      StaysLogged(states, q, j, m, p, version);
      InvAlways(states, q, m);
      EditsAreDistinct(states[m].db, states[m].log, states[m].nextId, |states[i].log|, |states[j].log|);
    }
  }

  /** Of all the updates sent with one version of a product that each change a field, at most
      one commits in the whole run. */
  lemma NoUpdateIsLost(states: seq<State>, q: Quotas, i: nat, j: nat, p: Id, version: Time)
    requires IsRun(states, q) && EditsAt(states, q, i, p, version) && EditsAt(states, q, j, p, version)
    ensures i == j
  {
    EditIsLogged(states, q, i, p, version);
    EditIsLogged(states, q, j, p, version);
    NoLaterEdit(states, q, i, j, p, version);
    NoLaterEdit(states, q, j, i, p, version);
  }

  // --- confirming an upload ---------------------------------------------------------

  ghost predicate Attached(states: seq<State>, i: nat, op: Op, image: ProductImage)
    requires i < |states| && op.ConfirmImage?
  {
    exists j | 0 <= j <= i :: HasWinner(states[j].db, op, image)
  }

  ghost predicate Answering(x: Client, op: Op, image: ProductImage) {
    x == Done(op, Image(image)) || (x.Cleaning? && x.op == op && x.next == Reply(Image(image)))
  }

  lemma CommitAttaches(s: State, s': State, q: Quotas, c: Id, op: Op, image: ProductImage)
    requires Inv(s, q) && Commits(s, s', q, c) && op.ConfirmImage? && Answering(s'.clients[c], op, image)
    ensures HasWinner(s'.db, op, image)
  {
    var x := s.clients[c];
    var row := x.base.products[op.p];
    var row' := WithImage(row, image).value;
    assert row'.images[|row.images|] == image;
    assert s'.db.products[op.p] == row';
  }

  /** What a transaction reads was the database at some moment. */
  lemma {:induction false} SnapshotsWereThere(states: seq<State>, q: Quotas, i: nat, c: Id)
    requires IsRun(states, q) && i < |states| && c in states[i].clients && states[i].clients[c].Running?
    ensures exists j | 0 <= j <= i :: states[j].db == states[i].clients[c].base
    decreases i
  {
    var j := i - 1;
    assert Steps(states[j], states[j + 1], q);
    OpensOrGoesOn(states[j], states[i], q, c);
    if states[i].clients[c].base != states[j].db {
      SnapshotsWereThere(states, q, j, c);
    }
  }

  /** The step that gives a confirm its image, or its snapshot, sees that image in the database. */
  lemma StepAnswersAttached(s: State, s': State, q: Quotas, c: Id, op: Op, image: ProductImage)
    requires Inv(s, q) && Steps(s, s', q) && op.ConfirmImage?
    requires c in s'.clients && Answering(s'.clients[c], op, image)
    ensures || (c in s.clients && Answering(s.clients[c], op, image))
            || (c in s.clients && s.clients[c].Running? && HasWinner(s.clients[c].base, op, image))
            || HasWinner(s.db, op, image) || HasWinner(s'.db, op, image)
  {
    if c in s.clients && s.clients[c] == s'.clients[c] {
    } else if Commits(s, s', q, c) {
      CommitAttaches(s, s', q, c, op, image);
    } else if Finishes(s, s', c) {
      assert s.clients[c].next.LookUp? ==> HasWinner(s.db, op, image);
    } else if a :| Answers(s, s', c, a) {
    } else if key :| DeletesFile(s, s', c, key) {
    } else {
      OtherStepsFinishNothing(s, s', q, c);
      OtherStepsAnswerNothing(s, s', q, c, image);
    }
  }

  lemma OtherStepsFinishNothing(s: State, s': State, q: Quotas, c: Id)
    requires Steps(s, s', q) && c in s'.clients && (c in s.clients ==> s.clients[c] != s'.clients[c])
    requires !Finishes(s, s', c) && !exists a :: Answers(s, s', c, a)
    ensures !s'.clients[c].Done?
  {}

  lemma OtherStepsAnswerNothing(s: State, s': State, q: Quotas, c: Id, image: ProductImage)
    requires Steps(s, s', q) && c in s'.clients && (c in s.clients ==> s.clients[c] != s'.clients[c])
    requires !Commits(s, s', q, c) && !Finishes(s, s', c) && !exists a :: Answers(s, s', c, a)
    requires !exists key :: DeletesFile(s, s', c, key)
    ensures !(s'.clients[c].Cleaning? && s'.clients[c].next == Reply(Image(image)))
  {}

  /** A confirm, whether it attached its own files or lost the race for the upload key, answers
      an image that was in the database with that upload key. */
  lemma {:induction false} ConfirmAnswersAnAttachedImage(states: seq<State>, q: Quotas, i: nat, c: Id,
                                                         op: Op, image: ProductImage)
    requires IsRun(states, q) && i < |states| && c in states[i].clients
    requires Answering(states[i].clients[c], op, image)
    ensures op.ConfirmImage? && image.uploadKey == Some(op.uploadKey)
    ensures Attached(states, i, op, image)
    decreases i
  {
    InvAlways(states, q, i);
    assert ClientOk(states[i], states[i].clients[c]);
    InvAlways(states, q, i - 1);
    assert Steps(states[i - 1], states[(i - 1) + 1], q);
    StepAnswersAttached(states[i - 1], states[i], q, c, op, image);
    if c in states[i - 1].clients && Answering(states[i - 1].clients[c], op, image) {
      ConfirmAnswersAnAttachedImage(states, q, i - 1, c, op, image);
    } else if c in states[i - 1].clients && states[i - 1].clients[c].Running? {
      SnapshotsWereThere(states, q, i - 1, c);
    }
  }

  // --- losing the race for an upload key --------------------------------------------

  /** Step `j` refuses the confirm of client `c` because its upload key is taken. */
  ghost predicate RefusedAt(states: seq<State>, j: nat, c: Id, op: Op, stored: seq<Key>) {
    && j + 1 < |states| && c in states[j].clients && c in states[j + 1].clients
    && states[j].clients[c].Running? && states[j].clients[c].stored == stored
    && states[j + 1].clients[c] == Cleaning(op, KeySet(stored), LookUp)
  }

  ghost predicate IsCleaning(s: State, c: Id) {
    c in s.clients && s.clients[c].Cleaning?
  }

  /** The same client is still at it at `i`: it has been cleaning up ever since. */
  ghost predicate StillAtIt(states: seq<State>, j: nat, i: nat, c: Id) {
    j < i < |states| && forall k: nat | j < k <= i :: IsCleaning(states[k], c)
  }

  /** Until it answers it is cleaning up, and what it deleted does not come back. */
  ghost predicate CleansUp(s: State, c: Id, op: Op, stored: seq<Key>) {
    && c in s.clients && s.clients[c].Cleaning? && s.clients[c].op == op && s.clients[c].next == LookUp
    && forall k <- stored :: k < s.nextKey && (k in s.clients[c].doomed || k !in s.bucket)
  }

  lemma CleaningGoesOn(s: State, s': State, q: Quotas, c: Id, op: Op, stored: seq<Key>)
    requires Steps(s, s', q) && CleansUp(s, c, op, stored) && IsCleaning(s', c)
    ensures CleansUp(s', c, op, stored)
  {
    BucketGrowsByNewKeys(s, s', q);
    OnlyItsOwnFiles(s, s', q, c);
  }

  lemma BucketGrowsByNewKeys(s: State, s': State, q: Quotas)
    requires Steps(s, s', q)
    ensures s.nextKey <= s'.nextKey && forall k <- s'.bucket :: k in s.bucket || s.nextKey <= k
  {}

  /** The only step that changes a cleaning client, short of its answer, deletes a file. */
  lemma OnlyItsOwnFiles(s: State, s': State, q: Quotas, c: Id)
    requires Steps(s, s', q) && c in s.clients && s.clients[c].Cleaning? && IsCleaning(s', c)
    ensures c in s'.clients
    ensures s'.clients[c] == s.clients[c] || exists k :: DeletesFile(s, s', c, k)
  {}

  lemma CleaningStarts(s: State, s': State, q: Quotas, c: Id, op: Op, stored: seq<Key>)
    requires Inv(s, q) && Steps(s, s', q) && c in s.clients && c in s'.clients
    requires InFlight(s.clients[c]) == KeySet(stored) && s'.clients[c] == Cleaning(op, KeySet(stored), LookUp)
    ensures CleansUp(s', c, op, stored)
  {
    BucketGrowsByNewKeys(s, s', q);
    forall k <- stored ensures k < s'.nextKey {
      assert k in Held(s.db, s.clients, OfClient(c));
    }
  }

  lemma CleaningStartsAt(states: seq<State>, q: Quotas, j: nat, i: nat, c: Id, op: Op, stored: seq<Key>)
    requires IsRun(states, q) && RefusedAt(states, j, c, op, stored) && i == j + 1
    ensures CleansUp(states[i], c, op, stored)
  {
    InvAlways(states, q, j);
    assert Steps(states[j], states[j + 1], q);
    CleaningStarts(states[j], states[j + 1], q, c, op, stored);
  }

  lemma CleaningGoesOnAt(states: seq<State>, q: Quotas, k: nat, i: nat, c: Id, op: Op, stored: seq<Key>)
    requires IsRun(states, q) && k + 1 == i < |states| && CleansUp(states[k], c, op, stored)
    requires IsCleaning(states[i], c)
    ensures CleansUp(states[i], c, op, stored)
  {
    assert Steps(states[k], states[k + 1], q);
    CleaningGoesOn(states[k], states[i], q, c, op, stored);
  }

  lemma {:induction false} CleansUpUntil(states: seq<State>, q: Quotas, j: nat, i: nat, c: Id, op: Op, stored: seq<Key>)
    requires IsRun(states, q) && RefusedAt(states, j, c, op, stored) && StillAtIt(states, j, i, c)
    ensures CleansUp(states[i], c, op, stored)
    decreases i
  {
    if i == j + 1 {
      CleaningStartsAt(states, q, j, i, c, op, stored);
    } else {
      var k := i - 1;
      CleansUpUntil(states, q, j, k, c, op, stored);
      CleaningGoesOnAt(states, q, k, i, c, op, stored);
    }
  }

  lemma UploadsDiffer(images: seq<ProductImage>, i: nat, j: nat)
    requires ImagesOk(images) && i < |images| && j < |images|
    ensures i < j && images[i].uploadKey.Some? ==> images[i].uploadKey != images[j].uploadKey
  {
    assert i < j ==> Apart(images[i], images[j]);
  }

  lemma WinnerIsUnique(db: DB, op: Op, a: ProductImage, b: ProductImage)
    requires op.ConfirmImage? && op.p in db.products && ImagesOk(db.products[op.p].images)
    requires HasWinner(db, op, a) && HasWinner(db, op, b)
    ensures a == b
  {
    var images := db.products[op.p].images;
    var i :| 0 <= i < |images| && images[i] == a;
    var j :| 0 <= j < |images| && images[j] == b;
    UploadsDiffer(images, i, j);
    UploadsDiffer(images, j, i);
  }

  /** A confirm refused because its upload key is taken ends with the one image of that upload,
      if and only if there is one when it looks, and with the refusal otherwise; either way none
      of the files it stored is left. */
  lemma LoserAnswersTheWinner(states: seq<State>, q: Quotas, j: nat, i: nat, c: Id, op: Op, stored: seq<Key>)
    requires IsRun(states, q) && RefusedAt(states, j, c, op, stored) && StillAtIt(states, j, i, c)
    requires i + 1 < |states| && Finishes(states[i], states[i + 1], c)
    ensures op.ConfirmImage? && c in states[i + 1].clients && states[i + 1].clients[c].Done?
    ensures var db, answer := states[i].db, states[i + 1].clients[c].answer;
            if exists image :: HasWinner(db, op, image)
            then answer.Image? && forall image :: HasWinner(db, op, image) <==> image == answer.image
            else answer == Error(DuplicateUpload)
    ensures forall k <- stored :: k !in states[i + 1].bucket
  {
    CleansUpUntil(states, q, j, i, c, op, stored);
    InvAlways(states, q, i);
    assert ClientOk(states[i], states[i].clients[c]);
    var db := states[i].db;
    if image :| HasWinner(db, op, image) {
      assert ProductOk(db.products[op.p], op.p, states[i].born, states[i].clock, states[i].nextId);
      var answer := states[i + 1].clients[c].answer;
      assert HasWinner(db, op, answer.image);
      forall other | HasWinner(db, op, other) ensures other == answer.image {
        WinnerIsUnique(db, op, other, answer.image);
      }
    }
  }
}
