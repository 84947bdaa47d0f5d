/** The retry loop of the unit of work (app/infrastructure/db/unit_of_work.py).

    Other requests commit before, during and between the attempts, and the database decides how
    each attempt ends; both are parameters, so the claims hold whatever they are. */
module Transactions {
  import opened Wrappers
  import opened Catalog

  /** How running the work or committing it can fail. */
  datatype Raised<E> =
    | SerializationFailure  // SQLSTATE 40001
    | IntegrityError
    | Duplicate  // a flush inside the work already named the integrity error
    | DatabaseError(state: nat)
    | OtherError(error: E)

  /** What the caller of `transaction` sees instead. */
  datatype Failed<E> =
    | ConcurrencyConflictError
    | DuplicateError
    | Database(state: nat)
    | Passed(error: E)

  /** One run of the work on a snapshot, in the n-th attempt: the rows it leaves in the session,
      finished or half-way, and its result or what it raised. */
  type Work<!T, R, E> = (nat, T) -> (T, Result<R, Raised<E>>)

  /** How a commit brings the rows of a session, read from a snapshot, into the latest database. */
  type Install<!T> = (T, T, T) -> T

  /** One attempt: the database its snapshot was taken of, the latest database when it ends, and
      what its commit raises, if anything. */
  datatype Attempt<T, E> = Attempt(snapshot: T, latest: T, refusal: Option<Raised<E>>)

  /** What an attempt ends in: a result, or a reason to roll it back. */
  function Ending<T, R, E>(work: Work<T, R, E>, attempts: seq<Attempt<T, E>>, n: nat): Result<R, Raised<E>>
    requires 1 <= n <= |attempts|
  {
    var a := attempts[n - 1];
    var ran := work(n, a.snapshot).1;
    if ran.Success? && a.refusal.Some? then Failure(a.refusal.value) else ran
  }

  predicate LosesRace<T, R, E>(work: Work<T, R, E>, attempts: seq<Attempt<T, E>>, n: nat)
    requires 1 <= n <= |attempts|
  {
    Ending(work, attempts, n) == Failure(SerializationFailure)
  }

  function Reported<E>(raised: Raised<E>): Failed<E> {
    match raised
    case SerializationFailure => ConcurrencyConflictError
    case IntegrityError => DuplicateError
    case Duplicate => DuplicateError
    case DatabaseError(state) => Database(state)
    case OtherError(error) => Passed(error)
  }

  /** A session: the database it talks to, the rows as its open transaction first saw them, and
      as the transaction has changed them. */
  class Session<T> {
    var database: T
    var snapshot: T
    var pending: T

    constructor (database: T)
      ensures this.database == database && pending == database
    {
      this.database, snapshot, pending := database, database, database;
    }

    method Begin(latest: T)
      modifies this
      ensures database == latest && snapshot == latest && pending == latest
    {
      database, snapshot, pending := latest, latest, latest;
    }

    /** Whatever the work left in the session is dropped. */
    method Rollback()
      modifies this
      ensures database == old(database) && pending == database
    {
      pending := database;
    }

    method Commit<E>(refusal: Option<Raised<E>>, install: Install<T>) returns (r: Option<Raised<E>>)
      modifies this
      ensures r == refusal
      ensures if refusal.None? then
                database == install(old(snapshot), old(pending), old(database)) && pending == database
              else
                database == old(database)
    {
      if refusal.None? {
        database := install(snapshot, pending, database);
        pending := database;
      }
      r := refusal;
    }

    /** `transaction`. The last attempt is the `runs`-th; every earlier one lost a race and was
        rolled back. */
    method Transaction<R, E>(work: Work<T, R, E>, install: Install<T>, attempts: seq<Attempt<T, E>>)
      returns (r: Result<R, Failed<E>>, runs: nat)
      requires |attempts| == ATTEMPTS
      modifies this
      ensures Decided(work, install, attempts, r, runs, database) && pending == database
    {
      for n := 1 to ATTEMPTS + 1
        invariant forall k | 1 <= k < n :: LosesRace(work, attempts, k)
        invariant n <= ATTEMPTS
      {
        Begin(attempts[n - 1].snapshot);
        var ran := work(n, pending);
        pending := ran.0;
        // Others committed while the work ran.
        database := attempts[n - 1].latest;
        var raised: Raised<E>;
        if ran.1.Success? {
          var refused := Commit(attempts[n - 1].refusal, install);
          if refused.None? {
            return Success(ran.1.value), n;
          }
          raised := refused.value;
        } else {
          raised := ran.1.error;
        }
        Rollback();
        match raised
        case IntegrityError => return Failure(DuplicateError), n;
        case Duplicate => return Failure(DuplicateError), n;
        case DatabaseError(state) => return Failure(Database(state)), n;
        case OtherError(error) => return Failure(Passed(error)), n;
        case SerializationFailure =>
          if n == ATTEMPTS {
            return Failure(ConcurrencyConflictError), n;
          }
      }
      assert false;
    }
  }

  /** The outcome of a transaction and the database it leaves, decided by its last attempt. */
  ghost predicate Decided<T, R, E>(work: Work<T, R, E>, install: Install<T>, attempts: seq<Attempt<T, E>>,
                                   r: Result<R, Failed<E>>, runs: nat, database: T)
    requires |attempts| == ATTEMPTS
  {
    && 1 <= runs <= ATTEMPTS
    && (forall k | 1 <= k < runs :: LosesRace(work, attempts, k))
    && (LosesRace(work, attempts, runs) ==> runs == ATTEMPTS)
    && var a := attempts[runs - 1];
       match Ending(work, attempts, runs)
       case Success(value) => r == Success(value) && database == install(a.snapshot, work(runs, a.snapshot).0, a.latest)
       case Failure(raised) => r == Failure(Reported(raised)) && database == a.latest
  }

  // --- what a caller may conclude ---------------------------------------------------

  /** What validation promises of a commit it lets through: run on the latest database instead
      of its snapshot, the work would give the same result, and leave what the commit installs. */
  ghost predicate Validated<T, R, E>(work: Work<T, R, E>, install: Install<T>, attempts: seq<Attempt<T, E>>, n: nat)
    requires 1 <= n <= |attempts|
  {
    var a := attempts[n - 1];
    var ran := work(n, a.snapshot);
    ran.1.Success? && a.refusal.None? ==> work(n, a.latest) == (install(a.snapshot, ran.0, a.latest), ran.1)
  }

  /** Under validation a transaction is one atomic step: it leaves what exactly one run of the
      work makes of the latest database, with its result, or the latest database as it is. */
  lemma TransactionIsOneStep<T, R, E>(work: Work<T, R, E>, install: Install<T>, attempts: seq<Attempt<T, E>>,
                                      r: Result<R, Failed<E>>, runs: nat, database: T)
    requires |attempts| == ATTEMPTS && Decided(work, install, attempts, r, runs, database)
    requires forall n | 1 <= n <= ATTEMPTS :: Validated(work, install, attempts, n)
    ensures var latest := attempts[runs - 1].latest;
            if r.Success? then work(runs, latest) == (database, Success(r.value)) else database == latest
  {
    assert Validated(work, install, attempts, runs);
  }

  /** Giving up takes exactly three lost races, and nothing but three lost races gives up. */
  lemma GivesUpExactlyAfterThree<T, R, E>(work: Work<T, R, E>, install: Install<T>, attempts: seq<Attempt<T, E>>,
                                          r: Result<R, Failed<E>>, runs: nat, database: T)
    requires |attempts| == ATTEMPTS && Decided(work, install, attempts, r, runs, database)
    ensures r == Failure(ConcurrencyConflictError) <==> forall k | 1 <= k <= ATTEMPTS :: LosesRace(work, attempts, k)
    ensures r == Failure(ConcurrencyConflictError) ==> runs == 3
  {
    if forall k | 1 <= k <= ATTEMPTS :: LosesRace(work, attempts, k) {
      assert LosesRace(work, attempts, runs);
    }
  }

  /** Any two accounts of the same attempts agree: the loop decides everything. */
  lemma DecidedIsUnique<T, R, E>(work: Work<T, R, E>, install: Install<T>, attempts: seq<Attempt<T, E>>,
                                 r: Result<R, Failed<E>>, runs: nat, database: T,
                                 r': Result<R, Failed<E>>, runs': nat, database': T)
    requires |attempts| == ATTEMPTS
    requires Decided(work, install, attempts, r, runs, database)
    requires Decided(work, install, attempts, r', runs', database')
    ensures r == r' && runs == runs' && database == database'
  {}

  /** Attempt `n` runs into a serialization failure, in its work or at its commit. */
  ghost predicate Fails40001<T, R, E>(work: Work<T, R, E>, attempts: seq<Attempt<T, E>>, n: nat)
    requires 1 <= n <= |attempts|
  {
    var raised := work(n, attempts[n - 1].snapshot).1;
    || raised == Failure(SerializationFailure)
    || (raised.Success? && attempts[n - 1].refusal == Some(SerializationFailure))
  }

  /** Only serialization failures are tried again. An integrity error, wherever it is raised, is
      reported as a duplicate; any other error is passed on as it is. */
  lemma FailuresAreReported<T, R, E>(work: Work<T, R, E>, install: Install<T>, attempts: seq<Attempt<T, E>>,
                                     r: Result<R, Failed<E>>, runs: nat, database: T)
    requires |attempts| == ATTEMPTS && Decided(work, install, attempts, r, runs, database)
    ensures runs <= 3 && forall k | 1 <= k < runs :: Fails40001(work, attempts, k)
    ensures var a := attempts[runs - 1];
            var ran := work(runs, a.snapshot).1;
            var raised := if ran.Success? then a.refusal else Some(ran.error);
            match raised
            case None => ran.Success? && r == Success(ran.value)
            case Some(SerializationFailure) => runs == 3 && r == Failure(ConcurrencyConflictError) && database == a.latest
            case Some(IntegrityError) => r == Failure(DuplicateError) && database == a.latest
            case Some(Duplicate) => r == Failure(DuplicateError) && database == a.latest
            case Some(DatabaseError(state)) => r == Failure(Database(state)) && database == a.latest
            case Some(OtherError(error)) => r == Failure(Passed(error)) && database == a.latest
  {
    forall k | 1 <= k < runs ensures Fails40001(work, attempts, k) {
      assert LosesRace(work, attempts, k);
    }
  }
}
