/**
 * The cluster lock-row protocol of `obtainLock`: UPDATE the lock row; if a row was
 * updated the lock is held; if none was, INSERT the row; an SQL error ends the attempt,
 * and after two failed attempts the caller gets a `LockException`.
 *
 * The database is a scripted connection, like the mocks of the tests: the n-th UPDATE
 * (and, separately, the n-th INSERT) the protocol prepares gets the n-th scripted
 * outcome. A statement beyond its script gets `Unexpected`, a throwable that is not an
 * `SQLException` (the mocks' `AssertionError`), which the protocol does not catch.
 */
module LockSemaphore {

  datatype Statement = Update | Insert

  /** What executing one prepared statement gives: an affected-row count, an `SQLException`, or another throwable. */
  datatype Outcome = Rows(count: nat) | SqlError | Unexpected

  datatype Script = Script(updates: seq<Outcome>, inserts: seq<Outcome>)

  /** `true` returned, `LockException` thrown, or a non-SQL throwable passed through. */
  datatype LockResult = Acquired | LockException | Escaped

  /** How one attempt (`lockViaUpdate`, then `lockViaInsert` if needed) ends. */
  datatype AttemptEnd = Held | SqlFailed | Threw

  /** Attempts before giving up with a `LockException`. */
  const RetryCount: nat := 2

  /** The outcome the connection gives to the n-th statement of a kind. */
  function Answer(outcomes: seq<Outcome>, n: nat): Outcome {
    if n < |outcomes| then outcomes[n] else Unexpected
  }

  function Count(trace: seq<Statement>, s: Statement): (n: nat)
    ensures n <= |trace|
  {
    if trace == [] then 0 else (if trace[0] == s then 1 else 0) + Count(trace[1..], s)
  }

  lemma {:induction false} CountAppend(trace: seq<Statement>, more: seq<Statement>, s: Statement)
    ensures Count(trace + more, s) == Count(trace, s) + Count(more, s)
  {
    if trace == [] {
      assert trace + more == more;
    } else {
      assert (trace + more)[1..] == trace[1..] + more;
      CountAppend(trace[1..], more, s);
    }
  }

  /**
   * Attempt number `attempt` (which issues the `attempt`-th UPDATE), after `insertsBefore`
   * INSERTs: an UPDATE that touches a row holds the lock; one that touches none falls
   * through to an INSERT, which holds the lock when it adds exactly one row.
   */
  function Attempt(script: Script, attempt: nat, insertsBefore: nat): (AttemptEnd, seq<Statement>) {
    match Answer(script.updates, attempt)
    case Unexpected => (Threw, [Update])
    case SqlError => (SqlFailed, [Update])
    case Rows(n) =>
      if n >= 1 then (Held, [Update])
      else match Answer(script.inserts, insertsBefore)
        case Unexpected => (Threw, [Update, Insert])
        case SqlError => (SqlFailed, [Update, Insert])
        case Rows(m) => (if m == 1 then Held else SqlFailed, [Update, Insert])
  }

  /** The attempts from `attempt` on, after `insertsBefore` INSERTs and the statements in `trace`. */
  function AttemptsFrom(script: Script, attempt: nat, insertsBefore: nat, trace: seq<Statement>): (LockResult, seq<Statement>)
    decreases RetryCount - attempt
  {
    if attempt >= RetryCount then (LockException, trace)
    else
      var (end, issued) := Attempt(script, attempt, insertsBefore);
      var inserts := if issued == [Update, Insert] then insertsBefore + 1 else insertsBefore;
      match end
      case Held => (Acquired, trace + issued)
      case Threw => (Escaped, trace + issued)
      case SqlFailed => AttemptsFrom(script, attempt + 1, inserts, trace + issued)
  }

  /** The whole protocol: the result and the statements issued, in order. */
  function ObtainLockSpec(script: Script): (LockResult, seq<Statement>) {
    AttemptsFrom(script, 0, 0, [])
  }

  /** `obtainLock`: the bounded retry loop, issuing statements against the scripted connection. */
  method ObtainLock(script: Script) returns (result: LockResult, trace: seq<Statement>)
    ensures (result, trace) == ObtainLockSpec(script)
  {
    trace := [];
    var insertsIssued := 0;
    var attempt := 0;
    while attempt < RetryCount
      invariant attempt <= RetryCount
      invariant AttemptsFrom(script, attempt, insertsIssued, trace) == ObtainLockSpec(script)
    {
      ghost var before := trace;
      ghost var (end, issued) := Attempt(script, attempt, insertsIssued);
      // lockViaUpdate
      var updated := Answer(script.updates, attempt);
      trace := trace + [Update];
      if updated == Unexpected {
        assert (end, issued) == (Threw, [Update]);
        return Escaped, trace;
      } else if updated.Rows? && updated.count >= 1 {
        assert (end, issued) == (Held, [Update]);
        return Acquired, trace;
      } else if updated.Rows? {
        // lockViaInsert
        var inserted := Answer(script.inserts, insertsIssued);
        trace, insertsIssued := trace + [Insert], insertsIssued + 1;
        assert issued == [Update, Insert] && trace == before + issued;
        if inserted == Unexpected {
          assert end == Threw;
          return Escaped, trace;
        } else if inserted == Rows(1) {
          assert end == Held;
          return Acquired, trace;
        }
        assert end == SqlFailed;
      } else {
        assert (end, issued) == (SqlFailed, [Update]);
      }
      attempt := attempt + 1;
    }
    result := LockException;
  }

  /** An UPDATE touching a row on the first try holds the lock after that one statement. */
  lemma FirstUpdateAcquires(script: Script)
    requires Answer(script.updates, 0).Rows? && Answer(script.updates, 0).count >= 1
    ensures ObtainLockSpec(script) == (Acquired, [Update])
  {
    assert [] + [Update] == [Update];
  }

  /** An SQL error on the first UPDATE is retried; a second UPDATE touching a row holds the lock. */
  lemma UpdateErrorIsRetried(script: Script)
    requires Answer(script.updates, 0) == SqlError
    requires Answer(script.updates, 1).Rows? && Answer(script.updates, 1).count >= 1
    ensures ObtainLockSpec(script) == (Acquired, [Update, Update])
  {
    assert [] + [Update] == [Update];
    assert Attempt(script, 0, 0) == (SqlFailed, [Update]);
    assert Attempt(script, 1, 0) == (Held, [Update]);
    assert [Update] + [Update] == [Update, Update];
    assert AttemptsFrom(script, 1, 0, [Update]) == (Acquired, [Update, Update]);
  }

  /** Two SQL errors on UPDATE give a `LockException`, and nothing else is issued. */
  lemma TwoUpdateErrorsFail(script: Script)
    requires Answer(script.updates, 0) == SqlError && Answer(script.updates, 1) == SqlError
    ensures ObtainLockSpec(script) == (LockException, [Update, Update])
  {
    assert [] + [Update] == [Update];
    assert Attempt(script, 0, 0) == (SqlFailed, [Update]);
    assert Attempt(script, 1, 0) == (SqlFailed, [Update]);
    assert [Update] + [Update] == [Update, Update];
    assert AttemptsFrom(script, 1, 0, [Update]) == AttemptsFrom(script, 2, 0, [Update, Update]);
    assert AttemptsFrom(script, 2, 0, [Update, Update]) == (LockException, [Update, Update]);
  }

  /** An UPDATE touching no row goes straight to INSERT; an INSERT adding the row holds the lock. */
  lemma ZeroRowsFallsThroughToInsert(script: Script)
    requires Answer(script.updates, 0) == Rows(0) && Answer(script.inserts, 0) == Rows(1)
    ensures ObtainLockSpec(script) == (Acquired, [Update, Insert])
  {
    assert [] + [Update, Insert] == [Update, Insert];
  }

  /** Every INSERT in `trace` comes right after an UPDATE, and that UPDATE touched no row. */
  ghost predicate InsertsFollowEmptyUpdates(script: Script, trace: seq<Statement>) {
    forall i :: 0 <= i < |trace| && trace[i] == Insert ==>
      && 0 < i && trace[i - 1] == Update
      && Answer(script.updates, Count(trace[..i - 1], Update)) == Rows(0)
  }

  /** One more attempt issues one UPDATE, at most one INSERT, and an INSERT only after an empty UPDATE. */
  lemma {:induction false} AttemptExtends(script: Script, attempt: nat, inserts: nat, trace: seq<Statement>)
    requires InsertsFollowEmptyUpdates(script, trace) && Count(trace, Update) == attempt
    ensures var issued := Attempt(script, attempt, inserts).1;
      && InsertsFollowEmptyUpdates(script, trace + issued)
      && Count(trace + issued, Update) == attempt + 1
      && Count(trace + issued, Insert) <= Count(trace, Insert) + 1
      && |trace| < |trace + issued| && (trace + issued)[|trace|] == Update
  {
    var issued := Attempt(script, attempt, inserts).1;
    var next := trace + issued;
    CountAppend(trace, issued, Update);
    CountAppend(trace, issued, Insert);
    assert Count([Update], Update) == 1 && Count([Update], Insert) == 0;
    assert Count([Update, Insert], Update) == 1 && Count([Update, Insert], Insert) == 1;
    forall i | 0 <= i < |next| && next[i] == Insert
      ensures 0 < i && next[i - 1] == Update
      ensures Answer(script.updates, Count(next[..i - 1], Update)) == Rows(0)
    {
      if i < |trace| {
        assert next[..i - 1] == trace[..i - 1];
      } else {
        assert issued == [Update, Insert] && i == |trace| + 1;
        assert next[..i - 1] == trace;
      }
    }
  }

  /** What the remaining attempts add to a trace of `attempt` earlier attempts. */
  lemma {:induction false} AttemptsFromBounds(script: Script, attempt: nat, inserts: nat, trace: seq<Statement>)
    requires attempt <= RetryCount
    requires Count(trace, Update) == attempt && Count(trace, Insert) <= attempt
    requires InsertsFollowEmptyUpdates(script, trace)
    requires trace == [] || trace[0] == Update
    ensures var (result, final) := AttemptsFrom(script, attempt, inserts, trace);
      && (final == [] || final[0] == Update)
      && (attempt < RetryCount ==> final != [])
      && Count(final, Update) <= RetryCount
      && Count(final, Insert) <= Count(final, Update)
      && InsertsFollowEmptyUpdates(script, final)
      && (result == LockException ==> Count(final, Update) == RetryCount)
    decreases RetryCount - attempt
  {
    if attempt < RetryCount {
      var (end, issued) := Attempt(script, attempt, inserts);
      var next := if issued == [Update, Insert] then inserts + 1 else inserts;
      AttemptExtends(script, attempt, inserts, trace);
      assert (trace + issued)[0] == Update;
      if end == SqlFailed {
        assert AttemptsFrom(script, attempt, inserts, trace) == AttemptsFrom(script, attempt + 1, next, trace + issued);
        AttemptsFromBounds(script, attempt + 1, next, trace + issued);
      }
    }
  }

  /**
   * For every connection: the first statement is an UPDATE, at most `RetryCount`
   * UPDATEs and no more INSERTs than UPDATEs are issued, an INSERT comes only right
   * after an UPDATE that touched no row (never right after a failed one), and a
   * `LockException` comes only after `RetryCount` attempts.
   */
  lemma StatementBounds(script: Script)
    ensures var (result, trace) := ObtainLockSpec(script);
      && 0 < |trace| && trace[0] == Update
      && Count(trace, Update) <= RetryCount
      && Count(trace, Insert) <= Count(trace, Update)
      && InsertsFollowEmptyUpdates(script, trace)
      && (result == LockException ==> Count(trace, Update) == RetryCount)
  {
    AttemptsFromBounds(script, 0, 0, []);
  }

  /** The four scenarios of the semaphore's tests, each with exactly the statements the mocks allow. */
  lemma TestedScenarios()
    ensures ObtainLockSpec(Script([Rows(1)], [])) == (Acquired, [Update])
    ensures ObtainLockSpec(Script([SqlError, Rows(1)], [])) == (Acquired, [Update, Update])
    ensures ObtainLockSpec(Script([SqlError, SqlError], [])) == (LockException, [Update, Update])
    ensures ObtainLockSpec(Script([Rows(0)], [Rows(1)])) == (Acquired, [Update, Insert])
  {
    FirstUpdateAcquires(Script([Rows(1)], []));
    UpdateErrorIsRetried(Script([SqlError, Rows(1)], []));
    TwoUpdateErrorsFail(Script([SqlError, SqlError], []));
    ZeroRowsFallsThroughToInsert(Script([Rows(0)], [Rows(1)]));
  }
}
