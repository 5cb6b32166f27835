/**
  The client's connection set-up, `establish_socket_connection`
  (claves/claves.c:48-99): create a socket, read the server's address from
  the environment, then try to connect, sleeping 1, 2, 4, ... seconds between
  failed attempts and giving up with -2 once the retry budget is spent.

  The operating system is replaced by its answers: whether `socket()` and the
  environment lookup succeed, and the outcome of each `connect()` attempt in
  order. The sleeps and the log lines the loop would produce are returned so
  that the schedule can be stated.
 */
module Connect {

  /** The errno values the loop distinguishes in its log. */
  datatype Errno = ConnectionRefused | Again | OtherError

  /** The outcome of one `connect()` call. */
  datatype Attempt = Connected | Failed(errno: Errno)

  /** The line the loop logs for each failed attempt, and once when it gives up. */
  datatype Notice = ServerNotRunning | QueueFull | ConnectError | NotAvailable

  /**
    What one run of the connection set-up did: its return value, the sleeps
    (in seconds) in the order taken, how many `connect()` calls were made and
    what was logged.
   */
  datatype Connection = Connection(code: int, sleeps: seq<nat>, attempts: nat, notices: seq<Notice>)

  function Pow2(k: nat): (p: nat)
    ensures p >= 1
  {
    if k == 0 then 1 else 2 * Pow2(k - 1)
  }

  /** The log line chosen by errno (claves/claves.c:83-92). */
  function NoticeFor(e: Errno): Notice
  {
    match e
    case ConnectionRefused => ServerNotRunning
    case Again => QueueFull
    case OtherError => ConnectError
  }

  /** The sleeps of the first `k` retries: 1, 2, 4, ..., 2^(k-1) seconds. */
  function Backoff(k: nat): (s: seq<nat>)
    ensures |s| == k
    ensures forall i :: 0 <= i < k ==> s[i] == Pow2(i)
  {
    seq(k, i requires 0 <= i => Pow2(i))
  }

  /** Enough connect outcomes for the loop: it never makes more than maxRetries + 2 calls. */
  predicate EnoughAttempts(attempts: seq<Attempt>, maxRetries: nat) {
    maxRetries + 2 <= |attempts|
  }

  /**
    The connect loop from the attempt made with `retries` failures behind it
    (claves/claves.c:71-96). Attempt number `retries` is `attempts[retries]`.
   */
  function RetryFrom(attempts: seq<Attempt>, maxRetries: nat, retries: nat): (c: Connection)
    requires EnoughAttempts(attempts, maxRetries)
    requires retries <= maxRetries + 1
    ensures c.code == 0 || c.code == -2
    ensures retries < c.attempts <= maxRetries + 2
    decreases maxRetries + 1 - retries
  {
    if attempts[retries].Connected? then
      Connection(0, [], retries + 1, [])
    else if retries > maxRetries then
      Connection(-2, [], retries + 1, [NotAvailable])
    else
      var rest := RetryFrom(attempts, maxRetries, retries + 1);
      Connection(rest.code, [Pow2(retries)] + rest.sleeps, rest.attempts,
                 [NoticeFor(attempts[retries].errno)] + rest.notices)
  }

  /**
    `establish_socket_connection`: -1 when the socket cannot be created or the
    environment does not name the server, otherwise the connect loop.
   */
  function Establish(socketOk: bool, envOk: bool, attempts: seq<Attempt>, maxRetries: nat): (c: Connection)
    requires socketOk && envOk ==> EnoughAttempts(attempts, maxRetries)
    ensures c.code == 0 || c.code == -1 || c.code == -2
    ensures c.code == -1 <==> !socketOk || !envOk
    ensures c.code == -1 ==> c.attempts == 0 && c.sleeps == []
  {
    if !socketOk || !envOk then Connection(-1, [], 0, [])
    else RetryFrom(attempts, maxRetries, 0)
  }

  /**
    The loop as the source runs it: one `connect()` per iteration, a log line
    and a doubling sleep after each failure, -2 once `retries` exceeds the
    budget.
   */
  method EstablishSocketConnection(socketOk: bool, envOk: bool, attempts: seq<Attempt>, maxRetries: nat)
    returns (c: Connection)
    requires socketOk && envOk ==> EnoughAttempts(attempts, maxRetries)
    ensures c == Establish(socketOk, envOk, attempts, maxRetries)
  {
    if !socketOk {
      return Connection(-1, [], 0, []);
    }
    if !envOk {
      return Connection(-1, [], 0, []);
    }
    var retries: nat := 0;
    var sleeps: seq<nat> := [];
    var notices: seq<Notice> := [];
    while attempts[retries].Failed?
      invariant retries <= maxRetries + 1
      invariant Establish(socketOk, envOk, attempts, maxRetries) ==
        var rest := RetryFrom(attempts, maxRetries, retries);
        Connection(rest.code, sleeps + rest.sleeps, rest.attempts, notices + rest.notices)
      decreases maxRetries + 1 - retries
    {
      if retries > maxRetries {
        return Connection(-2, sleeps, retries + 1, notices + [NotAvailable]);
      }
      ghost var rest := RetryFrom(attempts, maxRetries, retries + 1);
      assert RetryFrom(attempts, maxRetries, retries) == Connection(rest.code, [Pow2(retries)] + rest.sleeps,
        rest.attempts, [NoticeFor(attempts[retries].errno)] + rest.notices);
      notices := notices + [NoticeFor(attempts[retries].errno)];
      sleeps := sleeps + [Pow2(retries)];
      retries := retries + 1;
    }
    c := Connection(0, sleeps, retries + 1, notices);
  }

  // ---------------------------------------------------------------------------
  // The retry schedule
  // ---------------------------------------------------------------------------

  /** From attempt r, with attempts r..k-1 failing and attempt k connecting. */
  lemma {:induction false} RetryFromSucceeds(attempts: seq<Attempt>, maxRetries: nat, r: nat, k: nat)
    requires EnoughAttempts(attempts, maxRetries)
    requires r <= k <= maxRetries + 1
    requires forall j :: r <= j < k ==> attempts[j].Failed?
    requires attempts[k].Connected?
    ensures RetryFrom(attempts, maxRetries, r).code == 0
    ensures RetryFrom(attempts, maxRetries, r).attempts == k + 1
    ensures RetryFrom(attempts, maxRetries, r).sleeps == seq(k - r, i requires 0 <= i => Pow2(r + i))
    decreases k - r
  {
    if r < k {
      RetryFromSucceeds(attempts, maxRetries, r + 1, k);
      var tail := RetryFrom(attempts, maxRetries, r + 1).sleeps;
      assert [Pow2(r)] + tail == seq(k - r, i requires 0 <= i => Pow2(r + i));
    }
  }

  /**
    After k <= maxRetries + 1 failed attempts and then a successful one, the
    set-up returns 0 having slept 1, 2, ..., 2^(k-1) seconds and made k + 1
    connect calls.
   */
  lemma SucceedsAfterFailures(attempts: seq<Attempt>, maxRetries: nat, k: nat)
    requires EnoughAttempts(attempts, maxRetries)
    requires k <= maxRetries + 1
    requires forall j :: 0 <= j < k ==> attempts[j].Failed?
    requires attempts[k].Connected?
    ensures Establish(true, true, attempts, maxRetries).code == 0
    ensures Establish(true, true, attempts, maxRetries).sleeps == Backoff(k)
    ensures Establish(true, true, attempts, maxRetries).attempts == k + 1
  {
    RetryFromSucceeds(attempts, maxRetries, 0, k);
    assert seq(k - 0, i requires 0 <= i => Pow2(0 + i)) == Backoff(k);
  }

  /** From attempt r, with every attempt up to the last one allowed failing. */
  lemma {:induction false} RetryFromGivesUp(attempts: seq<Attempt>, maxRetries: nat, r: nat)
    requires EnoughAttempts(attempts, maxRetries)
    requires r <= maxRetries + 1
    requires forall j :: r <= j < maxRetries + 2 ==> attempts[j].Failed?
    ensures RetryFrom(attempts, maxRetries, r).code == -2
    ensures RetryFrom(attempts, maxRetries, r).attempts == maxRetries + 2
    ensures RetryFrom(attempts, maxRetries, r).sleeps == seq(maxRetries + 1 - r, i requires 0 <= i => Pow2(r + i))
    decreases maxRetries + 1 - r
  {
    if r <= maxRetries {
      RetryFromGivesUp(attempts, maxRetries, r + 1);
      var tail := RetryFrom(attempts, maxRetries, r + 1).sleeps;
      assert [Pow2(r)] + tail == seq(maxRetries + 1 - r, i requires 0 <= i => Pow2(r + i));
    }
  }

  /**
    When the first maxRetries + 2 attempts all fail, the set-up gives up with
    -2 on that last failure, after sleeping 1, 2, ..., 2^maxRetries seconds.
   */
  lemma GivesUpAfterBudget(attempts: seq<Attempt>, maxRetries: nat)
    requires EnoughAttempts(attempts, maxRetries)
    requires forall j :: 0 <= j < maxRetries + 2 ==> attempts[j].Failed?
    ensures Establish(true, true, attempts, maxRetries).code == -2
    ensures Establish(true, true, attempts, maxRetries).sleeps == Backoff(maxRetries + 1)
    ensures Establish(true, true, attempts, maxRetries).attempts == maxRetries + 2
  {
    RetryFromGivesUp(attempts, maxRetries, 0);
    assert seq(maxRetries + 1 - 0, i requires 0 <= i => Pow2(0 + i)) == Backoff(maxRetries + 1);
  }

  /** Two runs whose connect calls succeed and fail at the same places. */
  predicate SameOutcomes(a: seq<Attempt>, b: seq<Attempt>) {
    |a| == |b| && forall i :: 0 <= i < |a| ==> a[i].Connected? == b[i].Connected?
  }

  /**
    errno only selects the log line: runs whose attempts succeed and fail at
    the same places return the same code after the same sleeps and the same
    number of connect calls.
   */
  lemma {:induction false} ErrnoOnlyChangesTheLog(a: seq<Attempt>, b: seq<Attempt>, maxRetries: nat, r: nat)
    requires EnoughAttempts(a, maxRetries) && SameOutcomes(a, b)
    requires r <= maxRetries + 1
    ensures RetryFrom(a, maxRetries, r).code == RetryFrom(b, maxRetries, r).code
    ensures RetryFrom(a, maxRetries, r).sleeps == RetryFrom(b, maxRetries, r).sleeps
    ensures RetryFrom(a, maxRetries, r).attempts == RetryFrom(b, maxRetries, r).attempts
    decreases maxRetries + 1 - r
  {
    if a[r].Failed? && r <= maxRetries {
      ErrnoOnlyChangesTheLog(a, b, maxRetries, r + 1);
    }
  }

  function SumOf(s: seq<nat>): nat
  {
    if s == [] then 0 else SumOf(s[..|s| - 1]) + s[|s| - 1]
  }

  /** The k backoff sleeps add up to 2^k - 1 seconds. */
  lemma {:induction false} BackoffTotal(k: nat)
    ensures SumOf(Backoff(k)) == Pow2(k) - 1
  {
    if k > 0 {
      assert Backoff(k)[..k - 1] == Backoff(k - 1);
      BackoffTotal(k - 1);
    }
  }
}
