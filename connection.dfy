/** Opening a database connection with bounded retry (CookiePool.__get_conn).
    The driver is outside the model: the k-th connection attempt's outcome is
    `connect(k)`, so a caller hands in the whole sequence of outcomes. */
module Connection {
  import opened Common

  /** n_error_tmc: how many times a "Too many connections" refusal is retried. */
  const RetryBudget: nat := 100

  const TooManyConnections: string := "Too many connections"

  /** One attempt: a connection handle, or a refusal with the driver's message. */
  datatype Outcome = Connected(handle: nat) | Refused(message: string)

  /** Python's `p in s` on strings. */
  function Contains(s: string, p: string): bool
    decreases |s|
  {
    p <= s || (s != [] && Contains(s[1..], p))
  }

  /** A refusal that __get_conn retries. */
  predicate Retryable(o: Outcome) {
    o.Refused? && Contains(o.message, TooManyConnections)
  }

  /** The outcome of __get_conn and how many attempts it made. */
  datatype Attempts = Attempts(result: Result<nat, Error>, calls: nat)

  /** The attempts from the i-th on, with `left` retries still allowed. */
  function ConnectFrom(connect: nat -> Outcome, i: nat, left: nat): (a: Attempts)
    ensures i < a.calls <= i + left + 1
    ensures forall k :: i <= k < a.calls - 1 ==> Retryable(connect(k))
    ensures a.result.Ok? <==> connect(a.calls - 1).Connected?
    ensures a.result.Ok? ==> a.result.value == connect(a.calls - 1).handle
    ensures a.result.Err? ==> a.result.error == ConnectFailed(connect(a.calls - 1).message)
    ensures a.result.Err? ==> !Retryable(connect(a.calls - 1)) || a.calls == i + left + 1
    decreases left
  {
    match connect(i)
    case Connected(h) => Attempts(Ok(h), i + 1)
    case Refused(m) =>
      if Contains(m, TooManyConnections) && left > 0 then ConnectFrom(connect, i + 1, left - 1)
      else Attempts(Err(ConnectFailed(m)), i + 1)
  }

  /** __get_conn's behaviour with a retry budget of `budget`: between one
      and budget + 1 attempts, and success iff the last one connected. */
  function Connect(connect: nat -> Outcome, budget: nat): (a: Attempts)
    ensures 1 <= a.calls <= budget + 1
    ensures forall k :: 0 <= k < a.calls - 1 ==> Retryable(connect(k))
    ensures a.result.Ok? <==> connect(a.calls - 1).Connected?
  {
    ConnectFrom(connect, 0, budget)
  }

  /** When every attempt the budget allows is refused with "Too many
      connections", all budget + 1 attempts are made and the call fails. */
  lemma ExhaustedBudgetFails(connect: nat -> Outcome, budget: nat)
    requires forall k :: 0 <= k <= budget ==> Retryable(connect(k))
    ensures Connect(connect, budget).result.Err?
    ensures Connect(connect, budget).calls == budget + 1
  {
  }

  /** CookiePool.__get_conn: try to connect; retry a "Too many connections"
      refusal while the budget lasts; give up on any other refusal. */
  method GetConn(connect: nat -> Outcome, budget: nat) returns (r: Result<nat, Error>, calls: nat)
    ensures Attempts(r, calls) == Connect(connect, budget)
  {
    var flag := budget;
    calls := 0;
    while true
      invariant calls + flag == budget
      invariant ConnectFrom(connect, calls, flag) == Connect(connect, budget)
      decreases flag
    {
      var outcome := connect(calls);
      calls := calls + 1;
      match outcome {
        case Connected(h) =>
          return Ok(h), calls;
        case Refused(m) =>
          if Contains(m, TooManyConnections) && flag > 0 {
            flag := flag - 1;
          } else {
            return Err(ConnectFailed(m)), calls;
          }
      }
    }
  }
}
