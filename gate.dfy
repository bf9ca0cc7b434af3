/** The arithmetic of the pool's readers-writer gate: the writer counter
    `_writers`, what each acquisition and release does to it, and when a
    caller would have to wait. Blocking itself is not modelled; "must wait"
    is a predicate on the counter. */
module Gate {

  /** __acquire_write: the counter after its increment. */
  function Acquired(writers: int): int {
    writers + 1
  }

  /** __release_write: decrement, clamped at zero. */
  function Released(writers: int): (w: int)
    ensures w >= 0
    ensures w == 0 <==> writers <= 1
    ensures writers >= 1 ==> w == writers - 1
  {
    if writers - 1 < 0 then 0 else writers - 1
  }

  /** A writer waits when the counter it has just incremented exceeds one. */
  predicate WriterMustWait(acquired: int) {
    acquired > 1
  }

  /** A reader waits while any writer is counted. */
  predicate ReaderMustWait(writers: int) {
    writers > 0
  }

  /** Release wakes every waiting reader exactly when the counter reaches zero. */
  predicate WakesReaders(released: int) {
    released == 0
  }

  datatype Event = AcquireWrite | ReleaseWrite

  /** The counter after a sequence of gate events. */
  function Run(writers: int, events: seq<Event>): int
    decreases |events|
  {
    if events == [] then writers
    else
      var next := match events[0]
        case AcquireWrite => Acquired(writers)
        case ReleaseWrite => Released(writers);
      Run(next, events[1..])
  }

  /** Starting from a non-negative count, no sequence of acquisitions and
      releases drives the counter below zero. */
  lemma {:induction false} RunNonNegative(writers: int, events: seq<Event>)
    requires writers >= 0
    ensures Run(writers, events) >= 0
    decreases |events|
  {
    if events != [] {
      var next := match events[0]
        case AcquireWrite => Acquired(writers)
        case ReleaseWrite => Released(writers);
      RunNonNegative(next, events[1..]);
    }
  }

  /** n writers that each acquire and then release, one after another. */
  function Balanced(n: nat): seq<Event> {
    if n == 0 then [] else [AcquireWrite, ReleaseWrite] + Balanced(n - 1)
  }

  /** A balanced run leaves a non-negative counter where it found it. */
  lemma {:induction false} BalancedRestores(writers: int, n: nat)
    requires writers >= 0
    ensures Run(writers, Balanced(n)) == writers
  {
    if n > 0 {
      var events := Balanced(n);
      assert events[1..][1..] == Balanced(n - 1);
      assert Run(writers, events) == Run(Released(Acquired(writers)), Balanced(n - 1));
      BalancedRestores(writers, n - 1);
    }
  }

  /** n writers that each acquire and never get to release. */
  function Acquisitions(n: nat): seq<Event> {
    if n == 0 then [] else [AcquireWrite] + Acquisitions(n - 1)
  }

  /** A single increment that is never released (what clear_all_overtime
      leaves behind when it cannot connect) is never undone: every later
      writer finds the counter above zero, waits, and so never reaches its
      release, while readers never release at all. After any number of such
      writers, readers and the next writer must still wait. */
  lemma {:induction false} LeakedWriterBlocksEveryone(n: nat)
    ensures Run(1, Acquisitions(n)) == 1 + n
    ensures ReaderMustWait(Run(1, Acquisitions(n)))
    ensures WriterMustWait(Acquired(Run(1, Acquisitions(n))))
  {
    LeakedCount(1, n);
  }

  /** Acquisitions alone raise the counter by one each. */
  lemma {:induction false} LeakedCount(writers: int, n: nat)
    ensures Run(writers, Acquisitions(n)) == writers + n
    decreases n
  {
    if n > 0 {
      assert Acquisitions(n)[1..] == Acquisitions(n - 1);
      LeakedCount(writers + 1, n - 1);
    }
  }

  /** From an idle gate the first writer proceeds; a second writer arriving
      before the first releases must wait, whatever the counter was. */
  lemma WritersExclude(writers: int)
    requires writers >= 0
    ensures !WriterMustWait(Acquired(0))
    ensures WriterMustWait(Acquired(Acquired(writers)))
  {
  }
}
