/** RetryAnalyzer: a counter held by one analyzer instance that allows two
    retries and then refuses. The counter is not keyed by test case: one
    instance keeps counting across every result it is asked about. */
module Retry {

  const MaxRetryCount := 2

  /** The test result TestNG hands to `retry`; the decision never looks at it. */
  datatype TestResult = TestResult(name: string, status: int)

  /** The decisions `n` consecutive calls return, starting from counter `count`. */
  function Decisions(count: int, n: nat): seq<bool>
    decreases n
  {
    if n == 0 then []
    else if count < MaxRetryCount then [true] + Decisions(count + 1, n - 1)
    else [false] + Decisions(count, n - 1)
  }

  /** From a fresh counter, the first two calls retry and every later call
      refuses. */
  lemma {:induction false} DecisionsFromZero(n: nat)
    ensures |Decisions(0, n)| == n
    ensures forall i :: 0 <= i < n ==> Decisions(0, n)[i] == (i < MaxRetryCount)
  {
    if n > 0 {
      DecisionsFrom(1, n - 1);
    }
  }

  lemma {:induction false} DecisionsFrom(count: int, n: nat)
    requires 0 <= count <= MaxRetryCount
    ensures |Decisions(count, n)| == n
    ensures forall i :: 0 <= i < n ==> Decisions(count, n)[i] == (count + i < MaxRetryCount)
    decreases n
  {
    if n > 0 {
      if count < MaxRetryCount {
        DecisionsFrom(count + 1, n - 1);
      } else {
        DecisionsFrom(count, n - 1);
      }
    }
  }

  /** Appending one more decision to a run of decisions. */
  lemma {:induction false} DecisionsSnoc(count: int, n: nat)
    requires 0 <= count <= MaxRetryCount
    ensures Decisions(count, n + 1) == Decisions(count, n) + [count + n < MaxRetryCount]
  {
    DecisionsFrom(count, n);
    DecisionsFrom(count, n + 1);
  }

  class RetryAnalyzer {
    var retryCount: int
    /** Every decision this instance has returned, oldest first. */
    ghost var history: seq<bool>

    ghost predicate Valid()
      reads this
    {
      && 0 <= retryCount <= MaxRetryCount
      && retryCount == (if |history| < MaxRetryCount then |history| else MaxRetryCount)
      && history == Decisions(0, |history|)
    }

    constructor ()
      ensures Valid() && retryCount == 0 && history == []
    {
      retryCount := 0;
      history := [];
    }

    /** `retry`: true and one more count while fewer than two retries were
        granted; false, with the counter left alone, afterwards. */
    method Retry(result: TestResult) returns (again: bool)
      requires Valid()
      modifies this
      ensures Valid()
      ensures again == (old(retryCount) < MaxRetryCount)
      ensures retryCount == if again then old(retryCount) + 1 else old(retryCount)
      ensures history == old(history) + [again]
    {
      DecisionsSnoc(0, |history|);
      if retryCount < MaxRetryCount {
        retryCount := retryCount + 1;
        again := true;
      } else {
        again := false;
      }
      history := history + [again];
    }
  }

  /** Two analyzers never interfere: after one has used up its retries, a
      fresh one still grants its first. */
  method TwoInstances(r: TestResult) returns (first: seq<bool>, second: bool)
    ensures first == [true, true, false]
    ensures second
  {
    var a := new RetryAnalyzer();
    var b := new RetryAnalyzer();
    var a1 := a.Retry(r);
    var a2 := a.Retry(r);
    var a3 := a.Retry(r);
    second := b.Retry(r);
    first := [a1, a2, a3];
    assert b.retryCount == 1 && a.retryCount == 2;
  }
}
