/**
 * The presence/absence flip behind the like and subscription toggles: a
 * record that is present is deleted, one that is absent is created.
 */
module Toggle {

  function Toggled<T>(records: set<T>, x: T): (r: set<T>)
    ensures x in r <==> x !in records
    ensures r - {x} == records - {x}
    ensures |r| == if x in records then |records| - 1 else |records| + 1
  {
    if x in records then records - {x} else records + {x}
  }

  /** Two toggles of the same record restore the original records. */
  lemma ToggleTwiceRestores<T>(records: set<T>, x: T)
    ensures Toggled(Toggled(records, x), x) == records
  {
  }

  /** A subset is no larger than the set that holds it. */
  lemma {:induction false} SubsetNoLarger<T>(a: set<T>, b: set<T>)
    requires a <= b
    ensures |a| <= |b|
  {
    if a != {} {
      var x :| x in a;
      SubsetNoLarger(a - {x}, b - {x});
    }
  }

  /** The records after `n` consecutive toggles of `x`. */
  function ToggledTimes<T>(records: set<T>, x: T, n: nat): set<T>
  {
    if n == 0 then records else Toggled(ToggledTimes(records, x, n - 1), x)
  }

  /** Consecutive numbers have opposite parity. */
  lemma ParityFlips(n: nat)
    requires n > 0
    ensures (n % 2 == 0) == !((n - 1) % 2 == 0)
  {
  }

  /**
   * Repeated toggles alternate: after `n` of them `x` is present exactly when
   * it was present before and `n` is even, or absent before and `n` is odd;
   * no other record ever changes.
   */
  lemma {:induction false} ToggledTimesAlternates<T>(records: set<T>, x: T, n: nat)
    ensures x in ToggledTimes(records, x, n) <==> (x in records) == (n % 2 == 0)
    ensures ToggledTimes(records, x, n) - {x} == records - {x}
  {
    if n > 0 {
      var before := ToggledTimes(records, x, n - 1);
      ToggledTimesAlternates(records, x, n - 1);
      ParityFlips(n);
      var after := ToggledTimes(records, x, n);
      assert after == Toggled(before, x);
      assert (x in after) == (x !in before);
      assert after - {x} == before - {x};
    }
  }
}
