/**
 * The progress percentage pushed to a dialog (system_progress.cpp lines 157-159,
 * 173, 181). A missing total counts as 1 so that the other axis alone still gives
 * a fraction; only `fdone` gets that treatment among the done counters, so no
 * module done means 0% whatever the file counters say.
 */
module Percent {
  /** `std::max<u64>(x, 1)` */
  function AtLeastOne(x: nat): (r: nat)
    ensures r >= 1 && r >= x
    ensures x != 0 ==> r == x
    ensures r == 1 || r == x
  {
    if x == 0 then 1 else x
  }

  /** The denominator: `max(ptotal, 1) * max(ftotal, 1)`; it is never zero. */
  function Total(ftotal: nat, ptotal: nat): (r: nat)
    ensures r >= 1
  {
    ProductOfPositives(AtLeastOne(ptotal), AtLeastOne(ftotal));
    AtLeastOne(ptotal) * AtLeastOne(ftotal)
  }

  /** The numerator: `pdone * max(fdone, 1)`. */
  function Done(fdone: nat, pdone: nat): (r: nat)
    ensures r >= pdone
    ensures pdone == 0 <==> r == 0
  {
    pdone * AtLeastOne(fdone)
  }

  lemma ProductOfPositives(a: nat, b: nat)
    requires a >= 1 && b >= 1
    ensures a * b >= 1 && a * b >= a && a * b >= b
  {
  }

  /**
   * The whole percentage shown: the floor of `100 * done / total`, clamped at 100.
   * It is 100 exactly when done reaches total, and otherwise it is the largest r
   * with r * total <= 100 * done.
   */
  function Percent(ftotal: nat, fdone: nat, ptotal: nat, pdone: nat): (r: nat)
    ensures r <= 100
    ensures r == 100 <==> Done(fdone, pdone) >= Total(ftotal, ptotal)
    ensures r < 100 ==> r * Total(ftotal, ptotal) <= 100 * Done(fdone, pdone) < (r + 1) * Total(ftotal, ptotal)
  {
    var total := Total(ftotal, ptotal);
    var done := Done(fdone, pdone);
    var q := done * 100 / total;
    FloorDivision(done * 100, total);
    ScaledComparison(done, total, q);
    if q < 100 then q else 100
  }

  lemma FloorDivision(x: nat, d: nat)
    requires d >= 1
    ensures (x / d) * d <= x < (x / d + 1) * d
  {
  }

  lemma ScaledComparison(done: nat, total: nat, q: nat)
    requires total >= 1
    requires q * total <= done * 100 < (q + 1) * total
    ensures q >= 100 <==> done >= total
  {
    if q >= 100 {
      MultiplyMonotone(100, q, total);
      assert total * 100 < (done + 1) * 100;
      CancelFactor(total, done + 1, 100);
    } else {
      MultiplyMonotone(q + 1, 100, total);
      assert done * 100 < total * 100;
      CancelFactor(done, total, 100);
    }
  }

  /** Nothing done on the module axis gives 0%, whatever the file counters hold. */
  lemma NoModulesDoneIsZero(ftotal: nat, fdone: nat, ptotal: nat)
    ensures Percent(ftotal, fdone, ptotal, 0) == 0
  {
  }

  /**
   * With done counters not above their totals, 100% is reached exactly when a
   * module total is known, all modules are done, and max(fdone, 1) equals
   * max(ftotal, 1): either every file is done, or at most one file is expected
   * and none is done yet.
   */
  lemma CompleteIff(ftotal: nat, fdone: nat, ptotal: nat, pdone: nat)
    requires fdone <= ftotal && pdone <= ptotal
    ensures Percent(ftotal, fdone, ptotal, pdone) == 100 <==>
              ptotal != 0 && pdone == ptotal && AtLeastOne(fdone) == AtLeastOne(ftotal)
  {
    var a, b := AtLeastOne(fdone), AtLeastOne(ftotal);
    assert a <= b;
    if ptotal == 0 {
      assert Done(fdone, pdone) == 0;
    } else {
      assert Total(ftotal, ptotal) == ptotal * b;
      assert Done(fdone, pdone) == pdone * a;
      if pdone < ptotal || a < b {
        StrictProduct(pdone, a, ptotal, b);
      }
    }
  }

  lemma StrictProduct(x: nat, a: nat, y: nat, b: nat)
    requires x <= y && 1 <= y && 1 <= a <= b && (x < y || a < b)
    ensures x * a < y * b
  {
    if x < y {
      assert x * a <= x * b;
      assert x * b < y * b;
    } else {
      assert x * a < x * b;
    }
  }

  /** More modules done never lowers the percentage (the other counters fixed). */
  lemma MonotoneInModulesDone(ftotal: nat, fdone: nat, ptotal: nat, pdone: nat, pdone': nat)
    requires pdone <= pdone'
    ensures Percent(ftotal, fdone, ptotal, pdone) <= Percent(ftotal, fdone, ptotal, pdone')
  {
    MultiplyMonotone(pdone, pdone', AtLeastOne(fdone));
    MultiplyMonotone(Done(fdone, pdone), Done(fdone, pdone'), 100);
    ClampedFloorMonotone(Total(ftotal, ptotal), Done(fdone, pdone), Done(fdone, pdone'),
                         Percent(ftotal, fdone, ptotal, pdone), Percent(ftotal, fdone, ptotal, pdone'));
  }

  lemma ClampedFloorMonotone(total: nat, d: nat, d': nat, r: nat, r': nat)
    requires total >= 1 && d <= d' && r <= 100 && r' <= 100
    requires r == 100 <==> d >= total
    requires r' == 100 <==> d' >= total
    requires r < 100 ==> r * total <= 100 * d
    requires 100 * d <= 100 * d'
    requires r' < 100 ==> 100 * d' < (r' + 1) * total
    ensures r <= r'
  {
    if r' < 100 && r < 100 {
      CancelFactor(r, r' + 1, total);
    }
  }

  lemma CancelFactor(a: nat, b: nat, t: nat)
    requires t >= 1 && a * t < b * t
    ensures a < b
  {
    if a >= b {
      MultiplyMonotone(b, a, t);
    }
  }

  lemma MultiplyMonotone(x: nat, y: nat, k: nat)
    requires x <= y
    ensures x * k <= y * k
  {
  }

  /**
   * One expected file that is not done yet still shows 100% once all modules
   * are done, because an fdone of 0 is raised to 1.
   */
  lemma OneUncompiledFileShowsComplete(p: nat)
    requires p >= 1
    ensures Percent(1, 0, p, p) == 100
  {
    CompleteIff(1, 0, p, p);
  }

  /** Worked values: modules only, and files with nothing on the module axis. */
  lemma Examples()
    ensures Percent(0, 0, 4, 2) == 50
    ensures Percent(10, 5, 0, 0) == 0
    ensures Percent(0, 0, 0, 0) == 0
    ensures Percent(3, 3, 2, 2) == 100
  {
  }
}
