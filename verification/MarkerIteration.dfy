/** The fixed-point iteration behind truncation markers: a marker shows the omitted count, and its own
    length decides that count.  `cut(m)` stands for the count that results from an m-byte marker. */
module MarkerIteration {
  import opened Decimal

  /** Length of a marker whose fixed part takes `fixed` bytes and which shows both counts in decimal. */
  function MarkerLength(fixed: nat, original: nat, omitted: nat): nat {
    fixed + Width(original) + Width(omitted)
  }

  /** The count shown after `round` rounds, starting from "everything is omitted". */
  function CountAfter(cut: nat -> nat, fixed: nat, original: nat, round: nat): nat {
    if round == 0 then original
    else cut(MarkerLength(fixed, original, CountAfter(cut, fixed, original, round - 1)))
  }

  /** A count the marker can truthfully show. */
  predicate IsTruthful(cut: nat -> nat, fixed: nat, original: nat, count: nat) {
    cut(MarkerLength(fixed, original, count)) == count
  }

  ghost predicate IsMonotone(cut: nat -> nat) {
    forall a: nat, b: nat :: a <= b ==> cut(a) <= cut(b)
  }

  /** What truncating `original` bytes to `maxBytes` guarantees about the count: it never exceeds the
      original, a marker without room omits everything, a fitting marker omits more than its own
      length, and a marker longer by d costs at most d + 6 more bytes. */
  ghost predicate IsTruncation(cut: nat -> nat, original: nat, maxBytes: nat) {
    && IsMonotone(cut)
    && (forall m: nat :: cut(m) <= original)
    && (forall m: nat :: m >= maxBytes ==> cut(m) == original)
    && (forall m: nat :: m <= maxBytes ==> cut(m) > m)
    && (forall a: nat, b: nat :: a <= b <= maxBytes ==> cut(b) <= cut(a) + (b - a) + 6)
  }

  lemma {:induction false} CountsDecrease(cut: nat -> nat, fixed: nat, original: nat, maxBytes: nat, round: nat)
    requires IsTruncation(cut, original, maxBytes)
    ensures CountAfter(cut, fixed, original, round + 1) <= CountAfter(cut, fixed, original, round)
  {
    if round > 0 {
      CountsDecrease(cut, fixed, original, maxBytes, round - 1);
      WidthIsMonotone(CountAfter(cut, fixed, original, round), CountAfter(cut, fixed, original, round - 1));
    }
  }

  lemma {:induction false} SettledStays(cut: nat -> nat, fixed: nat, original: nat, round: nat, later: nat)
    requires round <= later
    requires CountAfter(cut, fixed, original, round + 1) == CountAfter(cut, fixed, original, round)
    ensures CountAfter(cut, fixed, original, later) == CountAfter(cut, fixed, original, round)
  {
    if later > round {
      SettledStays(cut, fixed, original, round, later - 1);
    }
  }

  /** Three rounds always reach the fixed point: the width of the count drops at most twice. */
  lemma SettlesInThreeRounds(cut: nat -> nat, fixed: nat, original: nat, maxBytes: nat)
    requires IsTruncation(cut, original, maxBytes) && fixed >= 40
    ensures IsTruthful(cut, fixed, original, CountAfter(cut, fixed, original, 3))
  {
    var o0, o1, o2, o3 := CountAfter(cut, fixed, original, 0), CountAfter(cut, fixed, original, 1),
                          CountAfter(cut, fixed, original, 2), CountAfter(cut, fixed, original, 3);
    var m0, m1, m2 := MarkerLength(fixed, original, o0), MarkerLength(fixed, original, o1),
                          MarkerLength(fixed, original, o2);
    assert o1 == cut(m0) && o2 == cut(m1) && o3 == cut(m2);
    CountsDecrease(cut, fixed, original, maxBytes, 0);
    CountsDecrease(cut, fixed, original, maxBytes, 1);
    CountsDecrease(cut, fixed, original, maxBytes, 2);
    WidthIsMonotone(o1, o0);
    WidthIsMonotone(o2, o1);
    WidthIsMonotone(o3, o2);
    if m0 >= maxBytes {
      SettledStays(cut, fixed, original, 0, 3);
    } else if Width(o2) < Width(o1) {
      assert o2 > m1 && o3 > m2;
      WidthGrowsByOne(o2, o1);
      NoSecondDrop(o1, o2, o3);
    }
  }

  lemma {:induction false} CountsStayAboveTruthful(cut: nat -> nat, fixed: nat, original: nat, maxBytes: nat,
                                                   round: nat, count: nat)
    requires IsTruncation(cut, original, maxBytes) && IsTruthful(cut, fixed, original, count)
    ensures count <= CountAfter(cut, fixed, original, round)
  {
    if round > 0 {
      CountsStayAboveTruthful(cut, fixed, original, maxBytes, round - 1, count);
      WidthIsMonotone(count, CountAfter(cut, fixed, original, round - 1));
    }
  }

  /** The settled count is the largest truthful one. */
  lemma SettledIsGreatest(cut: nat -> nat, fixed: nat, original: nat, maxBytes: nat)
    requires IsTruncation(cut, original, maxBytes) && fixed >= 40
    ensures forall count: nat :: IsTruthful(cut, fixed, original, count) ==> count <= CountAfter(cut, fixed, original, 3)
  {
    forall count: nat | IsTruthful(cut, fixed, original, count)
      ensures count <= CountAfter(cut, fixed, original, 3)
    {
      CountsStayAboveTruthful(cut, fixed, original, maxBytes, 3, count);
    }
  }
}
