/** Rounding of exact amounts to whole cents. */
module Money {

  /** Round half away from zero, as a DECIMAL(18,2) column stores a finer amount. */
  function Stored(cents: real): int {
    if cents >= 0.0 then (cents + 0.5).Floor else -((0.5 - cents).Floor)
  }

  /** What a DECIMAL(18,3) and a DECIMAL(18,2) column keep of a number. */
  function Thousandths(x: real): real {
    Stored(x * 1000.0) as real / 1000.0
  }

  function Hundredths(x: real): real {
    Stored(x * 100.0) as real / 100.0
  }

  /** What storing an amount loses. */
  function Residue(cents: real): real {
    cents - Stored(cents) as real
  }

  /** The whole cents that a sum of residues carries over. */
  function Carry(residue: real): int {
    (residue + 0.5).Floor
  }

  /** Round half to even, as `Decimal.quantize` does by default. */
  function Quantized(cents: real): int {
    var f := cents.Floor;
    var rest := cents - f as real;
    if rest < 0.5 || (rest == 0.5 && f % 2 == 0) then f else f + 1
  }

  predicate Whole(cents: real) {
    cents.Floor as real == cents
  }

  /** The nearest cent, and of two the one farther from zero. */
  ghost predicate KeptAs(x: real, n: int) {
    if x >= 0.0 then n as real - 0.5 <= x < n as real + 0.5 else n as real - 0.5 < x <= n as real + 0.5
  }

  /** The nearest cent, and of two the even one. */
  ghost predicate QuantizedAs(x: real, n: int) {
    if n % 2 == 0 then n as real - 0.5 <= x <= n as real + 0.5 else n as real - 0.5 < x < n as real + 0.5
  }

  lemma StoredIsNearest(x: real, n: int)
    ensures n == Stored(x) <==> KeptAs(x, n)
  {
  }

  lemma QuantizedIsNearest(x: real, n: int)
    ensures n == Quantized(x) <==> QuantizedAs(x, n)
  {
    var f := x.Floor;
    assert f % 2 == 0 <==> (f + 1) % 2 != 0;
    if n == f || n == f + 1 {
      assert n as real == f as real || n as real == f as real + 1.0;
    } else {
      assert n as real <= f as real - 1.0 || n as real >= f as real + 2.0;
    }
  }

  /** What the finer columns keep is a whole number of thousandths, or hundredths, no farther than half of one. */
  lemma ColumnsKeepNearest(x: real)
    ensures Thousandths(x) * 1000.0 == Stored(x * 1000.0) as real && -0.0005 <= Thousandths(x) - x <= 0.0005
    ensures Hundredths(x) * 100.0 == Stored(x * 100.0) as real && -0.005 <= Hundredths(x) - x <= 0.005
  {
    StoredIsNearest(x * 1000.0, Stored(x * 1000.0));
    StoredIsNearest(x * 100.0, Stored(x * 100.0));
  }

  lemma WholeRoundsToItself(cents: real)
    requires Whole(cents)
    ensures Stored(cents) as real == cents == Quantized(cents) as real
  {
    var k := cents.Floor;
    if cents >= 0.0 {
      assert (cents + 0.5).Floor == k;
    } else {
      assert (0.5 - cents).Floor == -k;
    }
  }

  /** Quantizing keeps order and moves an amount by at most half a cent. */
  lemma QuantizedFacts(x: real, y: real)
    ensures x <= y ==> Quantized(x) <= Quantized(y)
    ensures -0.5 <= Quantized(x) as real - x <= 0.5
  {
  }

  /** The stored cents exceed the quantized ones by at most one, and only on a tie. */
  lemma StoredFacts(x: real)
    requires x >= 0.0
    ensures Quantized(x) <= Stored(x) <= Quantized(x) + 1
    ensures Stored(x) >= 0
    ensures -0.5 <= Stored(x) as real - x <= 0.5
  {
  }

  /** Storing a sum is storing a part of it and carrying what the rest leaves over. */
  lemma StoredCarries(x: real, k: int)
    requires x >= 0.0
    ensures Stored(x) == k + Carry(x - k as real)
  {
    assert x + 0.5 == k as real + (x - k as real + 0.5);
  }

  lemma SmallResidueCarriesNothing(x: real)
    requires x >= 0.0
    ensures -0.5 <= Residue(x) < 0.5 && Carry(Residue(x)) == 0
  {
    StoredCarries(x, Stored(x));
  }
}
