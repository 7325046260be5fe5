/** Day 1: the fuel needed to launch a list of modules, given their masses.

    The program reads one mass per line. Each line goes through `parse::<i32>()`.
    Here that outcome is an `Option<int>` per line, and `None` stands for a
    line that is not an `i32`. */
module Fuel {
  import opened Wrappers

  /** Rust's integer division, which truncates toward zero. Dafny's `/` is
      Euclidean and rounds negative dividends the other way. */
  function Quot(a: int, d: int): (q: int)
    requires d > 0
    ensures a >= 0 ==> 0 <= a - q * d < d
    ensures a < 0 ==> -d < a - q * d <= 0
  {
    if a >= 0 then a / d else -((-a) / d)
  }

  /** The fuel formula `mass / 3 - 2`. It does no clamping, so it can go
      negative. Every positive argument is made strictly smaller, which is why
      the loop in part 2 ends. */
  function FuelFor(mass: int): (f: int)
    ensures mass >= 0 ==> 3 * (f + 2) <= mass < 3 * (f + 2) + 3
    ensures mass > 0 ==> f < mass
  {
    Quot(mass, 3) - 2
  }

  /** Part 2's total for one starting amount of fuel `f`. It adds `f`, then
      `FuelFor(f)`, and so on, and stops before the first term that is not
      positive. */
  function ChainFuel(f: int): (total: int)
    ensures total >= 0
    ensures f <= 0 ==> total == 0
    ensures f > 0 ==> total >= f
    decreases if f > 0 then f else 0
  {
    if f <= 0 then 0 else f + ChainFuel(FuelFor(f))
  }

  /** Part 2's contribution for one mass. It is never negative. It is zero
      exactly when the first term `mass / 3 - 2` is not positive, and otherwise
      it is at least that first term. */
  function MassFuel(mass: int): (total: int)
    ensures total >= 0
    ensures total == 0 <==> FuelFor(mass) <= 0
    ensures FuelFor(mass) > 0 ==> total >= FuelFor(mass)
  {
    ChainFuel(FuelFor(mass))
  }

  /** True when every line parsed as an `i32`. */
  predicate AllParsed(lines: seq<Option<int>>)
  {
    forall i :: 0 <= i < |lines| ==> lines[i].Some?
  }

  /** The masses of lines that all parsed, in order. */
  function Masses(lines: seq<Option<int>>): (ms: seq<int>)
    requires AllParsed(lines)
    ensures |ms| == |lines|
    ensures forall i :: 0 <= i < |lines| ==> ms[i] == lines[i].value
  {
    if |lines| == 0 then [] else Masses(lines[..|lines| - 1]) + [lines[|lines| - 1].value]
  }

  /** Part 1's total: the sum of `FuelFor` over the masses. */
  function TotalFuel(masses: seq<int>): int
  {
    if |masses| == 0 then 0
    else TotalFuel(masses[..|masses| - 1]) + FuelFor(masses[|masses| - 1])
  }

  /** Part 2's total: the sum of `MassFuel` over the masses. */
  function TotalChainFuel(masses: seq<int>): int
  {
    if |masses| == 0 then 0
    else TotalChainFuel(masses[..|masses| - 1]) + MassFuel(masses[|masses| - 1])
  }

  /** `part1`. It adds `mass / 3 - 2` per line. The first line that does not
      parse makes it return an error instead of a total. */
  method Part1(lines: seq<Option<int>>) returns (total: Option<int>)
    ensures total.None? <==> !AllParsed(lines)
    ensures total.Some? ==> AllParsed(lines) && total.value == TotalFuel(Masses(lines))
  {
    var fuelReq := 0;
    for i := 0 to |lines|
      invariant AllParsed(lines[..i])
      invariant fuelReq == TotalFuel(Masses(lines[..i]))
    {
      if lines[i].None? {
        assert !AllParsed(lines) by { assert lines[i].None?; }
        return None;
      }
      var mass := lines[i].value;
      fuelReq := fuelReq + FuelFor(mass);
      MassesSnoc(lines, i);
    }
    assert lines[..|lines|] == lines;
    return Some(fuelReq);
  }

  /** Part 2's inner `while` loop. It starts from `mass / 3 - 2` and adds up
      the terms while they stay positive. */
  method FuelForMass(mass: int) returns (fuelReq: int)
    ensures fuelReq == MassFuel(mass)
  {
    fuelReq := 0;
    var fuel := FuelFor(mass);
    while fuel > 0
      invariant fuelReq + ChainFuel(fuel) == MassFuel(mass)
      decreases if fuel > 0 then fuel else 0
    {
      fuelReq := fuelReq + fuel;
      fuel := FuelFor(fuel);
    }
  }

  /** `part2`. It adds every mass's fuel chain and fails on the first line
      that does not parse. */
  method Part2(lines: seq<Option<int>>) returns (total: Option<int>)
    ensures total.None? <==> !AllParsed(lines)
    ensures total.Some? ==> AllParsed(lines) && total.value == TotalChainFuel(Masses(lines))
  {
    var fuelReq := 0;
    for i := 0 to |lines|
      invariant AllParsed(lines[..i])
      invariant fuelReq == TotalChainFuel(Masses(lines[..i]))
    {
      if lines[i].None? {
        assert !AllParsed(lines) by { assert lines[i].None?; }
        return None;
      }
      var mass := lines[i].value;
      var fuel := FuelFor(mass);
      ghost var before := fuelReq;
      while fuel > 0
        invariant fuelReq - before + ChainFuel(fuel) == MassFuel(mass)
        decreases if fuel > 0 then fuel else 0
      {
        fuelReq := fuelReq + fuel;
        fuel := FuelFor(fuel);
      }
      MassesSnoc(lines, i);
    }
    assert lines[..|lines|] == lines;
    return Some(fuelReq);
  }

  /** Extending the parsed prefix by one line appends that line's mass. */
  lemma MassesSnoc(lines: seq<Option<int>>, i: nat)
    requires i < |lines| && AllParsed(lines[..i + 1])
    ensures AllParsed(lines[..i])
    ensures Masses(lines[..i + 1]) == Masses(lines[..i]) + [lines[i].value]
  {
  }

  /** Part 2 never asks for less fuel than part 1 for the same lines. */
  lemma {:induction false} ChainNotBelowSingle(masses: seq<int>)
    ensures TotalChainFuel(masses) >= TotalFuel(masses)
  {
    if |masses| > 0 {
      ChainNotBelowSingle(masses[..|masses| - 1]);
    }
  }

  /** Both totals add up over concatenated inputs, so each sum is the same
      whatever order the masses are split in. */
  lemma {:induction false} TotalsAppend(a: seq<int>, b: seq<int>)
    ensures TotalFuel(a + b) == TotalFuel(a) + TotalFuel(b)
    ensures TotalChainFuel(a + b) == TotalChainFuel(a) + TotalChainFuel(b)
    decreases |b|
  {
    if |b| == 0 {
      assert a + b == a;
    } else {
      var b' := b[..|b| - 1];
      assert (a + b)[..|a + b| - 1] == a + b';
      assert (a + b)[|a + b| - 1] == b[|b| - 1];
      TotalsAppend(a, b');
    }
  }

  /** Because the formula does no clamping, small masses contribute negative
      fuel. Division truncates toward zero: a Euclidean `/` would give -3 for
      mass -1 and -4 for mass -4. */
  lemma SmallMasses()
    ensures FuelFor(3) == -1
    ensures FuelFor(0) == -2
    ensures FuelFor(-1) == -2
    ensures FuelFor(-4) == -3
    ensures MassFuel(3) == 0
  {
  }

  /** Worked values for single masses: 12 and 14 need 2 each, and 1969 needs
      654 by the first formula and 966 by the iterated one. */
  lemma WorkedValues()
    ensures TotalFuel([12]) == 2
    ensures TotalFuel([14]) == 2
    ensures TotalFuel([1969]) == 654
    ensures TotalChainFuel([14]) == 2
    ensures TotalChainFuel([1969]) == 966
  {
  }
}
