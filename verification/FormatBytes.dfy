/** The size label of src/sidra_ai/api/ui.py. A count of bytes below 2^53 divides by 1024, and rounds,
    without error in a double, so exact arithmetic is the page's own. */
module FormatBytes {
  /** What is shown: a number in tenths, whether a decimal is written, and the unit (-1 is B). */
  datatype Shown = Fallback(n: int) | Shown(tenths: nat, decimal: bool, unit: int)

  const TB := 3

  /** `toFixed(1)` below ten, and from ten on the nearest whole number; a half rounds up. */
  function Rounded(value: real): (tenths: nat)
    requires value >= 0.0
  {
    if value < 10.0 then (value * 10.0 + 0.5).Floor else 10 * (value + 0.5).Floor
  }

  function Reduce(value: real, unit: int): (real, int)
    requires unit < TB
    decreases TB - unit
  {
    var v := value / 1024.0;
    if v >= 1024.0 && unit + 1 < TB then Reduce(v, unit + 1) else (v, unit + 1)
  }

  function Promoted(value: real, unit: int): Shown
    requires value >= 0.0
  {
    if Rounded(value) >= 10240 && unit < TB
    then Shown(Rounded(value / 1024.0), value / 1024.0 < 10.0, unit + 1)
    else Shown(Rounded(value), value < 10.0, unit)
  }

  lemma {:induction false} ReduceStaysPositive(value: real, unit: int)
    requires unit < TB && value >= 0.0
    ensures Reduce(value, unit).0 >= 0.0
    decreases TB - unit
  {
    if value / 1024.0 >= 1024.0 && unit + 1 < TB {
      ReduceStaysPositive(value / 1024.0, unit + 1);
    }
  }

  function Label(n: int): Shown {
    if n < 0 then Fallback(n)
    else if n < 1024 then Shown(10 * n, false, -1)
    else
      ReduceStaysPositive(n as real, -1);
      var (value, unit) := Reduce(n as real, -1);
      Promoted(value, unit)
  }

  method Format(n: int) returns (shown: Shown)
    ensures shown == Label(n)
  {
    if n < 0 { return Fallback(n); }
    if n < 1024 { return Shown(10 * n, false, -1); }
    var value, unit := n as real / 1024.0, 0;
    while value >= 1024.0 && unit < TB
      invariant 0 <= unit <= TB && value >= 0.0
      invariant Reduce(n as real, -1) == if value >= 1024.0 && unit < TB then Reduce(value, unit) else (value, unit)
      decreases TB - unit
    {
      value, unit := value / 1024.0, unit + 1;
    }
    var tenths, decimal := Rounded(value), value < 10.0;
    if tenths >= 10240 && unit < TB {
      value, unit := value / 1024.0, unit + 1;
      tenths, decimal := Rounded(value), value < 10.0;
    }
    return Shown(tenths, decimal, unit);
  }

  function Scale(unit: int): real {
    if unit == -1 then 1.0
    else if unit == 0 then 1024.0
    else if unit == 1 then 1048576.0
    else if unit == 2 then 1073741824.0
    else 1099511627776.0
  }

  /** The size the label claims, in bytes. */
  function Claimed(s: Shown): real
    requires s.Shown?
  {
    s.tenths as real / 10.0 * Scale(s.unit)
  }

  /** The unit the loop settles on. */
  function UnitFor(n: nat): int {
    if n < 0x10_0000 then 0 else if n < 0x4000_0000 then 1 else if n < 0x100_0000_0000 then 2 else 3
  }

  lemma LoopIsUnitFor(n: nat)
    requires n >= 1024
    ensures Reduce(n as real, -1) == (n as real / Scale(UnitFor(n)), UnitFor(n))
    ensures n as real / Scale(UnitFor(n)) >= 1.0
    ensures UnitFor(n) < TB ==> n as real / Scale(UnitFor(n)) < 1024.0
  {
    var v0 := n as real / 1024.0;
    var v1 := v0 / 1024.0;
    var v2 := v1 / 1024.0;
    var v3 := v2 / 1024.0;
    assert Reduce(v2, 2) == (v3, 3);
    assert Reduce(v1, 1) == if v2 >= 1024.0 then Reduce(v2, 2) else (v2, 2);
    assert Reduce(v0, 0) == if v1 >= 1024.0 then Reduce(v1, 1) else (v1, 1);
  }

  lemma RoundedIsNear(value: real)
    requires value >= 1.0
    ensures value - value / 20.0 <= Rounded(value) as real / 10.0 <= value + value / 20.0
  {
  }

  lemma RoundedIsMonotone(a: real, b: real)
    requires 0.0 <= a <= b
    ensures Rounded(a) <= Rounded(b)
  {
    if a < 10.0 <= b {
      assert (a * 10.0 + 0.5).Floor <= 100;
      assert (b + 0.5).Floor >= 10;
    }
  }

  /** What a value of at least one unit is shown as: itself rounded, or one of the next unit. */
  lemma PromotionIsOneUnit(value: real, unit: int)
    requires 0.0 <= value && (unit < TB ==> value < 1024.0)
    ensures Promoted(value, unit) ==
            if Rounded(value) >= 10240 && unit < TB then Shown(10, true, unit + 1) else Shown(Rounded(value), value < 10.0, unit)
    ensures Rounded(value) >= 10240 && unit < TB ==> Rounded(value) == 10240 && value >= 1023.5
  {
    if Rounded(value) >= 10240 && unit < TB {
      assert value >= 1023.5;
      var v := value / 1024.0;
      assert (v * 10.0 + 0.5).Floor == 10;
    }
  }

  /** A label is within five per cent of the truth. */
  lemma LabelIsNear(n: nat)
    ensures var s := Label(n); s.Shown? && n as real - n as real / 20.0 <= Claimed(s) <= n as real + n as real / 20.0
  {
    if n >= 1024 {
      LoopIsUnitFor(n);
      var value, unit := n as real / Scale(UnitFor(n)), UnitFor(n);
      PromotionIsOneUnit(value, unit);
      RoundedIsNear(value);
    }
  }

  /** No label reads 1024 or more while a larger unit exists, and none reads less than one. */
  lemma LabelUsesItsUnit(n: nat)
    ensures var s := Label(n); s.Shown? && (s.unit < TB ==> s.tenths < 10240) && (s.unit >= 0 ==> s.tenths >= 10)
  {
    if n >= 1024 {
      LoopIsUnitFor(n);
      PromotionIsOneUnit(n as real / Scale(UnitFor(n)), UnitFor(n));
    }
  }

  /** Between one of its unit and one of the next. */
  lemma LabelInItsUnit(n: nat)
    requires n >= 1024
    ensures Label(n).Shown? && Claimed(Label(n)) >= Scale(UnitFor(n))
    ensures UnitFor(n) < TB ==> Claimed(Label(n)) <= Scale(UnitFor(n) + 1)
  {
    LoopIsUnitFor(n);
    PromotionIsOneUnit(n as real / Scale(UnitFor(n)), UnitFor(n));
  }

  lemma PromotedIsMonotone(a: real, b: real, unit: int)
    requires 1.0 <= a <= b && 0 <= unit <= TB && (unit < TB ==> b < 1024.0)
    ensures Claimed(Promoted(a, unit)) <= Claimed(Promoted(b, unit))
  {
    PromotionIsOneUnit(a, unit);
    PromotionIsOneUnit(b, unit);
    RoundedIsMonotone(a, b);
    hide Rounded;
  }

  lemma SameUnitIsMonotone(n: nat, m: nat)
    requires 1024 <= n <= m && UnitFor(n) == UnitFor(m)
    ensures Claimed(Label(n)) <= Claimed(Label(m))
  {
    hide Promoted, Claimed, Rounded, Reduce;
    LoopIsUnitFor(n);
    LoopIsUnitFor(m);
    PromotedIsMonotone(n as real / Scale(UnitFor(n)), m as real / Scale(UnitFor(n)), UnitFor(n));
  }

  /** A larger file never reads smaller, across every rounding step and change of unit. */
  lemma LabelIsMonotone(n: nat, m: nat)
    requires n <= m
    ensures Label(n).Shown? && Label(m).Shown? && Claimed(Label(n)) <= Claimed(Label(m))
  {
    hide Reduce, Promoted, Rounded;
    if n >= 1024 {
      LabelInItsUnit(n);
      LabelInItsUnit(m);
      if UnitFor(n) == UnitFor(m) {
        SameUnitIsMonotone(n, m);
      }
    } else if m >= 1024 {
      LabelInItsUnit(m);
    }
  }

  /** The carry at the top of a unit: 1048064 bytes is 1023.5 KB, and reads 1.0 MB. */
  lemma TheCarry()
    ensures Label(1048063) == Shown(10230, false, 0) && Label(1048064) == Shown(10, true, 1)
  {
    LoopIsUnitFor(1048063);
    LoopIsUnitFor(1048064);
  }

  /** A decimal is written exactly when the size is less than ten of the unit shown; a size under a
      kilobyte is shown in bytes as it is, and what is no size as it came. */
  lemma LabelWritesDecimals(n: int)
    ensures n < 0 ==> Label(n) == Fallback(n)
    ensures 0 <= n < 1024 ==> Label(n) == Shown(10 * n, false, -1)
    ensures n >= 1024 ==> Label(n).Shown? && Label(n).unit >= 0 && (Label(n).decimal <==> n as real / Scale(Label(n).unit) < 10.0)
  {
    if n >= 1024 {
      LoopIsUnitFor(n);
      var value, unit := n as real / Scale(UnitFor(n)), UnitFor(n);
      PromotionIsOneUnit(value, unit);
      if Rounded(value) >= 10240 && unit < TB {
        assert Label(n) == Shown(10, true, unit + 1);
        NextUnit(n, unit);
      }
    }
  }

  lemma NextUnit(n: nat, unit: int)
    requires 0 <= unit < TB
    ensures n as real / Scale(unit + 1) == n as real / Scale(unit) / 1024.0
  {
  }
}
