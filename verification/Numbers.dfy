/** Decimal numbers as fmt prints them, and the size strings of internal/natsconfig/convert.go. */
module Numbers {
  import opened Text

  function Digit(d: nat): char
    requires d < 10
  {
    '0' + d as char
  }

  predicate IsDigit(c: char)
  {
    '0' <= c <= '9'
  }

  function DigitValue(c: char): (d: nat)
    requires IsDigit(c)
    ensures d < 10
  {
    (c - '0') as nat
  }

  function NatText(n: nat): (r: string)
    ensures r != ""
    ensures forall i :: 0 <= i < |r| ==> IsDigit(r[i])
  {
    if n < 10 then [Digit(n)] else NatText(n / 10) + [Digit(n % 10)]
  }

  /** fmt's %d */
  function IntText(n: int): string
  {
    if n < 0 then "-" + NatText(-n) else NatText(n)
  }

  function ReadNat(s: string): Option<int>
  {
    if s == "" then None
    else if !IsDigit(s[|s| - 1]) then None
    else
      var last := DigitValue(s[|s| - 1]);
      if |s| == 1 then Some(last) else
        match ReadNat(s[..|s| - 1])
        case None => None
        case Some(front) => Some(10 * front + last)
  }

  function ReadInt(s: string): Option<int>
  {
    if s != "" && s[0] == '-' then
      match ReadNat(s[1..])
      case None => None
      case Some(n) => Some(-n)
    else
      match ReadNat(s)
      case None => None
      case Some(n) => Some(n)
  }

  lemma {:induction false} ReadNatText(n: nat)
    ensures ReadNat(NatText(n)) == Some(n)
  {
    if n >= 10 {
      var s := NatText(n);
      assert s[..|s| - 1] == NatText(n / 10);
      ReadNatText(n / 10);
    }
  }

  lemma ReadIntText(n: int)
    ensures ReadInt(IntText(n)) == Some(n)
  {
    if n < 0 {
      ReadNatText(-n);
      assert IntText(n)[1..] == NatText(-n);
    } else {
      ReadNatText(n);
      assert IsDigit(NatText(n)[0]);
    }
  }

  lemma IntTextShape(n: int)
    ensures IntText(n) != "" && forall c <- IntText(n) :: IsDigit(c) || c == '-'
  {}

  // ---- sizes ----

  const KI := 1024
  const MI := 1024 * KI
  const GI := 1024 * MI
  const TI := 1024 * GI

  /** quantityToNATSSize, on the quantity's value in bytes. */
  function QuantityToNATSSize(bytes: int): string
  {
    if bytes >= TI && bytes % TI == 0 then IntText(bytes / TI) + "TI"
    else if bytes >= GI && bytes % GI == 0 then IntText(bytes / GI) + "GI"
    else if bytes >= MI && bytes % MI == 0 then IntText(bytes / MI) + "MI"
    else if bytes >= KI && bytes % KI == 0 then IntText(bytes / KI) + "KI"
    else IntText(bytes)
  }

  /** Bytes per unit of a size suffix; a size without suffix counts bytes. */
  function UnitOf(suffix: string): int
  {
    if suffix == "TI" then TI else if suffix == "GI" then GI
    else if suffix == "MI" then MI else if suffix == "KI" then KI else 0
  }

  /** The number and the unit a size string denotes. */
  function ReadSizeParts(s: string): Option<(int, int)>
  {
    if |s| > 2 && UnitOf(s[|s| - 2..]) != 0 then
      match ReadInt(s[..|s| - 2])
      case None => None
      case Some(n) => Some((n, UnitOf(s[|s| - 2..])))
    else
      match ReadInt(s)
      case None => None
      case Some(n) => Some((n, 1))
  }

  /** What the server makes of a size string. */
  function ReadSize(s: string): Option<int>
  {
    match ReadSizeParts(s)
    case None => None
    case Some((n, unit)) => Some(n * unit)
  }

  lemma ReadSuffixed(n: int, suffix: string)
    requires UnitOf(suffix) != 0
    ensures ReadSizeParts(IntText(n) + suffix) == Some((n, UnitOf(suffix)))
  {
    var s := IntText(n) + suffix;
    assert s[|s| - 2..] == suffix && s[..|s| - 2] == IntText(n);
    ReadIntText(n);
  }

  lemma ReadPlain(n: int)
    ensures ReadSizeParts(IntText(n)) == Some((n, 1))
  {
    var s := IntText(n);
    ReadIntText(n);
    IntTextShape(n);
    if |s| > 2 {
      assert s[|s| - 1] in s && s[|s| - 1] == s[|s| - 2..][1];
    }
  }

  ghost predicate IsUnit(unit: int)
  {
    unit == 1 || unit == KI || unit == MI || unit == GI || unit == TI
  }

  /** bytes is n of this unit, and for positive counts no larger unit divides it. */
  ghost predicate LargestUnit(bytes: int, n: int, unit: int)
  {
    && IsUnit(unit) && bytes == n * unit
    && (bytes > 0 ==> forall u :: IsUnit(u) && bytes % u == 0 ==> u <= unit)
    && (bytes <= 0 ==> unit == 1)
  }

  /** The unit QuantityToNATSSize picks. */
  ghost function ChosenUnit(bytes: int): int
  {
    if bytes >= TI && bytes % TI == 0 then TI
    else if bytes >= GI && bytes % GI == 0 then GI
    else if bytes >= MI && bytes % MI == 0 then MI
    else if bytes >= KI && bytes % KI == 0 then KI
    else 1
  }

  lemma PositiveMultiple(bytes: int, u: int)
    requires bytes > 0 && u > 0 && bytes % u == 0
    ensures bytes >= u
  {}

  lemma ChosenUnitIsLargest(bytes: int)
    ensures LargestUnit(bytes, bytes / ChosenUnit(bytes), ChosenUnit(bytes))
  {
    var unit := ChosenUnit(bytes);
    assert bytes == bytes / unit * unit;
    if bytes > 0 {
      forall u | IsUnit(u) && bytes % u == 0 ensures u <= unit {
        PositiveMultiple(bytes, u);
      }
    }
  }

  lemma PrintedParts(bytes: int)
    ensures ReadSizeParts(QuantityToNATSSize(bytes)) == Some((bytes / ChosenUnit(bytes), ChosenUnit(bytes)))
  {
    hide IntText, ReadSizeParts;
    if bytes >= TI && bytes % TI == 0 {
      ReadSuffixed(bytes / TI, "TI");
    } else if bytes >= GI && bytes % GI == 0 {
      ReadSuffixed(bytes / GI, "GI");
    } else if bytes >= MI && bytes % MI == 0 {
      ReadSuffixed(bytes / MI, "MI");
    } else if bytes >= KI && bytes % KI == 0 {
      ReadSuffixed(bytes / KI, "KI");
    } else {
      ReadPlain(bytes);
    }
  }

  /**
   * Reading a printed size back gives the original byte count, for every count. The printed unit
   * is the largest one that divides a positive count, and bytes otherwise.
   */
  lemma SizeReadBack(bytes: int)
    ensures ReadSize(QuantityToNATSSize(bytes)) == Some(bytes)
    ensures ReadSizeParts(QuantityToNATSSize(bytes)).Some?
    ensures LargestUnit(bytes, ReadSizeParts(QuantityToNATSSize(bytes)).value.0,
                        ReadSizeParts(QuantityToNATSSize(bytes)).value.1)
  {
    hide ReadSizeParts, QuantityToNATSSize;
    PrintedParts(bytes);
    ChosenUnitIsLargest(bytes);
  }

  lemma NextUnit(bytes: int, n: int, unit: int)
    requires LargestUnit(bytes, n, unit) && bytes > 0 && unit != TI
    ensures n % 1024 != 0
  {
    if n % 1024 == 0 {
      var m := n / 1024;
      if unit == 1 { assert bytes == m * KI && bytes % KI == 0 && IsUnit(KI); }
      if unit == KI { assert bytes == m * MI && bytes % MI == 0 && IsUnit(MI); }
      if unit == MI { assert bytes == m * GI && bytes % GI == 0 && IsUnit(GI); }
      if unit == GI { assert bytes == m * TI && bytes % TI == 0 && IsUnit(TI); }
    }
  }

  /** No mantissa below TI still carries a factor 1024. */
  lemma MantissaIsReduced(bytes: int)
    requires bytes > 0 && ReadSizeParts(QuantityToNATSSize(bytes)).Some?
    requires ReadSizeParts(QuantityToNATSSize(bytes)).value.1 != TI
    ensures ReadSizeParts(QuantityToNATSSize(bytes)).value.0 % 1024 != 0
  {
    SizeReadBack(bytes);
    hide *;
    var parts := ReadSizeParts(QuantityToNATSSize(bytes)).value;
    NextUnit(bytes, parts.0, parts.1);
  }

  lemma SizesAreInjective(a: int, b: int)
    ensures QuantityToNATSSize(a) == QuantityToNATSSize(b) <==> a == b
  {
    SizeReadBack(a);
    SizeReadBack(b);
  }
}
