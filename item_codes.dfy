/** Item code generation (ItemController::generateItemCode): a three-letter prefix chosen
    by the item type, then one more than the number in the lexicographically greatest
    existing code with that prefix, written in decimal and left-padded with '0' to four
    digits. */
module ItemCodes {
  import opened Base
  import opened Text
  import Sums

  /** The prefix for an item type; any type outside the enumeration gets ITM. */
  function Prefix(itemType: string): (p: string)
    ensures |p| == 3
  {
    if itemType == "consumable" then "CNS"
    else if itemType == "raw_material" then "RAW"
    else if itemType == "material" then "MAT"
    else "ITM"
  }

  predicate IsDigit(c: char) {
    '0' <= c <= '9'
  }

  predicate AllDigits(s: string) {
    forall i :: 0 <= i < |s| ==> IsDigit(s[i])
  }

  function DigitValue(c: char): nat
    requires IsDigit(c)
  {
    c as int - '0' as int
  }

  function DigitChar(d: nat): (c: char)
    requires d < 10
    ensures IsDigit(c) && DigitValue(c) == d
  {
    ('0' as int + d) as char
  }

  function Pow10(k: nat): (r: nat)
    ensures r >= 1
  {
    if k == 0 then 1 else 10 * Pow10(k - 1)
  }

  /** The number a digit string denotes, read left to right. */
  function Value(s: string): nat
    requires AllDigits(s)
  {
    if s == [] then 0 else Value(s[..|s| - 1]) * 10 + DigitValue(s[|s| - 1])
  }

  /** The longest run of decimal digits that `s` starts with. */
  function LeadingDigits(s: string): (r: string)
    ensures AllDigits(r) && StartsWith(s, r)
    ensures |r| < |s| ==> !IsDigit(s[|r|])
  {
    if s == [] || !IsDigit(s[0]) then [] else [s[0]] + LeadingDigits(s[1..])
  }

  /** The `(int)` cast applied to the digits after a code's prefix, for strings that
      start with ASCII digits or with none: the value of the leading digits, 0 if there
      are none. PHP's cast also skips leading whitespace, takes a sign, reads an
      exponent and saturates at PHP_INT_MAX; none of that is modelled. */
  function IntCast(s: string): nat {
    Value(LeadingDigits(s))
  }

  /** `(string) $n` for a natural number: its decimal numeral without leading zeros. */
  function Decimal(n: nat): (r: string)
    ensures AllDigits(r) && 1 <= |r|
    ensures Value(r) == n
    ensures n < 10 ==> |r| == 1
    ensures n >= 1 ==> r[0] != '0'
  {
    if n < 10 then [DigitChar(n)]
    else
      var r := Decimal(n / 10) + [DigitChar(n % 10)];
      assert r[..|r| - 1] == Decimal(n / 10);
      r
  }

  function Zeros(k: nat): (r: string)
    ensures |r| == k && AllDigits(r)
  {
    seq(k, _ => '0')
  }

  /** `str_pad($s, 4, '0', STR_PAD_LEFT)`. */
  function PadLeft4(s: string): string {
    if |s| >= 4 then s else Zeros(4 - |s|) + s
  }

  /** The lexicographically greatest code that starts with `p`, if any: the first row of
      `WHERE code LIKE 'p%' ORDER BY code DESC`. */
  function Greatest(codes: seq<string>, p: string): (r: Option<string>)
    ensures r.None? <==> forall c :: c in codes ==> !StartsWith(c, p)
    ensures r.Some? ==> r.value in codes && StartsWith(r.value, p)
    ensures r.Some? ==> forall c :: c in codes && StartsWith(c, p) ==> LexLe(c, r.value)
  {
    if codes == [] then None
    else
      var n := |codes| - 1;
      assert codes == codes[..n] + [codes[n]];
      var g := Greatest(codes[..n], p);
      var c := codes[n];
      if !StartsWith(c, p) then g
      else if g.None? then
        assert LexLe(c, c) by { LexLeTotal(c, c); }
        Some(c)
      else if LexLe(g.value, c) then
        assert forall x :: x in codes[..n] && StartsWith(x, p) ==> LexLe(x, c) by {
          forall x | x in codes[..n] && StartsWith(x, p) ensures LexLe(x, c) {
            LexLeTransitive(x, g.value, c);
          }
        }
        assert LexLe(c, c) by { LexLeTotal(c, c); }
        Some(c)
      else
        LexLeTotal(g.value, c);
        g
  }

  /** The code generateItemCode returns, as written: the number after the greatest
      existing code is read from that code's characters after position 3. */
  function GenerateItemCode(itemType: string, codes: seq<string>): string {
    var p := Prefix(itemType);
    var number := match Greatest(codes, p)
      case None => 1
      case Some(last) => IntCast(last[3..]) + 1;
    Code(p, number)
  }

  /** The largest number among the codes that start with `p` (0 if there are none). */
  function MaxNumber(codes: seq<string>, p: string): (m: nat)
    requires |p| == 3
    ensures forall c :: c in codes && StartsWith(c, p) ==> IntCast(c[3..]) <= m
    ensures m > 0 ==> exists c :: c in codes && StartsWith(c, p) && IntCast(c[3..]) == m
  {
    if codes == [] then 0
    else
      var n := |codes| - 1;
      assert codes == codes[..n] + [codes[n]];
      var m := MaxNumber(codes[..n], p);
      var c := codes[n];
      if StartsWith(c, p) && IntCast(c[3..]) > m then IntCast(c[3..]) else m
  }

  /** The intended generator: one more than the numerically greatest existing number. */
  function NextItemCode(itemType: string, codes: seq<string>): string {
    var p := Prefix(itemType);
    Code(p, MaxNumber(codes, p) + 1)
  }

  /** Every existing code with prefix `p` is the prefix and four digits. */
  predicate FourDigitSuffixes(codes: seq<string>, p: string) {
    forall c :: c in codes && StartsWith(c, p) ==> |c| == 7 && AllDigits(c[3..])
  }

  lemma {:induction false} LeadingDigitsOfDigits(s: string)
    requires AllDigits(s)
    ensures LeadingDigits(s) == s
  {
    if s != [] {
      LeadingDigitsOfDigits(s[1..]);
      assert s == [s[0]] + s[1..];
    }
  }

  lemma {:induction false} ZerosValue(k: nat, s: string)
    requires AllDigits(s)
    ensures AllDigits(Zeros(k) + s) && Value(Zeros(k) + s) == Value(s)
  {
    var z := Zeros(k) + s;
    if s == [] {
      assert z == Zeros(k);
      if k > 0 {
        assert z[..k - 1] == Zeros(k - 1);
        ZerosValue(k - 1, []);
        assert Zeros(k - 1) + [] == Zeros(k - 1);
      }
    } else {
      var n := |s| - 1;
      assert z[..|z| - 1] == Zeros(k) + s[..n];
      ZerosValue(k, s[..n]);
    }
  }

  /** The padded numeral reads back as the number it was made from. */
  lemma PaddedNumeral(n: nat)
    ensures |PadLeft4(Decimal(n))| >= 4 && AllDigits(PadLeft4(Decimal(n)))
    ensures IntCast(PadLeft4(Decimal(n))) == n
  {
    var d := Decimal(n);
    if |d| < 4 {
      ZerosValue(4 - |d|, d);
    }
    LeadingDigitsOfDigits(PadLeft4(d));
  }

  /** The code with prefix `p` and number `number`, left-padded to four digits: it
      starts with `p` and its digits read back as `number`. */
  function Code(p: string, number: nat): (r: string)
    requires |p| == 3
    ensures |r| >= 7 && StartsWith(r, p) && AllDigits(r[3..])
    ensures IntCast(r[3..]) == number
    ensures |r| == 7 || r[3] != '0'
  {
    PaddedNumeral(number);
    var r := p + PadLeft4(Decimal(number));
    assert r[..3] == p && r[3..] == PadLeft4(Decimal(number));
    r
  }

  /** A generated code is the type's prefix followed by at least four digits, and the
      number those digits spell is one more than the number read from the greatest
      existing code with that prefix, or 1 when there is none. The digits are exactly
      four, or else they do not start with a zero: padding never goes past four. */
  lemma GeneratedCodeNumber(itemType: string, codes: seq<string>)
    ensures StartsWith(GenerateItemCode(itemType, codes), Prefix(itemType))
    ensures |GenerateItemCode(itemType, codes)| >= 7
    ensures AllDigits(GenerateItemCode(itemType, codes)[3..])
    ensures |GenerateItemCode(itemType, codes)| == 7 || GenerateItemCode(itemType, codes)[3] != '0'
    ensures Greatest(codes, Prefix(itemType)).None? ==> IntCast(GenerateItemCode(itemType, codes)[3..]) == 1
    ensures Greatest(codes, Prefix(itemType)).Some? ==>
      IntCast(GenerateItemCode(itemType, codes)[3..])
        == IntCast(Greatest(codes, Prefix(itemType)).value[3..]) + 1
  {
    var p := Prefix(itemType);
    var number := match Greatest(codes, p)
      case None => 1
      case Some(last) => IntCast(last[3..]) + 1;
    assert GenerateItemCode(itemType, codes) == Code(p, number);
  }

  /** The first code of a prefix is the prefix followed by 0001. */
  lemma FirstCodeOfPrefix(itemType: string, codes: seq<string>)
    requires forall c :: c in codes ==> !StartsWith(c, Prefix(itemType))
    ensures GenerateItemCode(itemType, codes) == Prefix(itemType) + "0001"
  {
    assert Decimal(1) == "1";
    assert Zeros(3) == "000";
  }

  /** The generated code depends only on the set of existing codes that carry the
      prefix: codes under other prefixes, and the order of the rows, do not matter. */
  lemma GenerateSeesOnlyItsPrefix(itemType: string, codes: seq<string>, others: seq<string>)
    requires forall c :: (c in codes && StartsWith(c, Prefix(itemType)))
                     <==> (c in others && StartsWith(c, Prefix(itemType)))
    ensures GenerateItemCode(itemType, codes) == GenerateItemCode(itemType, others)
  {
    var p := Prefix(itemType);
    var g, h := Greatest(codes, p), Greatest(others, p);
    if g.Some? {
      LexLeAntisymmetric(g.value, h.value);
    }
  }

  lemma {:induction false} LexLeAfterCommonPrefix(x: string, y: string, k: nat)
    requires k <= |x| && k <= |y| && x[..k] == y[..k] && LexLe(x, y)
    ensures LexLe(x[k..], y[k..])
  {
    if k > 0 {
      assert x[0] == x[..k][0] && y[0] == y[..k][0];
      assert x[1..][..k - 1] == x[..k][1..] && y[1..][..k - 1] == y[..k][1..];
      LexLeAfterCommonPrefix(x[1..], y[1..], k - 1);
      assert x[1..][k - 1..] == x[k..] && y[1..][k - 1..] == y[k..];
    }
  }

  lemma {:induction false} ValueBound(s: string)
    requires AllDigits(s)
    ensures Value(s) < Pow10(|s|)
  {
    if s != [] {
      ValueBound(s[..|s| - 1]);
    }
  }

  /** Reading a numeral from its most significant digit. */
  lemma {:induction false} ValueFront(s: string)
    requires AllDigits(s) && |s| >= 1
    ensures Value(s) == DigitValue(s[0]) * Pow10(|s| - 1) + Value(s[1..])
  {
    var n := |s| - 1;
    if n > 0 {
      ValueFront(s[..n]);
      var t := s[1..];
      assert s[..n][1..] == t[..n - 1];
      assert t[n - 1] == s[n];
      assert Value(s) == Value(s[..n]) * 10 + DigitValue(s[n]);
      assert Value(t) == Value(t[..n - 1]) * 10 + DigitValue(s[n]);
      ShiftPlace(DigitValue(s[0]), Pow10(n - 1), Value(t[..n - 1]), DigitValue(s[n]));
    }
  }

  /** Moving a numeral one place to the left and appending a digit. */
  lemma ShiftPlace(d: nat, p: nat, v: nat, e: nat)
    ensures (d * p + v) * 10 + e == d * (10 * p) + (v * 10 + e)
  {
  }

  /** A higher leading digit outweighs any lower places. */
  lemma LeadingDigitDominates(da: nat, db: nat, k: nat, ra: nat, rb: nat)
    requires da < db && ra < k
    ensures da * k + ra <= db * k + rb
  {
    assert (da + 1) * k <= db * k;
  }

  /** On numerals of one length, the lexicographic order is the numeric order. */
  lemma {:induction false} LexLeValue(a: string, b: string)
    requires |a| == |b| && AllDigits(a) && AllDigits(b) && LexLe(a, b)
    ensures Value(a) <= Value(b)
  {
    if a != [] {
      ValueFront(a);
      ValueFront(b);
      if a[0] < b[0] {
        ValueBound(a[1..]);
        LeadingDigitDominates(DigitValue(a[0]), DigitValue(b[0]), Pow10(|a| - 1), Value(a[1..]), Value(b[1..]));
      } else {
        LexLeValue(a[1..], b[1..]);
      }
    }
  }

  /** Of two four-digit codes with one prefix, the lexicographically greater carries the
      greater number. */
  lemma FourDigitOrder(c: string, g: string, p: string)
    requires |p| == 3 && StartsWith(c, p) && StartsWith(g, p) && LexLe(c, g)
    requires |c| == 7 && |g| == 7 && AllDigits(c[3..]) && AllDigits(g[3..])
    ensures IntCast(c[3..]) <= IntCast(g[3..])
  {
    assert c[..3] == p == g[..3];
    LexLeAfterCommonPrefix(c, g, 3);
    LexLeValue(c[3..], g[3..]);
    LeadingDigitsOfDigits(c[3..]);
    LeadingDigitsOfDigits(g[3..]);
  }

  /** While every code of the prefix has a four-digit number, the lexicographically
      greatest code carries the greatest number. */
  lemma GreatestCarriesMaxNumber(codes: seq<string>, p: string)
    requires |p| == 3 && FourDigitSuffixes(codes, p) && Greatest(codes, p).Some?
    ensures IntCast(Greatest(codes, p).value[3..]) == MaxNumber(codes, p)
  {
    var m := MaxNumber(codes, p);
    var g := Greatest(codes, p).value;
    if m > 0 {
      var c :| c in codes && StartsWith(c, p) && IntCast(c[3..]) == m;
      FourDigitOrder(c, g, p);
    }
  }

  /** While every existing code of the prefix has a four-digit number, the generator as
      written and the intended one agree. */
  lemma GenerateAgreesWhileFourDigits(itemType: string, codes: seq<string>)
    requires FourDigitSuffixes(codes, Prefix(itemType))
    ensures GenerateItemCode(itemType, codes) == NextItemCode(itemType, codes)
  {
    var p := Prefix(itemType);
    if Greatest(codes, p).Some? {
      GreatestCarriesMaxNumber(codes, p);
    } else {
      assert MaxNumber(codes, p) == 0;
    }
  }

  /** The intended generator never returns a code that already exists. */
  lemma NextItemCodeIsFresh(itemType: string, codes: seq<string>)
    ensures NextItemCode(itemType, codes) !in codes
  {
    var p := Prefix(itemType);
    var m := MaxNumber(codes, p);
    var r := NextItemCode(itemType, codes);
    assert IntCast(r[3..]) == m + 1;
    if r in codes {
      assert false;
    }
  }

  /** While every existing code of the prefix has a four-digit number, the generator as
      written returns a code that does not exist yet. */
  lemma GeneratedCodeFreshWhileFourDigits(itemType: string, codes: seq<string>)
    requires FourDigitSuffixes(codes, Prefix(itemType))
    ensures GenerateItemCode(itemType, codes) !in codes
  {
    GenerateAgreesWhileFourDigits(itemType, codes);
    NextItemCodeIsFresh(itemType, codes);
  }

  /** "RAW9999" sorts after "RAW10000". */
  lemma GreatestOfCollidingCodes()
    ensures Greatest(["RAW9999", "RAW10000"], "RAW") == Some("RAW9999")
  {
    var codes := ["RAW9999", "RAW10000"];
    assert !LexLe("RAW9999", "RAW10000") by {
      assert "RAW9999"[1..] == "AW9999" && "RAW10000"[1..] == "AW10000";
      assert "AW9999"[1..] == "W9999" && "AW10000"[1..] == "W10000";
      assert "W9999"[1..] == "9999" && "W10000"[1..] == "10000";
    }
    assert codes[..1] == ["RAW9999"];
    assert ["RAW9999"][..0] == [];
    assert Greatest(["RAW9999"], "RAW") == Some("RAW9999");
  }

  lemma IntCastOfNines()
    ensures IntCast("9999") == 9999
  {
    LeadingDigitsOfDigits("9999");
    assert "9999"[..3] == "999" && "999"[..2] == "99" && "99"[..1] == "9" && "9"[..0] == "";
  }

  lemma DecimalOfTenThousand()
    ensures Decimal(10000) == "10000"
  {
    assert Decimal(10) == "10";
    assert Decimal(100) == "100";
    assert Decimal(1000) == "1000";
  }

  lemma CodeOfTenThousand()
    ensures Code("RAW", 10000) == "RAW10000"
  {
    DecimalOfTenThousand();
    assert PadLeft4("10000") == "10000";
  }

  /** Past 9999 the lexicographic maximum is no longer the numeric one: with RAW9999 and
      RAW10000 stored, the generator as written returns RAW10000 again. */
  lemma CodeCollisionPastNineNineNineNine()
    ensures GenerateItemCode("raw_material", ["RAW9999", "RAW10000"]) == "RAW10000"
    ensures "RAW10000" in ["RAW9999", "RAW10000"]
  {
    var codes := ["RAW9999", "RAW10000"];
    assert Prefix("raw_material") == "RAW";
    GreatestOfCollidingCodes();
    assert "RAW9999"[3..] == "9999";
    IntCastOfNines();
    DecimalOfTenThousand();
    CodeOfTenThousand();
    assert GenerateItemCode("raw_material", codes) == Code("RAW", 10000);
  }

  /** A number below ten is padded with three zeros. */
  lemma OneDigitCode(p: string, n: nat)
    requires |p| == 3 && n < 10
    ensures Code(p, n) == p + "000" + [DigitChar(n)]
  {
    assert Zeros(3) == "000";
  }

  lemma IntCastOfOne()
    ensures IntCast("0001") == 1
  {
    LeadingDigitsOfDigits("0001");
    assert "0001"[..3] == "000" && "000"[..2] == "00" && "00"[..1] == "0" && "0"[..0] == "";
  }

  /** The first raw material gets RAW0001, from the generator as written and from the
      intended one alike. */
  lemma FirstRawMaterialCode()
    ensures GenerateItemCode("raw_material", []) == "RAW0001"
    ensures NextItemCode("raw_material", []) == "RAW0001"
  {
    FirstCodeOfPrefix("raw_material", []);
    assert Prefix("raw_material") == "RAW";
    OneDigitCode("RAW", 1);
    assert DigitChar(1) == '1';
    assert "RAW" + "000" + ['1'] == "RAW0001";
  }

  lemma MaxNumberAfterFirstCode()
    ensures MaxNumber(["RAW0001"], "RAW") == 1
  {
    var one := ["RAW0001"];
    assert one[..0] == [];
    assert StartsWith("RAW0001", "RAW") && "RAW0001"[3..] == "0001";
    IntCastOfOne();
  }

  lemma FirstCodeHasFourDigits()
    ensures FourDigitSuffixes(["RAW0001"], "RAW")
  {
    forall c | c in ["RAW0001"] && StartsWith(c, "RAW") ensures |c| == 7 && AllDigits(c[3..]) {
      assert c[3..] == "0001";
    }
  }

  /** After RAW0001 the next raw material gets RAW0002, from the generator as written
      and from the intended one alike. */
  lemma SecondRawMaterialCode()
    ensures NextItemCode("raw_material", ["RAW0001"]) == "RAW0002"
    ensures GenerateItemCode("raw_material", ["RAW0001"]) == "RAW0002"
  {
    assert Prefix("raw_material") == "RAW";
    MaxNumberAfterFirstCode();
    OneDigitCode("RAW", 2);
    assert DigitChar(2) == '2';
    assert "RAW" + "000" + ['2'] == "RAW0002";
    FirstCodeHasFourDigits();
    GenerateAgreesWhileFourDigits("raw_material", ["RAW0001"]);
  }

  /** No raw-material code starts with the consumable prefix. */
  lemma RawCodesAreNotConsumable(codes: seq<string>)
    requires codes == ["RAW0001", "RAW0002"]
    ensures forall c :: c in codes ==> !StartsWith(c, Prefix("consumable"))
  {
    assert Prefix("consumable") == "CNS";
    assert "RAW0001"[0] == 'R' && "RAW0002"[0] == 'R' && "CNS"[0] == 'C';
  }

  /** Raw-material codes do not affect consumables: the first consumable gets CNS0001,
      from the generator as written and from the intended one alike. */
  lemma FirstConsumableCode()
    ensures GenerateItemCode("consumable", ["RAW0001", "RAW0002"]) == "CNS0001"
    ensures NextItemCode("consumable", ["RAW0001", "RAW0002"]) == "CNS0001"
  {
    var two := ["RAW0001", "RAW0002"];
    RawCodesAreNotConsumable(two);
    FirstCodeOfPrefix("consumable", two);
    assert MaxNumber(two, "CNS") == 0;
    OneDigitCode("CNS", 1);
    assert DigitChar(1) == '1';
    assert "CNS" + "000" + ['1'] == "CNS0001";
  }
}
