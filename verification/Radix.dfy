/** Positional numerals in base 10 and 16, printed and read back. */
module Radix {
  import opened Wrappers

  datatype Base = Decimal | Hex

  const DIGITS := "0123456789abcdef"

  function Size(base: Base): nat {
    if base.Decimal? then 10 else 16
  }

  function DigitValue(c: char): Option<nat> {
    if '0' <= c <= '9' then Some((c - '0') as nat)
    else if 'a' <= c <= 'f' then Some((c - 'a') as nat + 10)
    else None
  }

  predicate IsDigit(c: char, base: Base) {
    DigitValue(c).Some? && DigitValue(c).value < Size(base)
  }

  // A number split at its last digit, and joined again.
  function High(v: nat, base: Base): nat {
    if base.Decimal? then v / 10 else v / 16
  }

  function Low(v: nat, base: Base): (d: nat)
    ensures d < Size(base)
  {
    if base.Decimal? then v % 10 else v % 16
  }

  function Join(high: nat, low: nat, base: Base): nat {
    if base.Decimal? then high * 10 + low else high * 16 + low
  }

  lemma {:induction false} JoinSplit(high: nat, low: nat, base: Base)
    requires low < Size(base)
    ensures High(Join(high, low, base), base) == high && Low(Join(high, low, base), base) == low
  {
  }

  lemma {:induction false} SplitJoin(v: nat, base: Base)
    ensures Join(High(v, base), Low(v, base), base) == v
  {
  }

  /** The numeral of `v`, most significant digit first, without leading zeros. */
  function Print(v: nat, base: Base): (s: string)
    ensures s != []
    decreases v
  {
    if v < Size(base) then [DIGITS[v]] else Print(High(v, base), base) + [DIGITS[Low(v, base)]]
  }

  function Read(s: string, base: Base): Option<nat> {
    if s == [] then Some(0)
    else
      match Read(s[..|s| - 1], base)
      case None => None
      case Some(high) =>
        if IsDigit(s[|s| - 1], base) then Some(Join(high, DigitValue(s[|s| - 1]).value, base)) else None
  }

  /** Digits only, at least one, and no leading zero unless it is the only digit. */
  predicate Canonical(s: string, base: Base) {
    && s != []
    && Read(s, base).Some?
    && (s[0] == '0' ==> |s| == 1)
  }

  lemma {:induction false} DigitRoundTrip(d: nat)
    requires d < 16
    ensures DigitValue(DIGITS[d]) == Some(d)
    ensures DIGITS[d] == '0' <==> d == 0
  {
  }

  lemma {:induction false} DigitUnique(c: char)
    requires DigitValue(c).Some?
    ensures DigitValue(c).value < 16 && DIGITS[DigitValue(c).value] == c
  {
  }

  lemma {:induction false} ReadSnoc(s: string, c: char, base: Base)
    requires Read(s, base).Some? && IsDigit(c, base)
    ensures Read(s + [c], base) == Some(Join(Read(s, base).value, DigitValue(c).value, base))
  {
    assert (s + [c])[..|s|] == s;
  }

  lemma {:induction false} CanonicalSnoc(s: string, c: char, base: Base)
    requires Canonical(s, base) && s[0] != '0' && IsDigit(c, base)
    ensures Canonical(s + [c], base) && (s + [c])[0] != '0'
    ensures Read(s + [c], base) == Some(Join(Read(s, base).value, DigitValue(c).value, base))
  {
    ReadSnoc(s, c, base);
  }

  /** Printing is canonical and reading undoes it. */
  lemma {:induction false} ReadPrint(v: nat, base: Base)
    ensures Canonical(Print(v, base), base)
    ensures Read(Print(v, base), base) == Some(v)
    ensures Print(v, base)[0] == '0' <==> v == 0
    decreases v
  {
    if v < Size(base) {
      DigitRoundTrip(v);
      ReadSnoc("", DIGITS[v], base);
      assert "" + [DIGITS[v]] == Print(v, base);
    } else {
      var high, low := High(v, base), Low(v, base);
      SplitJoin(v, base);
      DigitRoundTrip(low);
      ReadPrint(high, base);
      CanonicalSnoc(Print(high, base), DIGITS[low], base);
    }
  }

  lemma {:induction false} PrintJoin(high: nat, d: nat, base: Base)
    requires d < Size(base)
    ensures Print(Join(high, d, base), base) == (if high == 0 then "" else Print(high, base)) + [DIGITS[d]]
  {
    JoinSplit(high, d, base);
  }

  /** Printing undoes reading on canonical numerals. */
  lemma {:induction false} PrintRead(s: string, base: Base)
    requires Canonical(s, base)
    ensures Print(Read(s, base).value, base) == s
    ensures Read(s, base).value == 0 <==> s[0] == '0'
  {
    var m := |s| - 1;
    var high, d := Read(s[..m], base).value, DigitValue(s[m]).value;
    DigitUnique(s[m]);
    DigitRoundTrip(d);
    PrintJoin(high, d, base);
    assert s == s[..m] + [s[m]];
    if m == 0 {
      assert s[..0] == "";
    } else {
      PrintRead(s[..m], base);
    }
  }

  /** Reads canonical numerals only. */
  function Parse(s: string, base: Base): Option<nat> {
    if Canonical(s, base) then Read(s, base) else None
  }

  /** Printing and parsing are inverse: `s` parses to `v` exactly when it is what `v` prints as. */
  lemma {:induction false} ParsePrint(s: string, v: nat, base: Base)
    ensures Parse(s, base) == Some(v) <==> s == Print(v, base)
  {
    ReadPrint(v, base);
    if Canonical(s, base) {
      PrintRead(s, base);
    }
  }
}
