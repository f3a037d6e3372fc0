/** Text helpers shared by the pages: JavaScript's `String.prototype.split` with a one-character
    separator, and decimal rendering and reading of integers (`String(n)`, `n.toString()`, `Number(s)`). */
module Text {
  import opened Wrappers

  /** The pieces of `s` between occurrences of `sep`, in order, as `s.split(sep)` returns them
      for a one-character separator. There is always at least one piece. */
  function Split(s: string, sep: char): (r: seq<string>)
    ensures |r| >= 1
    ensures forall i :: 0 <= i < |r| ==> sep !in r[i]
  {
    if s == [] then [[]]
    else
      var rest := Split(s[1..], sep);
      if s[0] == sep then [[]] + rest
      else [[s[0]] + rest[0]] + rest[1..]
  }

  /** The pieces glued back together with `sep` between them: `pieces.join(sep)`. */
  function Join(pieces: seq<string>, sep: char): string
    requires |pieces| >= 1
  {
    if |pieces| == 1 then pieces[0] else pieces[0] + [sep] + Join(pieces[1..], sep)
  }

  /** `s.split(sep)[i]`: the i-th piece, or `undefined` when there are fewer pieces. */
  function Field(s: string, sep: char, i: nat): (r: Option<string>)
    ensures i == 0 ==> r.Some?
    ensures r.Some? ==> sep !in r.value
  {
    var pieces := Split(s, sep);
    if i < |pieces| then Some(pieces[i]) else None
  }

  /** Splitting and joining again gives back the text. */
  lemma {:induction false} JoinSplit(s: string, sep: char)
    ensures Join(Split(s, sep), sep) == s
  {
    if s != [] {
      JoinSplit(s[1..], sep);
      var rest := Split(s[1..], sep);
      if s[0] == sep {
        assert Split(s, sep) == [[]] + rest;
        assert ([[]] + rest)[1..] == rest;
      } else {
        var r := Split(s, sep);
        assert r == [[s[0]] + rest[0]] + rest[1..];
        if |rest| == 1 {
          assert r == [[s[0]] + rest[0]];
        } else {
          assert r[1..] == rest[1..];
          assert Join(rest, sep) == rest[0] + [sep] + Join(rest[1..], sep);
        }
      }
    }
  }

  /** Splitting text that starts with a separator-free prefix `a`: `a` is glued to the front
      of the first piece of the remainder. */
  lemma {:induction false} SplitPrefix(a: string, b: string, sep: char)
    requires sep !in a
    ensures Split(a + b, sep) == [a + Split(b, sep)[0]] + Split(b, sep)[1..]
  {
    if a != [] {
      SplitPrefix(a[1..], b, sep);
      Rest(a, b);
      Rest(a, Split(b, sep)[0]);
    } else {
      var r := Split(b, sep);
      assert a + b == b;
      assert a + r[0] == r[0];
      assert r == [r[0]] + r[1..];
    }
  }

  lemma Rest(a: string, b: string)
    requires a != []
    ensures (a + b)[0] == a[0] && (a + b)[1..] == a[1..] + b && [a[0]] + (a[1..] + b) == a + b
  {
  }

  /** Text without the separator is a single piece. */
  lemma SplitNoSeparator(a: string, sep: char)
    requires sep !in a
    ensures Split(a, sep) == [a]
  {
    SplitPrefix(a, [], sep);
    assert a + [] == a;
  }

  /** A separator-free prefix, then the separator: the prefix is the first piece and the
      pieces of the remainder follow. */
  lemma SplitAtSeparator(a: string, b: string, sep: char)
    requires sep !in a
    ensures Split(a + [sep] + b, sep) == [a] + Split(b, sep)
  {
    SplitPrefix(a, [sep] + b, sep);
    assert a + [sep] + b == a + ([sep] + b);
    assert ([sep] + b)[1..] == b;
    assert Split([sep] + b, sep) == [[]] + Split(b, sep);
    assert a + [] == a;
    assert ([[]] + Split(b, sep))[1..] == Split(b, sep);
  }

  /** Joining separator-free pieces and splitting again gives back the pieces. */
  lemma {:induction false} SplitJoin(pieces: seq<string>, sep: char)
    requires |pieces| >= 1
    requires forall i :: 0 <= i < |pieces| ==> sep !in pieces[i]
    ensures Split(Join(pieces, sep), sep) == pieces
  {
    if |pieces| == 1 {
      SplitNoSeparator(pieces[0], sep);
    } else {
      SplitJoin(pieces[1..], sep);
      SplitAtSeparator(pieces[0], Join(pieces[1..], sep), sep);
      assert [pieces[0]] + pieces[1..] == pieces;
    }
  }

  /** The first piece is the text up to (not including) the first separator, or all of it. */
  lemma {:induction false} FirstPiece(s: string, sep: char)
    ensures var p := Split(s, sep)[0];
      && p <= s
      && sep !in p
      && (p == s || s[|p|] == sep)
  {
    if s != [] {
      FirstPiece(s[1..], sep);
    }
  }

  /** There is a second piece exactly when the separator occurs. */
  lemma {:induction false} SecondPieceExists(s: string, sep: char)
    ensures |Split(s, sep)| > 1 <==> sep in s
  {
    if s != [] {
      SecondPieceExists(s[1..], sep);
      assert sep in s <==> s[0] == sep || sep in s[1..] by {
        assert s == [s[0]] + s[1..];
      }
    }
  }

  /** `s.split(sep)[1]`: defined exactly when `sep` occurs in `s`; then it is the text between the
      first occurrence and the next one (or the end), and it holds no separator. */
  lemma SecondField(s: string, sep: char)
    ensures Field(s, sep, 1).Some? <==> sep in s
    ensures sep in s ==>
      exists a, b :: sep !in a && s == a + [sep] + b && Field(s, sep, 1) == Some(Split(b, sep)[0])
    ensures Field(s, sep, 1).Some? ==> sep !in Field(s, sep, 1).value
  {
    SecondPieceExists(s, sep);
    if sep in s {
      var a := Split(s, sep)[0];
      FirstPiece(s, sep);
      assert sep !in a;
      assert a != s;
      var b := s[|a| + 1..];
      Around(s, |a|);
      assert s[..|a|] == a && s[|a|] == sep;
      assert s == a + [sep] + b;
      SplitAtSeparator(a, b, sep);
    }
  }

  lemma Around(s: string, k: nat)
    requires k < |s|
    ensures s == s[..k] + [s[k]] + s[k + 1..]
  {
  }

  /** The payload of `s.split(sep)[1]` is a slice of `s`. */
  lemma SecondFieldIsSlice(s: string, sep: char)
    requires Field(s, sep, 1).Some?
    ensures exists i, j :: 0 <= i <= j <= |s| && Field(s, sep, 1).value == s[i..j]
  {
    SecondField(s, sep);
    var a, b :| sep !in a && s == a + [sep] + b && Field(s, sep, 1) == Some(Split(b, sep)[0]);
    var p := Split(b, sep)[0];
    FirstPiece(b, sep);
    assert s[|a| + 1..|a| + 1 + |p|] == p;
  }

  // ---------------------------------------------------------------- decimal numbers

  predicate IsDigit(c: char) { '0' <= c <= '9' }

  predicate AllDigits(s: string) { forall i :: 0 <= i < |s| ==> IsDigit(s[i]) }

  function DigitChar(d: nat): (c: char)
    requires d < 10
    ensures IsDigit(c) && c as int - '0' as int == d
  {
    ('0' as int + d) as char
  }

  /** `n.toString()` for a non-negative integer: its shortest decimal numeral. */
  function NatToDecimal(n: nat): (r: string)
    ensures |r| >= 1 && AllDigits(r)
    ensures |r| > 1 ==> r[0] != '0'
    decreases n
  {
    if n < 10 then [DigitChar(n)] else NatToDecimal(n / 10) + [DigitChar(n % 10)]
  }

  /** The value of a numeral. */
  function DigitsValue(s: string): nat
    requires AllDigits(s)
  {
    if s == [] then 0 else 10 * DigitsValue(s[..|s| - 1]) + (s[|s| - 1] as int - '0' as int)
  }

  /** Reading a decimal numeral back gives the number it was written from. */
  lemma {:induction false} DigitsValueOfDecimal(n: nat)
    ensures DigitsValue(NatToDecimal(n)) == n
    decreases n
  {
    if n >= 10 {
      DigitsValueOfDecimal(n / 10);
      var r := NatToDecimal(n);
      assert r[..|r| - 1] == NatToDecimal(n / 10);
    }
  }

  /** `String(i)` for an integer. */
  function IntToDecimal(i: int): (r: string)
    ensures |r| >= 1
  {
    if i < 0 then "-" + NatToDecimal(-i) else NatToDecimal(i)
  }

  /** `Number(s)` on the canonical integer numerals `String` produces (optional minus sign,
      digits); `None` stands for every other text, which this model does not interpret. */
  function NumberOf(s: string): Option<int>
  {
    if |s| >= 2 && s[0] == '-' && AllDigits(s[1..]) then Some(0 - DigitsValue(s[1..]))
    else if |s| >= 1 && AllDigits(s) then Some(DigitsValue(s))
    else None
  }

  /** `Number(String(i)) == i` for every integer. */
  lemma NumberOfIntToDecimal(i: int)
    ensures NumberOf(IntToDecimal(i)) == Some(i)
  {
    if i < 0 {
      var r := IntToDecimal(i);
      assert r[1..] == NatToDecimal(-i);
      DigitsValueOfDecimal(-i);
    } else {
      DigitsValueOfDecimal(i);
    }
  }

  /** `String` never maps two integers to the same text. */
  lemma IntToDecimalInjective(i: int, j: int)
    requires IntToDecimal(i) == IntToDecimal(j)
    ensures i == j
  {
    NumberOfIntToDecimal(i);
    NumberOfIntToDecimal(j);
  }

  // ---------------------------------------------------------------- parseInt

  /** The white space `parseInt` skips before the number (the ASCII part of it). */
  predicate IsSpace(c: char) { c == ' ' || c == '\t' || c == '\n' || c == '\r' || c == '\U{B}' || c == '\U{C}' }

  function TrimStart(s: string): (r: string)
    ensures |r| <= |s| && r == s[|s| - |r|..]
    ensures r == [] || !IsSpace(r[0])
  {
    if s != [] && IsSpace(s[0]) then TrimStart(s[1..]) else s
  }

  /** The longest run of digits `s` starts with. */
  function DigitPrefix(s: string): (r: string)
    ensures |r| <= |s| && r == s[..|r|] && AllDigits(r)
    ensures |r| < |s| ==> !IsDigit(s[|r|])
  {
    if s != [] && IsDigit(s[0]) then [s[0]] + DigitPrefix(s[1..]) else []
  }

  /** `parseInt(s)` without a radix: leading white space skipped, an optional sign, then the
      longest run of decimal digits; `None` is `NaN`. Text in the hexadecimal form `0x…`
      is read as `None`, which this model does not interpret further. */
  function ParseInt(s: string): Option<int>
  {
    var t := TrimStart(s);
    if t != [] && t[0] == '-' then
      match ParseUnsigned(t[1..])
      case None => None
      case Some(n) => Some(0 - n)
    else if t != [] && t[0] == '+' then ParseUnsigned(t[1..])
    else ParseUnsigned(t)
  }

  /** The digits after the sign. */
  function ParseUnsigned(u: string): Option<nat>
  {
    var digits := DigitPrefix(u);
    if digits == [] then None
    else if |u| >= 2 && u[0] == '0' && (u[1] == 'x' || u[1] == 'X') then None
    else Some(DigitsValue(digits))
  }

  /** `parseInt` reads back the numeral `String` writes when the text after it starts with
      neither a digit nor `x`/`X`: after "0" an `x` would make it a hexadecimal literal. */
  lemma ParseIntOfDecimal(i: int, rest: string)
    requires rest == [] || (!IsDigit(rest[0]) && rest[0] != 'x' && rest[0] != 'X')
    ensures ParseInt(IntToDecimal(i) + rest) == Some(i)
  {
    if i < 0 {
      ParseIntNegative(i, rest);
    } else {
      ParseIntUnsigned(i, rest);
    }
  }

  lemma ParseIntNegative(i: int, rest: string)
    requires i < 0
    requires rest == [] || (!IsDigit(rest[0]) && rest[0] != 'x' && rest[0] != 'X')
    ensures ParseInt(IntToDecimal(i) + rest) == Some(i)
  {
    var u := NatToDecimal(-i) + rest;
    NegativeNumeral(i, rest);
    ParseUnsignedOfNumeral(-i, rest);
    ParseIntMinus(u, -i);
    assert ParseInt(['-'] + u) == Some(i);
  }

  lemma NegativeNumeral(i: int, rest: string)
    requires i < 0
    ensures IntToDecimal(i) + rest == ['-'] + (NatToDecimal(-i) + rest)
  {
  }

  /** A leading minus sign negates what the digits after it read as. */
  lemma ParseIntMinus(u: string, n: nat)
    requires ParseUnsigned(u) == Some(n)
    ensures ParseInt(['-'] + u) == Some(-(n as int))
  {
    var s := ['-'] + u;
    assert s[0] == '-' && s[1..] == u;
    assert TrimStart(s) == s;
  }

  lemma ParseIntUnsigned(n: nat, rest: string)
    requires rest == [] || (!IsDigit(rest[0]) && rest[0] != 'x' && rest[0] != 'X')
    ensures ParseInt(NatToDecimal(n) + rest) == Some(n)
  {
    ParseUnsignedOfNumeral(n, rest);
    var s := NatToDecimal(n) + rest;
    assert TrimStart(s) == s;
  }

  lemma ParseUnsignedOfNumeral(n: nat, rest: string)
    requires rest == [] || (!IsDigit(rest[0]) && rest[0] != 'x' && rest[0] != 'X')
    ensures var u := NatToDecimal(n) + rest;
      && ParseUnsigned(u) == Some(n)
      && u[0] != '-' && u[0] != '+' && !IsSpace(u[0])
  {
    var d := NatToDecimal(n);
    var u := d + rest;
    DigitPrefixOf(d, rest);
    DigitsValueOfDecimal(n);
    assert u[0] == d[0];
    if |u| >= 2 && u[0] == '0' {
      assert |d| == 1;
      assert u[1] == rest[0];
    }
  }

  lemma {:induction false} DigitPrefixOf(d: string, rest: string)
    requires AllDigits(d)
    requires rest == [] || !IsDigit(rest[0])
    ensures DigitPrefix(d + rest) == d
  {
    if d != [] {
      assert (d + rest)[1..] == d[1..] + rest;
      DigitPrefixOf(d[1..], rest);
      assert [d[0]] + d[1..] == d;
    } else {
      assert d + rest == rest;
    }
  }

  /** Text that holds no digit at all reads as `NaN`. */
  lemma ParseIntWithoutDigits(s: string)
    requires forall k :: 0 <= k < |s| ==> !IsDigit(s[k])
    ensures ParseInt(s) == None
  {
    var t := TrimStart(s);
    if t != [] && (t[0] == '-' || t[0] == '+') {
      assert t[1..] == s[|s| - |t| + 1..];
    }
  }
}
