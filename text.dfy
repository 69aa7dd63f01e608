/** String operations of the JavaScript runtime that the collider scripts rely on:
    `String.prototype.split` with a one-character separator, `Array.prototype.join`,
    `String.prototype.trim`, `Number.prototype.toString` on integers and `parseInt`
    restricted to optionally signed decimal digit strings. */
module Text {

  // ---------------------------------------------------------------------------
  // split / join
  // ---------------------------------------------------------------------------

  /** `s.split(sep)`: the pieces between occurrences of `sep`, empty pieces kept;
      `"".split(sep)` is `[""]`. */
  function Split(s: string, sep: char): (parts: seq<string>)
    ensures |parts| >= 1
  {
    if s == [] then [[]]
    else
      var rest := Split(s[1..], sep);
      if s[0] == sep then [[]] + rest
      else [[s[0]] + rest[0]] + rest[1..]
  }

  /** The parts in order with `sep` between each two of them. */
  function Join(parts: seq<string>, sep: string): string
  {
    if parts == [] then []
    else if |parts| == 1 then parts[0]
    else parts[0] + sep + Join(parts[1..], sep)
  }

  /** No piece produced by `Split` contains the separator. */
  lemma {:induction false} SplitPiecesFree(s: string, sep: char)
    ensures forall i :: 0 <= i < |Split(s, sep)| ==> sep !in Split(s, sep)[i]
  {
    if s != [] {
      SplitPiecesFree(s[1..], sep);
      var rest := Split(s[1..], sep);
      if s[0] != sep {
        assert Split(s, sep) == [[s[0]] + rest[0]] + rest[1..];
        forall i | 0 <= i < |Split(s, sep)| ensures sep !in Split(s, sep)[i] {
          if i > 0 { assert Split(s, sep)[i] == rest[i]; }
        }
      }
    }
  }

  /** Joining the pieces again with the separator gives back the text. */
  lemma {:induction false} JoinSplit(s: string, sep: char)
    ensures Join(Split(s, sep), [sep]) == s
  {
    if s != [] {
      JoinSplit(s[1..], sep);
      var rest := Split(s[1..], sep);
      if s[0] == sep {
        assert Split(s, sep) == [[]] + rest;
        assert Join([[]] + rest, [sep]) == [] + [sep] + Join(rest, [sep]);
      } else {
        var parts := [[s[0]] + rest[0]] + rest[1..];
        if |rest| == 1 {
          assert Join(parts, [sep]) == [s[0]] + rest[0];
          assert Join(rest, [sep]) == rest[0];
        } else {
          assert Join(parts, [sep]) == [s[0]] + rest[0] + [sep] + Join(parts[1..], [sep]);
          assert parts[1..] == rest[1..];
          assert Join(rest, [sep]) == rest[0] + [sep] + Join(rest[1..], [sep]);
        }
      }
    }
  }

  /** Splitting a join of separator-free pieces gives back the pieces. */
  lemma {:induction false} SplitJoin(parts: seq<string>, sep: char)
    requires |parts| >= 1
    requires forall i :: 0 <= i < |parts| ==> sep !in parts[i]
    ensures Split(Join(parts, [sep]), sep) == parts
  {
    if |parts| == 1 {
      SplitFree(parts[0], sep);
    } else {
      SplitJoin(parts[1..], sep);
      var tail := Join(parts[1..], [sep]);
      SplitPrefix(parts[0], sep, tail);
      assert Join(parts, [sep]) == parts[0] + [sep] + tail;
      assert [parts[0]] + parts[1..] == parts;
    }
  }

  /** A separator-free text splits into itself. */
  lemma {:induction false} SplitFree(s: string, sep: char)
    requires sep !in s
    ensures Split(s, sep) == [s]
  {
    if s != [] {
      SplitFree(s[1..], sep);
      assert [s[0]] + s[1..] == s;
    }
  }

  /** Splitting `p + sep + t` for a separator-free `p` puts `p` first. */
  lemma {:induction false} SplitPrefix(p: string, sep: char, t: string)
    requires sep !in p
    ensures Split(p + [sep] + t, sep) == [p] + Split(t, sep)
  {
    if p == [] {
      assert p + [sep] + t == [sep] + t;
      assert ([sep] + t)[1..] == t;
    } else {
      SplitPrefix(p[1..], sep, t);
      var s := p + [sep] + t;
      assert s[0] == p[0] && s[1..] == p[1..] + [sep] + t;
      assert [p[0]] + p[1..] == p;
    }
  }

  /** A separator appended to the text adds exactly one empty piece at the end. */
  lemma {:induction false} SplitAppendSep(s: string, sep: char)
    ensures Split(s + [sep], sep) == Split(s, sep) + [[]]
  {
    if s == [] {
      assert [] + [sep] == [sep];
      assert [sep][1..] == [];
    } else {
      SplitAppendSep(s[1..], sep);
      assert (s + [sep])[1..] == s[1..] + [sep];
      assert (s + [sep])[0] == s[0];
    }
  }

  // ---------------------------------------------------------------------------
  // trim
  // ---------------------------------------------------------------------------

  /** The characters ECMAScript's `trim` removes: WhiteSpace and LineTerminator. */
  predicate IsJsWhitespace(c: char)
  {
    c == '\t' || c == '\n' || c == '\U{B}' || c == '\U{C}' || c == '\r' || c == ' '
    || c == '\U{A0}' || c == '\U{1680}' || ('\U{2000}' <= c <= '\U{200A}')
    || c == '\U{2028}' || c == '\U{2029}' || c == '\U{202F}' || c == '\U{205F}'
    || c == '\U{3000}' || c == '\U{FEFF}'
  }

  function TrimStart(s: string): (r: string)
    ensures |r| <= |s| && r == s[|s| - |r|..]
    ensures forall i :: 0 <= i < |s| - |r| ==> IsJsWhitespace(s[i])
    ensures r == [] || !IsJsWhitespace(r[0])
  {
    if s != [] && IsJsWhitespace(s[0]) then TrimStart(s[1..]) else s
  }

  function TrimEnd(s: string): (r: string)
    ensures |r| <= |s| && r == s[..|r|]
    ensures forall i :: |r| <= i < |s| ==> IsJsWhitespace(s[i])
    ensures r == [] || !IsJsWhitespace(r[|r| - 1])
  {
    if s != [] && IsJsWhitespace(s[|s| - 1]) then TrimEnd(s[..|s| - 1]) else s
  }

  /** `s.trim()`: `s` with its leading and trailing whitespace removed. */
  function Trim(s: string): (r: string)
  {
    TrimEnd(TrimStart(s))
  }

  /** Trim keeps the middle slice of its input, from the first character that is not
      whitespace on. */
  lemma TrimSlice(s: string)
    ensures var i := |s| - |TrimStart(s)|;
      i + |Trim(s)| <= |s| && Trim(s) == s[i..i + |Trim(s)|]
  {
    var a := TrimStart(s);
    var b := TrimEnd(a);
    var i := |s| - |a|;
    SliceOfSuffix(s, i, |b|);
  }

  lemma SliceOfSuffix(s: string, i: nat, n: nat)
    requires i + n <= |s|
    ensures s[i..][..n] == s[i..i + n]
  {
  }

  /** The text trim keeps neither starts nor ends with whitespace. */
  lemma TrimEnds(s: string)
    ensures Trim(s) == [] || (!IsJsWhitespace(Trim(s)[0]) && !IsJsWhitespace(Trim(s)[|Trim(s)| - 1]))
  {
    var a := TrimStart(s);
    var b := TrimEnd(a);
    if b != [] {
      assert b[0] == a[0];
    }
  }

  /** Everything trim cuts off, on either side, is whitespace. */
  lemma TrimCutsWhitespace(s: string)
    ensures forall k :: 0 <= k < |s| - |TrimStart(s)| ==> IsJsWhitespace(s[k])
    ensures forall k :: |s| - |TrimStart(s)| + |Trim(s)| <= k < |s| ==> IsJsWhitespace(s[k])
  {
    var a := TrimStart(s);
    var i := |s| - |a|;
    forall k | i + |Trim(s)| <= k < |s| ensures IsJsWhitespace(s[k]) {
      assert s[k] == a[k - i];
    }
  }

  /** A text without whitespace at either end is left as it is by trim. */
  lemma TrimNoop(s: string)
    requires s == [] || (!IsJsWhitespace(s[0]) && !IsJsWhitespace(s[|s| - 1]))
    ensures Trim(s) == s
  {
  }

  /** Whitespace put in front of a text is removed again by trim. */
  lemma TrimLeadingSpaces(w: string, s: string)
    requires forall k :: 0 <= k < |w| ==> IsJsWhitespace(w[k])
    requires s == [] || (!IsJsWhitespace(s[0]) && !IsJsWhitespace(s[|s| - 1]))
    ensures Trim(w + s) == s
  {
    TrimStartLeading(w, s);
  }

  lemma {:induction false} TrimStartLeading(w: string, s: string)
    requires forall k :: 0 <= k < |w| ==> IsJsWhitespace(w[k])
    requires s == [] || !IsJsWhitespace(s[0])
    ensures TrimStart(w + s) == s
  {
    if w == [] {
      assert w + s == s;
    } else {
      var ws := w + s;
      assert ws[0] == w[0] && IsJsWhitespace(ws[0]);
      assert ws[1..] == w[1..] + s;
      assert TrimStart(ws) == TrimStart(ws[1..]);
      TrimStartLeading(w[1..], s);
    }
  }

  // ---------------------------------------------------------------------------
  // integers as decimal text
  // ---------------------------------------------------------------------------

  predicate IsDigit(c: char) { '0' <= c <= '9' }

  function DigitChar(d: nat): (c: char)
    requires d < 10
    ensures IsDigit(c)
  {
    ('0' as int + d) as char
  }

  function DigitValue(c: char): (d: nat)
    requires IsDigit(c)
    ensures d < 10
  {
    (c as int - '0' as int)
  }

  lemma DigitRoundTrip(d: nat)
    requires d < 10
    ensures DigitValue(DigitChar(d)) == d
  {
  }

  /** Decimal digits of a natural number, most significant first, no leading zero. */
  function NatToString(n: nat): (s: string)
    ensures |s| >= 1
    ensures forall i :: 0 <= i < |s| ==> IsDigit(s[i])
    ensures |s| > 1 ==> s[0] != '0'
  {
    if n < 10 then [DigitChar(n)] else NatToString(n / 10) + [DigitChar(n % 10)]
  }

  /** `n.toString()` for an integer `n`. */
  function IntToString(n: int): (s: string)
  {
    if n < 0 then ['-'] + NatToString(-n) else NatToString(n)
  }

  /** Value of a non-empty string of decimal digits. */
  function DigitsValue(s: string): nat
    requires forall i :: 0 <= i < |s| ==> IsDigit(s[i])
  {
    if s == [] then 0 else DigitsValue(s[..|s| - 1]) * 10 + DigitValue(s[|s| - 1])
  }

  predicate AllDigits(s: string)
  {
    |s| >= 1 && forall i :: 0 <= i < |s| ==> IsDigit(s[i])
  }

  /** The tokens the model admits in place of `parseInt`'s lenient input:
      an optional sign followed by at least one decimal digit. */
  predicate IsIntToken(t: string)
  {
    AllDigits(t) || (|t| >= 2 && (t[0] == '-' || t[0] == '+') && AllDigits(t[1..]))
  }

  /** `parseInt(t)` on an optionally signed digit string. */
  function ParseInt(t: string): int
    requires IsIntToken(t)
  {
    if AllDigits(t) then DigitsValue(t)
    else if t[0] == '-' then -(DigitsValue(t[1..]) as int)
    else DigitsValue(t[1..])
  }

  lemma {:induction false} NatToStringValue(n: nat)
    ensures DigitsValue(NatToString(n)) == n
  {
    var s := NatToString(n);
    if n >= 10 {
      NatToStringValue(n / 10);
      assert s[..|s| - 1] == NatToString(n / 10);
      DigitRoundTrip(n % 10);
    } else {
      DigitRoundTrip(n);
    }
  }

  /** `parseInt` reads back what `toString` writes. */
  lemma ParseIntToString(n: int)
    ensures IsIntToken(IntToString(n))
    ensures ParseInt(IntToString(n)) == n
  {
    var s := IntToString(n);
    if n < 0 {
      NatToStringValue(-n);
      assert s[1..] == NatToString(-n);
      assert !IsDigit(s[0]);
    } else {
      NatToStringValue(n);
    }
  }

  /** Distinct integers have distinct decimal texts. */
  lemma IntToStringInjective(a: int, b: int)
    requires IntToString(a) == IntToString(b)
    ensures a == b
  {
    ParseIntToString(a);
    ParseIntToString(b);
  }

  /** The decimal text of an integer never has whitespace, a comma or an underscore in it. */
  lemma IntToStringChars(n: int)
    ensures |IntToString(n)| >= 1
    ensures forall i :: 0 <= i < |IntToString(n)| ==>
      IntToString(n)[i] == '-' || IsDigit(IntToString(n)[i])
  {
  }
}
