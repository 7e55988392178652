/** The JavaScript string primitives the fund analyzer is built from:
    toLowerCase, trim, includes, split(' '), the digits that a regular
    expression picks out, and the decimal numerals of Number.toString and
    Number.toLocaleString. A string is a sequence of Unicode scalar
    values, so a length counts code points where JavaScript counts UTF-16
    code units; the two agree on text without astral characters. */
module Text {
  import opened Wrappers
  import opened Seqs

  predicate IsUpper(c: char) { 'A' <= c <= 'Z' }

  /** toLowerCase on one character (ASCII letters only). */
  function LowerChar(c: char): char
  {
    if IsUpper(c) then (c as int + 32) as char else c
  }

  /** `s.toLowerCase()`: upper-case letters become lower-case, nothing else
      changes. */
  function ToLower(s: string): (r: string)
    ensures |r| == |s|
    ensures forall i :: 0 <= i < |s| ==> !IsUpper(r[i])
    ensures forall i :: 0 <= i < |s| && !IsUpper(s[i]) ==> r[i] == s[i]
    ensures forall i :: 0 <= i < |s| && IsUpper(s[i]) ==> r[i] as int == s[i] as int + 32
  {
    seq(|s|, i requires 0 <= i < |s| => LowerChar(s[i]))
  }

  /** The characters `String.prototype.trim` removes: white space and line
      terminators. */
  predicate IsWhiteSpace(c: char)
  {
    || c == '\t' || c == '\n' || c == '\U{000B}' || c == '\U{000C}' || c == '\r'
    || c == ' ' || c == '\U{00A0}' || c == '\U{1680}' || '\U{2000}' <= c <= '\U{200A}'
    || c == '\U{2028}' || c == '\U{2029}' || c == '\U{202F}' || c == '\U{205F}'
    || c == '\U{3000}' || c == '\U{FEFF}'
  }

  /** Drops leading white space: the result is the suffix of `s` that
      starts at its first non-white-space character. */
  function TrimStart(s: string): (r: string)
    ensures |r| <= |s| && r == s[|s| - |r|..]
    ensures forall i :: 0 <= i < |s| - |r| ==> IsWhiteSpace(s[i])
    ensures r == [] || !IsWhiteSpace(r[0])
  {
    if s != [] && IsWhiteSpace(s[0]) then TrimStart(s[1..]) else s
  }

  /** Drops trailing white space: the result is the prefix of `s` that ends
      at its last non-white-space character. */
  function TrimEnd(s: string): (r: string)
    ensures |r| <= |s| && r == s[..|r|]
    ensures forall i :: |r| <= i < |s| ==> IsWhiteSpace(s[i])
    ensures r == [] || !IsWhiteSpace(r[|r| - 1])
  {
    if s != [] && IsWhiteSpace(s[|s| - 1]) then TrimEnd(s[..|s| - 1]) else s
  }

  /** `s.trim()`. */
  function Trim(s: string): string
  {
    TrimEnd(TrimStart(s))
  }

  /** `r` is `s` with exactly the white space before `i` and after
      `i + |r|` taken away. */
  ghost predicate TrimmedAt(s: string, r: string, i: nat)
  {
    && i + |r| <= |s| && r == s[i..i + |r|]
    && (forall j :: 0 <= j < i ==> IsWhiteSpace(s[j]))
    && (forall j :: i + |r| <= j < |s| ==> IsWhiteSpace(s[j]))
  }

  /** Trimming removes white space only at the two ends, and trimming again
      changes nothing. */
  lemma TrimIsInfix(s: string)
    ensures exists i :: TrimmedAt(s, Trim(s), i)
    ensures Trim(Trim(s)) == Trim(s)
  {
    var t := TrimStart(s);
    var r := TrimEnd(t);
    var i := |s| - |t|;
    assert r == s[i..i + |r|];
    assert forall j :: i + |r| <= j < |s| ==> s[j] == t[j - i];
    assert r == Trim(s);
    assert TrimmedAt(s, r, i);
    assert r == [] || !IsWhiteSpace(r[0]);
  }

  /** `sub` occurs in `s` at position `i`. */
  predicate OccursAt(s: string, sub: string, i: nat)
  {
    i + |sub| <= |s| && s[i..i + |sub|] == sub
  }

  /** `s.includes(sub)`: `sub` occurs in `s` at some position. */
  predicate Contains(s: string, sub: string)
    ensures Contains(s, sub) <==> exists i: nat :: OccursAt(s, sub, i)
    decreases |s|
  {
    ContainsStep(s, sub);
    |sub| <= |s| && (s[..|sub|] == sub || Contains(s[1..], sub))
  }

  /** `sub` occurs in `s` either at its start or somewhere in `s[1..]`. */
  lemma ContainsStep(s: string, sub: string)
    ensures (exists i: nat :: OccursAt(s, sub, i))
        <==> |sub| <= |s| && (s[..|sub|] == sub || exists i: nat :: OccursAt(s[1..], sub, i))
  {
    if |sub| <= |s| && s[..|sub|] == sub {
      assert OccursAt(s, sub, 0);
    }
    if s != [] {
      forall i: nat | OccursAt(s[1..], sub, i)
        ensures OccursAt(s, sub, i + 1)
      {
        assert s[1..][i..i + |sub|] == s[i + 1..i + 1 + |sub|];
      }
      forall i: nat | OccursAt(s, sub, i) && i > 0
        ensures OccursAt(s[1..], sub, i - 1)
      {
        assert s[1..][i - 1..i - 1 + |sub|] == s[i..i + |sub|];
      }
    }
  }

  /** Whatever occurs in a part of `s` occurs in `s`. */
  lemma ContainsWithin(s: string, part: string, sub: string)
    requires Contains(s, part) && Contains(part, sub)
    ensures Contains(s, sub)
  {
    var i: nat :| OccursAt(s, part, i);
    var j: nat :| OccursAt(part, sub, j);
    assert forall k :: 0 <= k < |sub| ==> s[i + j + k] == s[i..i + |part|][j + k] == sub[k];
    assert OccursAt(s, sub, i + j);
  }

  /** Lower-casing text without capitals changes nothing. */
  lemma ToLowerFixed(s: string)
    requires forall i :: 0 <= i < |s| ==> !IsUpper(s[i])
    ensures ToLower(s) == s
  {
  }

  /** Trimming text without capitals leaves none. */
  lemma TrimKeepsLower(s: string)
    requires forall i :: 0 <= i < |s| ==> !IsUpper(s[i])
    ensures forall i :: 0 <= i < |Trim(s)| ==> !IsUpper(Trim(s)[i])
  {
    var t := TrimStart(s);
    assert forall i :: 0 <= i < |t| ==> t[i] == s[|s| - |t| + i];
    var u := TrimEnd(t);
    assert forall i :: 0 <= i < |u| ==> u[i] == t[i];
  }

  /** `keywords.some(k => s.includes(k))`. */
  predicate ContainsAny(s: string, keywords: seq<string>)
  {
    exists i :: 0 <= i < |keywords| && Contains(s, keywords[i])
  }

  /** `parts.join(' ')`. */
  function Join(parts: seq<string>): string
  {
    if parts == [] then []
    else if |parts| == 1 then parts[0]
    else parts[0] + [' '] + Join(parts[1..])
  }

  /** `s.split(' ')`: the pieces between single spaces, the empty ones
      included; joining them back with spaces gives `s`. */
  function Split(s: string): (parts: seq<string>)
    ensures |parts| >= 1
    ensures forall p :: p in parts ==> ' ' !in p
    ensures Join(parts) == s
  {
    if s == [] then [[]]
    else
      var rest := Split(s[1..]);
      assert s == [s[0]] + s[1..];
      if s[0] == ' ' then [[]] + rest
      else
        assert Join([[s[0]] + rest[0]] + rest[1..]) == [s[0]] + Join(rest) by {
          if |rest| > 1 {
            assert ([[s[0]] + rest[0]] + rest[1..])[1..] == rest[1..];
          }
        }
        [[s[0]] + rest[0]] + rest[1..]
  }

  /** A word without spaces stays at the head of the first piece. */
  lemma {:induction false} SplitWordPrefix(w: string, t: string)
    requires ' ' !in w
    ensures Split(w + t) == [w + Split(t)[0]] + Split(t)[1..]
  {
    if w != [] {
      SplitWordPrefix(w[1..], t);
      assert (w + t)[1..] == w[1..] + t;
      assert (w + t)[0] == w[0];
      assert [w[0]] + (w[1..] + Split(t)[0]) == w + Split(t)[0];
    } else {
      assert w + t == t;
      assert w + Split(t)[0] == Split(t)[0];
      assert Split(t) == [Split(t)[0]] + Split(t)[1..];
    }
  }

  /** The other half of the round trip: splitting a join of space-free
      pieces gives the pieces back. */
  lemma {:induction false} SplitJoin(parts: seq<string>)
    requires |parts| >= 1
    requires forall p :: p in parts ==> ' ' !in p
    ensures Split(Join(parts)) == parts
  {
    if |parts| == 1 {
      SplitWordPrefix(parts[0], []);
      assert parts[0] + [] == parts[0];
    } else {
      var rest := parts[1..];
      SplitJoin(rest);
      assert Join(parts) == parts[0] + ([' '] + Join(rest));
      SplitWordPrefix(parts[0], [' '] + Join(rest));
      assert ([' '] + Join(rest))[1..] == Join(rest);
      assert Split([' '] + Join(rest)) == [[]] + rest;
      assert parts[0] + [] == parts[0];
      assert parts == [parts[0]] + rest;
    }
  }

  predicate IsDigit(c: char) { '0' <= c <= '9' }

  function DigitValue(c: char): nat
    requires IsDigit(c)
  {
    c as int - '0' as int
  }

  function DigitChar(d: nat): (c: char)
    requires d < 10
    ensures IsDigit(c) && DigitValue(c) == d
  {
    ('0' as int + d) as char
  }

  predicate AllDigits(s: string)
  {
    forall i :: 0 <= i < |s| ==> IsDigit(s[i])
  }

  /** `parseInt` of a string of decimal digits. */
  function DecimalValue(s: string): nat
    requires AllDigits(s)
  {
    if s == [] then 0 else DecimalValue(s[..|s| - 1]) * 10 + DigitValue(s[|s| - 1])
  }

  /** The decimal numeral of `n`, as `Number.prototype.toString` writes an
      integer: it reads back as `n` and has no leading zero. */
  function NatToString(n: nat): (r: string)
    ensures r != [] && AllDigits(r)
    ensures DecimalValue(r) == n
    ensures r[0] == '0' ==> n == 0
  {
    if n < 10 then [DigitChar(n)]
    else
      var init := NatToString(n / 10);
      assert (init + [DigitChar(n % 10)])[..|init|] == init;
      init + [DigitChar(n % 10)]
  }

  function Pad3(n: nat): (r: string)
    requires n < 1000
    ensures |r| == 3 && AllDigits(r) && DecimalValue(r) == n
  {
    var r := [DigitChar(n / 100), DigitChar(n / 10 % 10), DigitChar(n % 10)];
    var a, b := [r[0]], [r[0], r[1]];
    assert DecimalValue(a) == n / 100 by { assert a[..0] == []; }
    assert DecimalValue(b) == n / 100 * 10 + n / 10 % 10 by { assert b[..1] == a; }
    assert r[..2] == b;
    r
  }

  predicate NotComma(c: char) { c != ',' }

  /** Commas stand exactly every fourth place counted from the right end of
      `r`, never in front: the en-US grouping of a numeral. */
  predicate CommasEveryFour(r: string)
  {
    && |r| % 4 != 0
    && forall i :: 0 <= i < |r| ==> (r[i] == ',' <==> 0 < i && (|r| - i) % 4 == 0)
  }

  /** `n.toLocaleString()` in the en-US locale: the numeral of `n` with a
      comma before every group of three digits counted from the right, and
      none in front. */
  function Grouped(n: nat): (r: string)
    ensures Filter(r, NotComma) == NatToString(n)
    ensures CommasEveryFour(r)
  {
    if n < 1000 then
      var r := NatToString(n);
      ShortNumeral(n);
      FilterAllKept(r, NotComma);
      ShortGrouped(r);
      r
    else
      var head := Grouped(n / 1000);
      var tail := Pad3(n % 1000);
      UngroupStep(head, tail);
      NumeralSplit(n);
      CommaStep(head, tail);
      head + [','] + tail
  }

  /** Three digits or fewer need no comma. */
  lemma ShortGrouped(r: string)
    requires 0 < |r| <= 3 && AllDigits(r)
    ensures CommasEveryFour(r)
  {
  }

  /** A number below 1000 has at most three digits. */
  lemma ShortNumeral(n: nat)
    requires n < 1000
    ensures |NatToString(n)| <= 3
  {
    if n >= 10 {
      assert NatToString(n) == NatToString(n / 10) + [DigitChar(n % 10)];
      if n / 10 >= 10 {
        assert NatToString(n / 10) == NatToString(n / 100) + [DigitChar(n / 10 % 10)];
      }
    }
  }

  /** The numeral of `n` is the numeral of its thousands followed by its
      last three digits. */
  lemma NumeralSplit(n: nat)
    requires n >= 1000
    ensures NatToString(n) == NatToString(n / 1000) + Pad3(n % 1000)
  {
    var q, m := n / 1000, n % 1000;
    var d2, d1, d0 := m / 100, m / 10 % 10, m % 10;
    DropDigit(n / 10, n % 10);
    DropDigit(n / 100, n / 10 % 10);
    DropDigit(q, n / 100 % 10);
    ThousandsDigits(n);
    assert NatToString(n) == NatToString(n / 10) + [DigitChar(d0)];
    assert NatToString(n / 10) == NatToString(n / 100) + [DigitChar(d1)];
    assert NatToString(n / 100) == NatToString(q) + [DigitChar(d2)];
  }

  lemma DropDigit(a: nat, b: nat)
    requires b < 10
    ensures (10 * a + b) / 10 == a && (10 * a + b) % 10 == b
  {
  }

  /** The last three digits of `n` are the digits of `n % 1000`. */
  lemma ThousandsDigits(n: nat)
    ensures n / 10 / 10 == n / 100 && n / 100 / 10 == n / 1000
    ensures n % 10 == n % 1000 % 10
    ensures n / 10 % 10 == n % 1000 / 10 % 10
    ensures n / 100 % 10 == n % 1000 / 100
  {
    var q, m := n / 1000, n % 1000;
    var d2, d1, d0 := m / 100, m / 10 % 10, m % 10;
    assert m == 100 * d2 + 10 * d1 + d0;
    assert n == 10 * (100 * q + 10 * d2 + d1) + d0;
    DropDigit(100 * q + 10 * d2 + d1, d0);
    assert n / 10 == 10 * (10 * q + d2) + d1;
    DropDigit(10 * q + d2, d1);
    assert n / 100 == 10 * q + d2;
    DropDigit(q, d2);
  }

  /** Appending a comma and three digits to a grouped numeral keeps the
      commas exactly every fourth place from the right. */
  lemma CommaStep(head: string, tail: string)
    requires head != [] && CommasEveryFour(head)
    requires |tail| == 3 && AllDigits(tail)
    ensures CommasEveryFour(head + [','] + tail)
  {
    var r := head + [','] + tail;
    forall i | 0 <= i < |r|
      ensures r[i] == ',' <==> 0 < i && (|r| - i) % 4 == 0
    {
      if i < |head| {
        assert r[i] == head[i];
        assert (|r| - i) % 4 == (|head| - i) % 4;
      } else if i > |head| {
        assert r[i] == tail[i - |head| - 1];
      }
    }
  }

  lemma UngroupStep(head: string, tail: string)
    requires AllDigits(tail)
    ensures Filter(head + [','] + tail, NotComma) == Filter(head, NotComma) + tail
  {
    var mid := [','] + tail;
    assert head + [','] + tail == head + mid;
    FilterConcat(head, mid, NotComma);
    assert Filter(mid, NotComma) == tail by {
      FilterConcat([','], tail, NotComma);
      FilterSingle(',', NotComma);
      FilterAllKept(tail, NotComma);
    }
  }

  /** A filter that drops nothing of `s` returns `s`. */
  lemma {:induction false} FilterAllKept<T>(s: seq<T>, p: T -> bool)
    requires forall x :: x in s ==> p(x)
    ensures Filter(s, p) == s
  {
    if s != [] {
      FilterAllKept(s[..|s| - 1], p);
      assert s == s[..|s| - 1] + [s[|s| - 1]];
    }
  }

  /** `/\$?\d+/.test(s)`: the pattern matches exactly when `s` holds a
      digit, the dollar sign being optional. */
  predicate HasDigit(s: string)
  {
    exists i :: 0 <= i < |s| && IsDigit(s[i])
  }

  /** The longest prefix of `s` made of digits. */
  function DigitPrefix(s: string): (r: string)
    ensures |r| <= |s| && r == s[..|r|] && AllDigits(r)
    ensures |r| == |s| || !IsDigit(s[|r|])
  {
    if s != [] && IsDigit(s[0]) then [s[0]] + DigitPrefix(s[1..]) else []
  }

  /** The position of the first digit of `s`, if any. */
  function FirstDigit(s: string): (r: Option<nat>)
    ensures r.None? <==> !HasDigit(s)
    ensures r.Some? ==> r.value < |s| && IsDigit(s[r.value])
    ensures r.Some? ==> forall j :: 0 <= j < r.value ==> !IsDigit(s[j])
  {
    if s == [] then None
    else if IsDigit(s[0]) then Some(0)
    else
      match FirstDigit(s[1..])
      case None =>
        assert forall i :: 1 <= i < |s| ==> s[i] == s[1..][i - 1];
        None
      case Some(i) =>
        assert s[i + 1] == s[1..][i];
        Some(i + 1)
  }

  /** `parseInt` of the group of `s.match(/\$?(\d+)/)`: the leftmost match
      is at the first digit (or the dollar sign just before it), and the
      greedy group is the whole run of digits from there. */
  function FirstNumber(s: string): (r: Option<nat>)
    ensures r.None? <==> !HasDigit(s)
    ensures r.Some? ==>
      exists i :: 0 <= i < |s| && IsDigit(s[i])
                  && (forall j :: 0 <= j < i ==> !IsDigit(s[j]))
                  && r.value == DecimalValue(DigitPrefix(s[i..]))
  {
    match FirstDigit(s)
    case None => None
    case Some(i) => Some(DecimalValue(DigitPrefix(s[i..])))
  }
}
