/**
 * The handful of Python string built-ins the core relies on: `strip`, `lower`, `isalnum`,
 * `in` (substring), `str.join`, `str.split`, `str(int)`. Whitespace is Python's full set;
 * letters, digits and case mapping are those of ASCII.
 */
module Strings {

  /**
   * Python's `str.isspace`, the whitespace `strip` removes: the ASCII controls tab to carriage
   * return and the separators 0x1c-0x1f, space, and the Unicode spaces and line separators.
   */
  predicate IsSpace(c: char) {
    if c <= ' ' then '\t' <= c <= '\r' || '\U{1c}' <= c
    else '\U{85}' <= c && IsWideSpace(c)
  }

  /** The whitespace `str.isspace` knows beyond ASCII. */
  predicate IsWideSpace(c: char) {
    c == '\U{85}' || c == '\U{a0}' || c == '\U{1680}' || ('\U{2000}' <= c <= '\U{200a}')
    || c == '\U{2028}' || c == '\U{2029}' || c == '\U{202f}' || c == '\U{205f}' || c == '\U{3000}'
  }

  predicate IsDigit(c: char) {
    '0' <= c <= '9'
  }

  predicate IsAlnum(c: char) {
    IsDigit(c) || ('a' <= c <= 'z') || ('A' <= c <= 'Z')
  }

  function LowerChar(c: char): char {
    if 'A' <= c <= 'Z' then (c as int + 32) as char else c
  }

  /** `s.lower()` */
  function Lower(s: string): string {
    if s == [] then [] else [LowerChar(s[0])] + Lower(s[1..])
  }

  /** Lower-casing maps each character on its own and keeps the length. */
  lemma {:induction false} LowerSpec(s: string)
    ensures |Lower(s)| == |s|
    ensures forall i :: 0 <= i < |s| ==> Lower(s)[i] == LowerChar(s[i])
  {
    if s != [] {
      LowerSpec(s[1..]);
    }
  }

  lemma LowerAppend(a: string, b: string)
    ensures Lower(a + b) == Lower(a) + Lower(b)
  {
    LowerSpec(a);
    LowerSpec(b);
    LowerSpec(a + b);
  }

  /** Truthiness of `s.strip()`: the string holds nothing but whitespace. */
  predicate IsBlank(s: string) {
    forall i :: 0 <= i < |s| ==> IsSpace(s[i])
  }

  /** `s.lstrip()` */
  function StripLeft(s: string): string {
    if s == [] || !IsSpace(s[0]) then s else StripLeft(s[1..])
  }

  /** `s.rstrip()` */
  function StripRight(s: string): string {
    if s == [] || !IsSpace(s[|s| - 1]) then s else StripRight(s[..|s| - 1])
  }

  /** `s.strip()` */
  function Strip(s: string): string {
    StripRight(StripLeft(s))
  }

  /** `lstrip` drops exactly the leading whitespace: a suffix of `s` that does not start with a space. */
  lemma {:induction false} StripLeftSpec(s: string)
    ensures var r := StripLeft(s);
      |r| <= |s| && r == s[|s| - |r|..] && (r == [] || !IsSpace(r[0])) && IsBlank(s[..|s| - |r|])
  {
    if s != [] && IsSpace(s[0]) {
      StripLeftSpec(s[1..]);
      var r := StripLeft(s);
      var n := |s| - |r|;
      assert s[1..][n - 1..] == s[n..];
      assert s[..n] == [s[0]] + s[1..][..n - 1];
      BlankAppend([s[0]], s[1..][..n - 1]);
    }
  }

  /** `rstrip` drops exactly the trailing whitespace: a prefix of `s` that does not end with a space. */
  lemma {:induction false} StripRightSpec(s: string)
    ensures var r := StripRight(s);
      |r| <= |s| && r == s[..|r|] && (r == [] || !IsSpace(r[|r| - 1])) && IsBlank(s[|r|..])
  {
    if s != [] && IsSpace(s[|s| - 1]) {
      var t := s[..|s| - 1];
      StripRightSpec(t);
      var r := StripRight(s);
      assert t[..|r|] == s[..|r|];
      assert s[|r|..] == t[|r|..] + [s[|s| - 1]];
    }
  }

  lemma StripEmptyIffBlank(s: string)
    ensures Strip(s) == [] <==> IsBlank(s)
  {
    var l := StripLeft(s);
    StripLeftSpec(s);
    StripRightSpec(l);
    if l != [] {
      assert l[0] == s[|s| - |l|];
    }
    if IsBlank(s) {
      assert IsBlank(l);
    }
  }

  /** `s.strip(c)` for a single character `c`: a slice of `s` without `c` at either end. */
  function StripChar(s: string, c: char): (r: string)
    ensures |r| <= |s|
    ensures r == [] || (r[0] != c && r[|r| - 1] != c)
    ensures forall k :: 0 <= k < |r| ==> r[k] in s
  {
    var l := LStripChar(s, c);
    var r := RStripChar(l, c);
    assert forall k :: 0 <= k < |r| ==> r[k] == s[|s| - |l| + k];
    r
  }

  /** `s.rstrip(c)` for a single character `c`. */
  function RStripChar(s: string, c: char): (r: string)
    ensures |r| <= |s| && r == s[..|r|]
    ensures r == [] || r[|r| - 1] != c
  {
    if s != [] && s[|s| - 1] == c then RStripChar(s[..|s| - 1], c) else s
  }

  /** `s.lstrip(c)` for a single character `c`. */
  function LStripChar(s: string, c: char): (r: string)
    ensures |r| <= |s| && r == s[|s| - |r|..]
    ensures r == [] || r[0] != c
  {
    if s != [] && s[0] == c then LStripChar(s[1..], c) else s
  }

  /** `t in s` for strings. */
  predicate Contains(s: string, t: string) {
    t <= s || (s != [] && Contains(s[1..], t))
  }

  /** `str(n)` for a natural number. */
  function NatToString(n: nat): (r: string)
    ensures r != [] && forall i :: 0 <= i < |r| ==> IsDigit(r[i])
  {
    if n < 10 then [('0' as int + n) as char]
    else NatToString(n / 10) + [('0' as int + n % 10) as char]
  }

  /** `str(n)` for an integer. */
  function IntToString(n: int): string {
    if n < 0 then "-" + NatToString(-n) else NatToString(n)
  }

  function DigitValue(c: char): nat
    requires IsDigit(c)
  {
    c as int - '0' as int
  }

  /** The value of a string of ASCII digits. */
  function DigitsValue(s: string): nat
    requires forall i :: 0 <= i < |s| ==> IsDigit(s[i])
  {
    if s == [] then 0 else DigitsValue(s[..|s| - 1]) * 10 + DigitValue(s[|s| - 1])
  }

  lemma {:induction false} DigitsValueOfNatToString(n: nat)
    ensures DigitsValue(NatToString(n)) == n
  {
    if n >= 10 {
      var s := NatToString(n);
      assert s[..|s| - 1] == NatToString(n / 10);
      DigitsValueOfNatToString(n / 10);
    }
  }

  /**
   * A run of digits followed by a non-digit is determined by the string it starts: the digits
   * can be read back, and so can what follows them.
   */
  lemma DigitsThenStop(d1: string, r1: string, d2: string, r2: string)
    requires forall i :: 0 <= i < |d1| ==> IsDigit(d1[i])
    requires forall i :: 0 <= i < |d2| ==> IsDigit(d2[i])
    requires r1 != [] && !IsDigit(r1[0]) && r2 != [] && !IsDigit(r2[0])
    requires d1 + r1 == d2 + r2
    ensures d1 == d2 && r1 == r2
  {
    var t := d1 + r1;
    assert t[|d1|] == r1[0] && t[|d2|] == r2[0];
    assert forall i :: 0 <= i < |d1| ==> t[i] == d1[i] && IsDigit(t[i]);
    assert forall i :: 0 <= i < |d2| ==> t[i] == d2[i] && IsDigit(t[i]);
    assert |d1| == |d2|;
    assert d1 == t[..|d1|] == d2;
    assert r1 == t[|d1|..] == r2;
  }

  /** A common prefix can be cancelled. */
  lemma CancelPrefix(a: string, b: string, c: string)
    requires a + b == a + c
    ensures b == c
  {
    assert b == (a + b)[|a|..];
    assert c == (a + c)[|a|..];
  }

  /**
   * A name of the shape `pre{a}mid{b}.ext`, with `mid` starting with a non-digit, gives back
   * both of its numbers.
   */
  lemma TwoNumbersInjective(pre: string, mid: string, a1: nat, b1: nat, e1: string, a2: nat, b2: nat, e2: string)
    requires mid != [] && !IsDigit(mid[0])
    requires pre + (NatToString(a1) + (mid + (NatToString(b1) + ("." + e1))))
          == pre + (NatToString(a2) + (mid + (NatToString(b2) + ("." + e2))))
    ensures a1 == a2 && b1 == b2
  {
    var da1, db1 := NatToString(a1), NatToString(b1);
    var da2, db2 := NatToString(a2), NatToString(b2);
    var q1, q2 := db1 + ("." + e1), db2 + ("." + e2);
    CancelPrefix(pre, da1 + (mid + q1), da2 + (mid + q2));
    DigitsThenStop(da1, mid + q1, da2, mid + q2);
    CancelPrefix(mid, q1, q2);
    DigitsThenStop(db1, "." + e1, db2, "." + e2);
    DigitsValueOfNatToString(a1);
    DigitsValueOfNatToString(a2);
    DigitsValueOfNatToString(b1);
    DigitsValueOfNatToString(b2);
  }

  /** `sep.join(parts)` */
  function Join(sep: string, parts: seq<string>): string {
    if parts == [] then ""
    else if |parts| == 1 then parts[0]
    else parts[0] + sep + Join(sep, parts[1..])
  }

  /** `c * n` for a one-character string `c`. */
  function Repeat(c: char, n: nat): (r: string)
    ensures |r| == n && forall i :: 0 <= i < n ==> r[i] == c
  {
    if n == 0 then "" else [c] + Repeat(c, n - 1)
  }

  /** `s.split(c)` for a single separator character: never empty, pieces free of `c`. */
  function Split(s: string, c: char): (r: seq<string>)
    ensures |r| >= 1
  {
    if s == [] then [""]
    else
      var rest := Split(s[1..], c);
      if s[0] == c then [""] + rest
      else [[s[0]] + rest[0]] + rest[1..]
  }

  /** No piece of `s.split(c)` holds the separator. */
  lemma {:induction false} SplitPieces(s: string, c: char)
    ensures forall k, i :: 0 <= k < |Split(s, c)| && 0 <= i < |Split(s, c)[k]| ==> Split(s, c)[k][i] != c
  {
    if s != [] {
      var rest := Split(s[1..], c);
      SplitPieces(s[1..], c);
      var r := Split(s, c);
      forall k, i | 0 <= k < |r| && 0 <= i < |r[k]| ensures r[k][i] != c {
        if s[0] == c {
          assert r == [""] + rest;
          assert k > 0 && r[k] == rest[k - 1];
        } else if k == 0 {
          assert r[0] == [s[0]] + rest[0];
          if i > 0 {
            assert r[0][i] == rest[0][i - 1];
          }
        } else {
          assert r == [[s[0]] + rest[0]] + rest[1..];
          assert r[k] == rest[1..][k - 1] == rest[k];
        }
      }
    }
  }

  /** Joining the pieces of `s.split(c)` with `c` gives `s` back. */
  lemma {:induction false} SplitJoin(s: string, c: char)
    ensures Join([c], Split(s, c)) == s
  {
    if s != [] {
      var rest := Split(s[1..], c);
      SplitJoin(s[1..], c);
      if s[0] == c {
        JoinAfterEmpty([c], rest);
      } else {
        JoinExtendFirst([c], [s[0]], rest);
      }
      assert [s[0]] + s[1..] == s;
    }
  }

  /** Joining after an empty first piece puts one separator in front. */
  lemma JoinAfterEmpty(sep: string, p: seq<string>)
    requires p != []
    ensures Join(sep, [""] + p) == sep + Join(sep, p)
  {
    assert ([""] + p)[1..] == p;
  }

  /** Growing the first piece grows the joined string by the same prefix. */
  lemma JoinExtendFirst(sep: string, w: string, p: seq<string>)
    requires p != []
    ensures Join(sep, [w + p[0]] + p[1..]) == w + Join(sep, p)
  {
    if |p| > 1 {
      assert ([w + p[0]] + p[1..])[1..] == p[1..];
      assert w + p[0] + sep + Join(sep, p[1..]) == w + (p[0] + sep + Join(sep, p[1..]));
    }
  }

  /** Index of the last occurrence of `c` in `s`, or -1 (`s.rfind(c)`). */
  function RFind(s: string, c: char): (i: int)
    ensures -1 <= i < |s|
    ensures i >= 0 ==> s[i] == c
    ensures forall j :: i < j < |s| ==> s[j] != c
  {
    if s == [] then -1
    else if s[|s| - 1] == c then |s| - 1
    else RFind(s[..|s| - 1], c)
  }

  /** `s.startswith(prefix)` */
  predicate StartsWith(s: string, prefix: string) {
    prefix <= s
  }

  /** `''.join(parts)` */
  function Concat(parts: seq<string>): string {
    if parts == [] then "" else Concat(parts[..|parts| - 1]) + parts[|parts| - 1]
  }

  /** Concatenation regrouped: a step lemma's appends put in the loop's order. */
  lemma AppendAssoc<T>(a: seq<T>, b: seq<T>, c: seq<T>)
    ensures a + b + c == a + (b + c)
  {
  }

  lemma AppendAssoc4<T>(a: seq<T>, b: seq<T>, c: seq<T>, d: seq<T>)
    ensures a + b + c + d == a + (b + c + d)
  {
  }

  lemma BlankAppend(a: string, b: string)
    ensures IsBlank(a + b) <==> IsBlank(a) && IsBlank(b)
  {
    if IsBlank(a) && IsBlank(b) {
      forall i | 0 <= i < |a + b| ensures IsSpace((a + b)[i]) {
        if i >= |a| {
          assert (a + b)[i] == b[i - |a|];
        }
      }
    }
    if IsBlank(a + b) {
      forall i | 0 <= i < |a| ensures IsSpace(a[i]) {
        assert a[i] == (a + b)[i];
      }
      forall i | 0 <= i < |b| ensures IsSpace(b[i]) {
        assert b[i] == (a + b)[|a| + i];
      }
    }
  }

  lemma {:induction false} ConcatAppend(a: seq<string>, b: seq<string>)
    ensures Concat(a + b) == Concat(a) + Concat(b)
    decreases |b|
  {
    if b == [] {
      assert a + b == a;
    } else {
      var init, last := b[..|b| - 1], b[|b| - 1];
      assert (a + b)[..|a + b| - 1] == a + init && (a + b)[|a + b| - 1] == last;
      ConcatAppend(a, init);
      assert Concat(a) + Concat(init) + last == Concat(a) + (Concat(init) + last);
    }
  }

  /** The concatenation is blank exactly when every part is. */
  lemma {:induction false} ConcatBlank(parts: seq<string>)
    ensures IsBlank(Concat(parts)) <==> forall i :: 0 <= i < |parts| ==> IsBlank(parts[i])
  {
    if parts != [] {
      var init := parts[..|parts| - 1];
      ConcatBlank(init);
      BlankAppend(Concat(init), parts[|parts| - 1]);
      assert forall i :: 0 <= i < |init| ==> init[i] == parts[i];
    }
  }

  /** A stripped string that is not empty is not blank: its first character is not a space. */
  lemma StripNonEmptyNotBlank(s: string)
    ensures Strip(s) != [] ==> !IsBlank(Strip(s)) && !IsSpace(Strip(s)[0])
  {
    var l := StripLeft(s);
    var r := StripRight(l);
    StripLeftSpec(s);
    StripRightSpec(l);
    if r != [] {
      assert r[0] == l[0];
    }
  }
}
