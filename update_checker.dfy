/**
 * The version rule of the update checker: `parse_version` turns a version string into a tuple
 * of at most three integers, `compare_versions` orders two strings by Python's tuple order on
 * those tuples, and `check_for_updates` reports an update when the current version compares
 * below the manifest's. The HTTP request and the JSON decoding are not modelled: the fetched
 * manifest is an input, `None` when the request or the decoding failed.
 */
module UpdateChecking {
  import opened Wrappers
  import opened Strings

  /** A version as `parse_version` returns it: a tuple of Python integers. */
  type Version = seq<int>

  // ---------------------------------------------------------------------------------------
  // Python's int() on a base-10 string
  // ---------------------------------------------------------------------------------------

  /** The body of a base-10 literal `int()` accepts: digits with single underscores between them. */
  predicate IsNumeral(d: string) {
    && d != []
    && IsDigit(d[0])
    && IsDigit(d[|d| - 1])
    && (forall i :: 0 <= i < |d| ==> IsDigit(d[i]) || d[i] == '_')
    && (forall i, j {:trigger d[i], d[j]} :: 0 <= i < |d| && 0 <= j < |d| && j == i + 1 && d[i] == '_' ==> IsDigit(d[j]))
  }

  /** The value of a numeral: its digits read in base 10, underscores skipped. */
  function NumeralValue(d: string): nat
    requires forall i :: 0 <= i < |d| ==> IsDigit(d[i]) || d[i] == '_'
  {
    if d == [] then 0
    else if d[|d| - 1] == '_' then NumeralValue(d[..|d| - 1])
    else NumeralValue(d[..|d| - 1]) * 10 + DigitValue(d[|d| - 1])
  }

  /**
   * The whitespace `int()` ignores around a literal: that of `str.isspace` except the
   * separators 0x1c-0x1f, which `int()` rejects although `str.strip()` removes them.
   */
  predicate IsIntSpace(c: char) {
    IsSpace(c) && !('\U{1c}' <= c <= '\U{1f}')
  }

  predicate IsIntBlank(s: string) {
    forall i :: 0 <= i < |s| ==> IsIntSpace(s[i])
  }

  function IntStripLeft(s: string): string {
    if s == [] || !IsIntSpace(s[0]) then s else IntStripLeft(s[1..])
  }

  function IntStripRight(s: string): string {
    if s == [] || !IsIntSpace(s[|s| - 1]) then s else IntStripRight(s[..|s| - 1])
  }

  /** The literal `int()` reads once the whitespace it ignores is dropped from both ends. */
  function IntStrip(s: string): string {
    IntStripRight(IntStripLeft(s))
  }

  /** Stripping the left end keeps a suffix and drops only `int()` whitespace. */
  lemma {:induction false} IntStripLeftSpec(s: string)
    ensures var r := IntStripLeft(s);
      && |r| <= |s| && r == s[|s| - |r|..] && IsIntBlank(s[..|s| - |r|])
      && (r != [] ==> !IsIntSpace(r[0]))
  {
    if s != [] && IsIntSpace(s[0]) {
      IntStripLeftSpec(s[1..]);
      var r := IntStripLeft(s);
      var n := |s| - |r|;
      assert s[1..][n - 1..] == s[n..];
      assert s[..n] == [s[0]] + s[1..][..n - 1];
      forall i | 0 <= i < n ensures IsIntSpace(s[..n][i]) {
        if i > 0 {
          assert s[..n][i] == s[1..][..n - 1][i - 1];
        }
      }
    }
  }

  /** Stripping the right end keeps a prefix and drops only `int()` whitespace. */
  lemma {:induction false} IntStripRightSpec(s: string)
    ensures var r := IntStripRight(s);
      && |r| <= |s| && r == s[..|r|] && IsIntBlank(s[|r|..])
      && (r != [] ==> !IsIntSpace(r[|r| - 1]))
  {
    if s != [] && IsIntSpace(s[|s| - 1]) {
      var t := s[..|s| - 1];
      IntStripRightSpec(t);
      var r := IntStripRight(s);
      assert t[..|r|] == s[..|r|];
      assert s[|r|..] == t[|r|..] + [s[|s| - 1]];
    }
  }

  /**
   * `int(p)` for a string: surrounding whitespace is ignored, one sign may lead, and the rest
   * must be a numeral; anything else raises `ValueError`, modelled as `None`.
   */
  function ParseInt(p: string): (r: Option<int>)
    ensures r.Some? ==> forall i :: 0 <= i < |p| ==> IsDigit(p[i]) || IsIntSpace(p[i]) || p[i] in "_+-"
  {
    ParseIntChars(p);
    ParseSigned(IntStrip(p))
  }

  /** What `int()` accepts is whitespace around digits, underscores and signs. */
  lemma ParseIntChars(p: string)
    ensures ParseSigned(IntStrip(p)).Some? ==>
      forall i :: 0 <= i < |p| ==> IsDigit(p[i]) || IsIntSpace(p[i]) || p[i] in "_+-"
  {
    var t := IntStrip(p);
    IntStripSlice(p);
    var lo :| 0 <= lo <= |p| - |t| && t == p[lo..lo + |t|] && IsIntBlank(p[..lo]) && IsIntBlank(p[lo + |t|..]);
    if ParseSigned(t).Some? {
      SliceChars(p, t, lo);
    }
  }

  lemma SliceChars(p: string, t: string, lo: nat)
    requires lo <= |p| - |t| && t == p[lo..lo + |t|] && IsIntBlank(p[..lo]) && IsIntBlank(p[lo + |t|..])
    requires forall i :: 0 <= i < |t| ==> IsDigit(t[i]) || t[i] in "_+-"
    ensures forall i :: 0 <= i < |p| ==> IsDigit(p[i]) || IsIntSpace(p[i]) || p[i] in "_+-"
  {
    forall i | 0 <= i < |p| ensures IsDigit(p[i]) || IsIntSpace(p[i]) || p[i] in "_+-" {
      if i < lo {
        assert p[i] == p[..lo][i];
      } else if i < lo + |t| {
        assert p[i] == t[i - lo];
      } else {
        assert p[i] == p[lo + |t|..][i - lo - |t|];
      }
    }
  }

  /** `int()` on a string without surrounding whitespace: an optional sign, then a numeral. */
  function ParseSigned(t: string): (r: Option<int>)
    ensures r.Some? ==> forall i :: 0 <= i < |t| ==> IsDigit(t[i]) || t[i] in "_+-"
  {
    var signed := t != [] && (t[0] == '+' || t[0] == '-');
    var body := if signed then t[1..] else t;
    if !IsNumeral(body) then None
    else
      assert forall i :: 0 <= i < |t| ==> IsDigit(t[i]) || t[i] in "_+-" by {
        forall i | 0 <= i < |t| ensures IsDigit(t[i]) || t[i] in "_+-" {
          if signed && i > 0 {
            assert t[i] == body[i - 1];
          }
        }
      }
      var n: int := NumeralValue(body);
      Some(if signed && t[0] == '-' then -n else n)
  }

  /** `int()` reads a slice of its input and ignores only its whitespace around it. */
  lemma IntStripSlice(s: string)
    ensures var t := IntStrip(s);
      exists lo :: 0 <= lo <= |s| - |t| && t == s[lo..lo + |t|]
        && IsIntBlank(s[..lo]) && IsIntBlank(s[lo + |t|..])
  {
    var l := IntStripLeft(s);
    IntStripLeftSpec(s);
    var t := IntStripRight(l);
    IntStripRightSpec(l);
    var lo := |s| - |l|;
    assert t == s[lo..lo + |t|];
    assert s[lo + |t|..] == l[|t|..];
  }

  lemma {:induction false} NumeralOfDigits(d: string)
    requires forall i :: 0 <= i < |d| ==> IsDigit(d[i])
    ensures NumeralValue(d) == DigitsValue(d)
  {
    if d != [] {
      NumeralOfDigits(d[..|d| - 1]);
    }
  }

  /** A string that is exactly `str(n)` reads back as `n`. */
  lemma ParseNat(n: nat)
    ensures ParseInt(NatToString(n)) == Some(n)
  {
    DigitsValueOfNatToString(n);
    ParseDigits(NatToString(n), n);
  }

  /** `int(str(n)) == n` for every integer, negative ones included. */
  lemma ParseIntOfString(n: int)
    ensures ParseInt(IntToString(n)) == Some(n)
  {
    if n < 0 {
      DigitsValueOfNatToString(-n);
      ParseNegativeDigits(IntToString(n), NatToString(-n), n);
    } else {
      ParseNat(n);
    }
  }

  /** A string of digits parses to its value. */
  lemma ParseDigits(d: string, n: int)
    requires d != [] && (forall i :: 0 <= i < |d| ==> IsDigit(d[i])) && DigitsValue(d) == n
    ensures ParseInt(d) == Some(n)
  {
    DigitsOnlyStrip(d);
    SignedDigits(d, n);
  }

  /** A minus sign followed by digits parses to the negated value of the digits. */
  lemma ParseNegativeDigits(s: string, d: string, n: int)
    requires d != [] && (forall i :: 0 <= i < |d| ==> IsDigit(d[i])) && DigitsValue(d) == -n
    requires s == "-" + d
    ensures ParseInt(s) == Some(n)
  {
    assert s[0] == '-' && s[|s| - 1] == d[|d| - 1];
    StripKeepsTrimmed(s);
    SignedNegativeDigits(s, d, n);
  }

  lemma SignedDigits(d: string, n: int)
    requires d != [] && (forall i :: 0 <= i < |d| ==> IsDigit(d[i])) && DigitsValue(d) == n
    ensures ParseSigned(d) == Some(n)
  {
    assert IsNumeral(d);
    NumeralOfDigits(d);
  }

  lemma SignedNegativeDigits(s: string, d: string, n: int)
    requires d != [] && (forall i :: 0 <= i < |d| ==> IsDigit(d[i])) && DigitsValue(d) == -n
    requires s == "-" + d
    ensures ParseSigned(s) == Some(n)
  {
    assert s[0] == '-' && s[1..] == d && IsNumeral(d);
    NumeralOfDigits(d);
  }

  /** A string of digits is what `int()` reads of it. */
  lemma DigitsOnlyStrip(s: string)
    requires s != [] && forall i :: 0 <= i < |s| ==> IsDigit(s[i])
    ensures IntStrip(s) == s
  {
    StripKeepsTrimmed(s);
  }

  /** A string that neither starts nor ends with whitespace is what `int()` reads of it. */
  lemma StripKeepsTrimmed(s: string)
    requires s != [] && !IsIntSpace(s[0]) && !IsIntSpace(s[|s| - 1])
    ensures IntStrip(s) == s
  {
    assert IntStripLeft(s) == s;
  }

  /** `int()` rejects the separators 0x1c-0x1f next to its digits: `int("1\x1f")` raises. */
  lemma SeparatorRejected(p: string, i: nat)
    requires i < |p| && '\U{1c}' <= p[i] <= '\U{1f}'
    ensures ParseInt(p).None?
  {
    assert !IsDigit(p[i]) && !IsIntSpace(p[i]) && p[i] !in "_+-";
  }

  /** Other whitespace around the digits is ignored: `int(" 5\n")` is 5. */
  lemma SpacesAroundIgnored(d: string, n: nat, before: string, after: string)
    requires d != [] && (forall i :: 0 <= i < |d| ==> IsDigit(d[i])) && DigitsValue(d) == n
    requires IsIntBlank(before) && IsIntBlank(after)
    ensures ParseInt(before + d + after) == Some(n)
  {
    assert before + d + after == before + (d + after);
    LeftStops(before, d + after);
    RightStops(d, after);
    SignedDigits(d, n);
  }

  lemma {:induction false} LeftStops(b: string, rest: string)
    requires IsIntBlank(b) && rest != [] && !IsIntSpace(rest[0])
    ensures IntStripLeft(b + rest) == rest
    decreases |b|
  {
    if b == [] {
      assert b + rest == rest;
    } else {
      assert (b + rest)[1..] == b[1..] + rest;
      LeftStops(b[1..], rest);
    }
  }

  lemma {:induction false} RightStops(rest: string, a: string)
    requires IsIntBlank(a) && rest != [] && !IsIntSpace(rest[|rest| - 1])
    ensures IntStripRight(rest + a) == rest
    decreases |a|
  {
    if a == [] {
      assert rest + a == rest;
    } else {
      assert (rest + a)[..|rest + a| - 1] == rest + a[..|a| - 1];
      RightStops(rest, a[..|a| - 1]);
    }
  }

  // ---------------------------------------------------------------------------------------
  // parse_version
  // ---------------------------------------------------------------------------------------

  function Min(a: nat, b: nat): nat {
    if a <= b then a else b
  }

  /** `version_str.strip().lstrip('v').split('.')` */
  function Pieces(s: string): (r: seq<string>)
    ensures |r| >= 1
  {
    Split(LStripChar(Strip(s), 'v'), '.')
  }

  /** `parts[:3]` */
  function Leading(s: string): (r: seq<string>)
    ensures 1 <= |r| <= 3
  {
    var parts := Pieces(s);
    parts[..Min(3, |parts|)]
  }

  /** `tuple(int(p) for p in parts)`, or `None` as soon as one `int()` raises. */
  function ParseAll(parts: seq<string>): (r: Option<Version>)
    ensures r.Some? ==> |r.value| == |parts|
    ensures r.Some? <==> forall k :: 0 <= k < |parts| ==> ParseInt(parts[k]).Some?
    ensures r.Some? ==> forall k :: 0 <= k < |parts| ==> ParseInt(parts[k]) == Some(r.value[k])
  {
    if parts == [] then Some([])
    else
      match ParseInt(parts[0])
      case None => None
      case Some(n) =>
        match ParseAll(parts[1..])
        case None => None
        case Some(ns) =>
          assert forall k :: 0 < k < |parts| ==> parts[1..][k - 1] == parts[k];
          Some([n] + ns)
  }

  /**
   * `parse_version`: the integers of the first three dot-separated pieces, or `(0, 0, 0)` when
   * one of those pieces is not an integer.
   */
  function ParseVersion(s: string): (r: Version)
    ensures 1 <= |r| <= 3
    ensures (forall k :: 0 <= k < |Leading(s)| ==> ParseInt(Leading(s)[k]).Some?) ==>
      |r| == |Leading(s)| && forall k :: 0 <= k < |r| ==> ParseInt(Leading(s)[k]) == Some(r[k])
    ensures (exists k :: 0 <= k < |Leading(s)| && ParseInt(Leading(s)[k]).None?) ==> r == [0, 0, 0]
  {
    match ParseAll(Leading(s))
    case Some(v) => v
    case None => [0, 0, 0]
  }

  // ---------------------------------------------------------------------------------------
  // Python's tuple order
  // ---------------------------------------------------------------------------------------

  /**
   * `a < b` on tuples: the first differing position decides, and a proper prefix is smaller.
   */
  predicate Less(a: Version, b: Version) {
    if a == [] then b != []
    else if b == [] then false
    else if a[0] != b[0] then a[0] < b[0]
    else Less(a[1..], b[1..])
  }

  lemma {:induction false} LessIrreflexive(a: Version)
    ensures !Less(a, a)
  {
    if a != [] {
      LessIrreflexive(a[1..]);
    }
  }

  lemma {:induction false} LessAsymmetric(a: Version, b: Version)
    ensures Less(a, b) ==> !Less(b, a)
  {
    if a != [] && b != [] && a[0] == b[0] {
      LessAsymmetric(a[1..], b[1..]);
    }
  }

  /** Two different tuples are always ordered one way or the other. */
  lemma {:induction false} LessTotal(a: Version, b: Version)
    ensures a == b || Less(a, b) || Less(b, a)
  {
    if a != [] && b != [] && a[0] == b[0] {
      LessTotal(a[1..], b[1..]);
      if a[1..] == b[1..] {
        assert a == [a[0]] + a[1..] && b == [b[0]] + b[1..];
      }
    }
  }

  lemma {:induction false} LessTransitive(a: Version, b: Version, c: Version)
    requires Less(a, b) && Less(b, c)
    ensures Less(a, c)
  {
    if a != [] && a[0] == b[0] && b[0] == c[0] {
      LessTransitive(a[1..], b[1..], c[1..]);
    }
  }

  /** A tuple is smaller than any of its proper extensions, as `(1, 2) < (1, 2, 0)`. */
  lemma {:induction false} PrefixIsLess(a: Version, b: Version)
    requires b != []
    ensures Less(a, a + b)
  {
    if a != [] {
      assert (a + b)[1..] == a[1..] + b;
      PrefixIsLess(a[1..], b);
    }
  }

  // ---------------------------------------------------------------------------------------
  // compare_versions and is_newer
  // ---------------------------------------------------------------------------------------

  /** `compare_versions(current, remote)`: -1, 0 or 1 as the parsed tuples compare. */
  function CompareVersions(current: string, remote: string): (r: int)
    ensures -1 <= r <= 1
    ensures r == -1 <==> Less(ParseVersion(current), ParseVersion(remote))
    ensures r == 1 <==> Less(ParseVersion(remote), ParseVersion(current))
    ensures r == 0 <==> ParseVersion(current) == ParseVersion(remote)
  {
    var c := ParseVersion(current);
    var v := ParseVersion(remote);
    LessAsymmetric(c, v);
    LessTotal(c, v);
    LessIrreflexive(c);
    if Less(c, v) then -1
    else if Less(v, c) then 1
    else 0
  }

  lemma CompareReflexive(a: string)
    ensures CompareVersions(a, a) == 0
  {
  }

  /** Swapping the arguments negates the comparison. */
  lemma CompareAntisymmetric(a: string, b: string)
    ensures CompareVersions(a, b) == -CompareVersions(b, a)
  {
    LessAsymmetric(ParseVersion(a), ParseVersion(b));
  }

  /** Two versions that are each older than the next are ordered end to end. */
  lemma CompareTransitive(a: string, b: string, c: string)
    requires CompareVersions(a, b) == -1 && CompareVersions(b, c) == -1
    ensures CompareVersions(a, c) == -1
  {
    LessTransitive(ParseVersion(a), ParseVersion(b), ParseVersion(c));
  }

  /** The fields of the update manifest the checker reads; a missing key is `None`. */
  datatype Manifest = Manifest(version: Option<string>, downloadUrl: Option<string>, releaseNotes: Option<string>)

  /** `UpdateInfo` */
  datatype UpdateInfo = UpdateInfo(version: string, downloadUrl: string, releaseNotes: string, isNewer: bool)

  function GetOr(o: Option<string>, default: string): string {
    match o
    case Some(v) => v
    case None => default
  }

  /** `data.get('version', '0.0.0')` */
  function RemoteVersion(m: Manifest): string {
    GetOr(m.version, "0.0.0")
  }

  /**
   * `check_for_updates` once the request is done: `fetched` is `None` when the request or the
   * decoding raised, and the result then is `None` too.
   */
  function CheckForUpdates(currentVersion: string, fetched: Option<Manifest>): (r: Option<UpdateInfo>)
    ensures r.None? <==> fetched.None?
    ensures r.Some? ==>
      && r.value.version == RemoteVersion(fetched.value)
      && r.value.downloadUrl == GetOr(fetched.value.downloadUrl, "")
      && r.value.releaseNotes == GetOr(fetched.value.releaseNotes, "")
      && (r.value.isNewer <==> Less(ParseVersion(currentVersion), ParseVersion(RemoteVersion(fetched.value))))
  {
    match fetched
    case None => None
    case Some(m) =>
      var remote := RemoteVersion(m);
      Some(UpdateInfo(remote, GetOr(m.downloadUrl, ""), GetOr(m.releaseNotes, ""), CompareVersions(currentVersion, remote) < 0))
  }

  // ---------------------------------------------------------------------------------------
  // Properties of the rule
  // ---------------------------------------------------------------------------------------

  /** `"n1.n2.n3"`: natural numbers written with dots between them. */
  function Dotted(ns: seq<nat>): string {
    Join(".", seq(|ns|, i requires 0 <= i < |ns| => NatToString(ns[i])))
  }

  /** Cutting at a separator splits the two sides on their own. */
  lemma {:induction false} SplitAt(a: string, b: string, c: char)
    ensures Split(a + [c] + b, c) == Split(a, c) + Split(b, c)
  {
    if a == [] {
      assert a + [c] + b == [c] + b;
      SplitCons(c, b, c);
    } else {
      var t := a[1..];
      assert a + [c] + b == [a[0]] + (t + [c] + b);
      assert a == [a[0]] + t;
      SplitAt(t, b, c);
      SplitCons(a[0], t + [c] + b, c);
      SplitCons(a[0], t, c);
      if a[0] == c {
        PrependAppend("", Split(t, c), Split(b, c));
      } else {
        ExtendFirst([a[0]], Split(t, c), Split(b, c));
      }
    }
  }

  lemma PrependAppend<T>(x: T, p: seq<T>, q: seq<T>)
    ensures [x] + (p + q) == [x] + p + q
  {
  }

  /** Growing the first piece of `p` commutes with appending `q`. */
  lemma ExtendFirst(w: string, p: seq<string>, q: seq<string>)
    requires p != []
    ensures [w + (p + q)[0]] + (p + q)[1..] == [w + p[0]] + p[1..] + q
  {
    assert (p + q)[0] == p[0] && (p + q)[1..] == p[1..] + q;
  }

  /** One step of `split`: the first character either ends a piece or joins the first piece. */
  lemma SplitCons(x: char, s: string, c: char)
    ensures Split([x] + s, c) ==
      if x == c then [""] + Split(s, c) else [[x] + Split(s, c)[0]] + Split(s, c)[1..]
  {
    assert ([x] + s)[1..] == s;
  }

  lemma {:induction false} SplitWithout(a: string, c: char)
    requires forall i :: 0 <= i < |a| ==> a[i] != c
    ensures Split(a, c) == [a]
  {
    if a != [] {
      SplitWithout(a[1..], c);
      assert [a[0]] + a[1..] == a;
    }
  }

  /** Splitting a dotted number list gives back the numbers' strings. */
  lemma {:induction false} SplitDotted(ns: seq<nat>)
    requires ns != []
    ensures Split(Dotted(ns), '.') == seq(|ns|, i requires 0 <= i < |ns| => NatToString(ns[i]))
    ensures IsDigit(Dotted(ns)[0]) && IsDigit(Dotted(ns)[|Dotted(ns)| - 1])
  {
    var parts := seq(|ns|, i requires 0 <= i < |ns| => NatToString(ns[i]));
    var head := NatToString(ns[0]);
    DigitsHaveNoDot(head);
    if |ns| == 1 {
      SplitWithout(head, '.');
    } else {
      var rest := seq(|ns| - 1, i requires 0 <= i < |ns| - 1 => NatToString(ns[1..][i]));
      assert parts[1..] == rest;
      assert Dotted(ns) == head + "." + Dotted(ns[1..]);
      SplitDotted(ns[1..]);
      SplitAt(head, Dotted(ns[1..]), '.');
      SplitWithout(head, '.');
      assert Dotted(ns)[|Dotted(ns)| - 1] == Dotted(ns[1..])[|Dotted(ns[1..])| - 1];
    }
  }

  lemma DigitsHaveNoDot(s: string)
    requires forall i :: 0 <= i < |s| ==> IsDigit(s[i])
    ensures forall i :: 0 <= i < |s| ==> s[i] != '.'
  {
  }

  /** A well-formed version with one to three numbers parses to exactly those numbers. */
  lemma ParseDotted(ns: seq<nat>)
    requires 1 <= |ns| <= 3
    ensures ParseVersion(Dotted(ns)) == ns
  {
    DottedPieces(ns);
    ParseAllNats(Leading(Dotted(ns)), ns);
  }

  /** Pieces that are the strings of natural numbers all parse, to those numbers. */
  lemma {:induction false} ParseAllNats(parts: seq<string>, ns: seq<nat>)
    requires |parts| == |ns| && forall k :: 0 <= k < |ns| ==> parts[k] == NatToString(ns[k])
    ensures ParseAll(parts) == Some(ns)
  {
    if ns != [] {
      ParseNat(ns[0]);
      ParseAllNats(parts[1..], ns[1..]);
      assert ns == [ns[0]] + ns[1..];
    }
  }

  /** Pieces beyond the third are ignored, so `1.2.3.4` reads as `1.2.3`. */
  lemma ExtraPiecesIgnored(ns: seq<nat>, extra: seq<nat>)
    requires |ns| == 3
    ensures ParseVersion(Dotted(ns + extra)) == ns
  {
    DottedPieces(ns + extra);
    ParseAllNats(Leading(Dotted(ns + extra)), ns);
  }

  /** The pieces of a dotted number list are the numbers' strings: nothing is stripped from it. */
  lemma DottedPieces(ns: seq<nat>)
    requires ns != []
    ensures Pieces(Dotted(ns)) == seq(|ns|, i requires 0 <= i < |ns| => NatToString(ns[i]))
  {
    var s := Dotted(ns);
    SplitDotted(ns);
    assert !IsSpace(s[0]) && !IsSpace(s[|s| - 1]);
    assert Strip(s) == s;
    assert LStripChar(s, 'v') == s;
  }

  /** A piece with a letter or another foreign character is not an integer. */
  lemma ForeignCharacterFails(p: string, i: nat)
    requires i < |p| && !IsDigit(p[i]) && !IsIntSpace(p[i]) && p[i] !in "_+-"
    ensures ParseInt(p).None?
  {
  }

  /** A pre-release suffix on one of the first three pieces turns the whole version into (0, 0, 0). */
  lemma PrereleaseIsZero(s: string, k: nat, i: nat)
    requires k < |Leading(s)| && i < |Leading(s)[k]|
    requires var c := Leading(s)[k][i]; !IsDigit(c) && !IsIntSpace(c) && c !in "_+-"
    ensures ParseVersion(s) == [0, 0, 0]
  {
    ForeignCharacterFails(Leading(s)[k], i);
  }

  /** `1.2` is older than `1.2.0`, although semantic versioning would call them equal. */
  lemma ShortVersionIsOlder(ns: seq<nat>, extra: seq<nat>)
    requires 1 <= |ns| && |ns| + |extra| <= 3 && extra != []
    ensures CompareVersions(Dotted(ns), Dotted(ns + extra)) == -1
  {
    ParseDotted(ns);
    ParseDotted(ns + extra);
    PrefixIsLess(ns, extra);
  }

  lemma DottedZeros()
    ensures Dotted([0, 0, 0]) == "0.0.0"
  {
    assert NatToString(0) == "0";
    var zeros: seq<string> := ["0", "0", "0"];
    assert seq(3, i requires 0 <= i < 3 => NatToString([0, 0, 0][i])) == zeros;
    assert zeros[1..] == ["0", "0"] && zeros[1..][1..] == ["0"];
    assert Join(".", ["0", "0"]) == "0.0";
  }

  /** The default remote version reads as (0, 0, 0). */
  lemma DefaultVersion()
    ensures ParseVersion("0.0.0") == [0, 0, 0]
  {
    ParseDotted([0, 0, 0]);
    DottedZeros();
  }

  /** No tuple of three natural numbers is below (0, 0, 0). */
  lemma NothingBelowZero(c: seq<nat>)
    requires |c| == 3
    ensures !Less(c, [0, 0, 0])
  {
    var v: Version := c;
    if Less(v, [0, 0, 0]) {
      assert v[0] == 0;
      assert Less(v[1..], [0, 0]);
      assert v[1] == 0;
      assert Less(v[2..], [0]);
      assert v[2] == 0;
      assert v == [0, 0, 0];
      LessIrreflexive(v);
    }
  }

  /** A version `current` of three numbers is never behind a manifest without a version. */
  lemma MissingVersionIsNotNewer(current: seq<nat>, m: Manifest)
    requires |current| == 3 && m.version.None?
    ensures CheckForUpdates(Dotted(current), Some(m)).value.isNewer == false
  {
    ParseDotted(current);
    DefaultVersion();
    NothingBelowZero(current);
  }
}
