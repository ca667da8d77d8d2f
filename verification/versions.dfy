/**
 * Version strings as the `packaging` library parses and orders them,
 * restricted to release segments: dotted non-negative integers, optionally
 * preceded by one `v`. Ordering ignores trailing zero segments, so `1.0`,
 * `1.0.0` and `v1` all denote the same version.
 */
module Versions {
  import opened Wrappers
  import opened Text

  /** The numeric release segments of a version, most significant first. */
  type Release = seq<nat>

  predicate IsDigit(c: char) {
    '0' <= c <= '9'
  }

  predicate AllDigits(s: string) {
    forall i :: 0 <= i < |s| ==> IsDigit(s[i])
  }

  function DigitsValue(s: string): nat
    requires AllDigits(s)
  {
    if s == [] then 0 else DigitsValue(s[..|s| - 1]) * 10 + (s[|s| - 1] as int - '0' as int)
  }

  /** One release segment: a non-empty run of decimal digits. */
  function ParseNumber(s: string): (r: Option<nat>)
    ensures r.Some? <==> s != [] && AllDigits(s)
  {
    if s != [] && AllDigits(s) then Some(DigitsValue(s)) else None
  }

  function ParseSegments(parts: seq<string>): (r: Option<Release>)
    ensures r.Some? <==> forall k :: 0 <= k < |parts| ==> ParseNumber(parts[k]).Some?
    ensures r.Some? ==>
              |r.value| == |parts| && forall k :: 0 <= k < |parts| ==> Some(r.value[k]) == ParseNumber(parts[k])
  {
    if parts == [] then Some([])
    else
      match (ParseNumber(parts[0]), ParseSegments(parts[1..]))
      case (Some(n), Some(rest)) => Some([n] + rest)
      case _ => None
  }

  /**
   * `version.parse(s)` on the release-only subset: surrounding whitespace is
   * ignored, then one optional `v` or `V`, then dot-separated digit runs.
   * `None` where `packaging` raises, or where the version has parts beyond
   * the release segments.
   */
  function ParseVersion(s: string): (r: Option<Release>)
    ensures r.Some? ==> |r.value| >= 1
  {
    var t := Strip(s);
    var body := if StartsWith(t, "v") || StartsWith(t, "V") then t[1..] else t;
    ParseSegments(Split(body, '.'))
  }

  function DigitChar(d: nat): char
    requires d < 10
  {
    ('0' as int + d) as char
  }

  function NumberString(n: nat): (s: string)
    ensures s != [] && AllDigits(s)
  {
    if n < 10 then [DigitChar(n)] else NumberString(n / 10) + [DigitChar(n % 10)]
  }

  function SegmentStrings(r: Release): (parts: seq<string>)
    ensures |parts| == |r| && forall k :: 0 <= k < |r| ==> parts[k] == NumberString(r[k])
  {
    if r == [] then [] else [NumberString(r[0])] + SegmentStrings(r[1..])
  }

  /** The canonical text of a release: its segments in decimal, joined by dots. */
  function FormatVersion(r: Release): string {
    Join(SegmentStrings(r), '.')
  }

  lemma {:induction false} NumberStringValue(n: nat)
    ensures DigitsValue(NumberString(n)) == n
  {
    if n >= 10 {
      NumberStringValue(n / 10);
      var s := NumberString(n);
      assert s[..|s| - 1] == NumberString(n / 10);
    }
  }

  lemma {:induction false} ParseSegmentStrings(r: Release)
    ensures ParseSegments(SegmentStrings(r)) == Some(r)
  {
    if r != [] {
      var parts := SegmentStrings(r);
      NumberStringValue(r[0]);
      assert ParseNumber(parts[0]) == Some(r[0]);
      ParseSegmentStrings(r[1..]);
      assert parts[1..] == SegmentStrings(r[1..]);
      assert r == [r[0]] + r[1..];
    }
  }

  lemma NoDotInSegments(r: Release)
    ensures forall k :: 0 <= k < |r| ==> '.' !in SegmentStrings(r)[k]
  {
    forall k | 0 <= k < |r| ensures '.' !in SegmentStrings(r)[k] {
      assert AllDigits(NumberString(r[k]));
    }
  }

  lemma FormatStartsWithDigit(r: Release)
    requires |r| >= 1
    ensures FormatVersion(r) != [] && IsDigit(FormatVersion(r)[0])
  {
    var parts := SegmentStrings(r);
    if |parts| > 1 {
      assert FormatVersion(r) == parts[0] + ([ '.' ] + Join(parts[1..], '.'));
    }
  }

  lemma FormatEndsWithDigit(r: Release)
    requires |r| >= 1
    ensures FormatVersion(r) != [] && IsDigit(FormatVersion(r)[|FormatVersion(r)| - 1])
  {
    var parts := SegmentStrings(r);
    var last := parts[|parts| - 1];
    assert last == NumberString(r[|r| - 1]);
    JoinEndsWithLast(parts, '.');
    assert IsDigit(last[|last| - 1]);
  }

  /** A text that starts and ends with a digit is split into segments as it is. */
  lemma ParseDigitLed(s: string)
    requires s != [] && IsDigit(s[0]) && IsDigit(s[|s| - 1])
    ensures ParseVersion(s) == ParseSegments(Split(s, '.'))
  {
    StripUnspaced(s);
    assert !StartsWith(s, "v") && !StartsWith(s, "V");
  }

  /** Formatting a release and parsing it back gives the same release. */
  lemma ParseFormat(r: Release)
    requires |r| >= 1
    ensures ParseVersion(FormatVersion(r)) == Some(r)
  {
    var s := FormatVersion(r);
    var parts := SegmentStrings(r);
    NoDotInSegments(r);
    SplitJoin(parts, '.');
    assert Split(s, '.') == parts;
    FormatStartsWithDigit(r);
    FormatEndsWithDigit(r);
    ParseDigitLed(s);
    ParseSegmentStrings(r);
    assert ParseSegments(parts) == Some(r);
  }
  /**
   * Whitespace around a version is ignored, as `packaging`'s pattern allows:
   * `" 2"` and `"2 "` parse as `2`.
   */
  lemma SurroundingSpaceIgnored(pre: string, s: string, post: string)
    requires AllSpace(pre) && AllSpace(post)
    ensures ParseVersion(pre + s + post) == ParseVersion(s)
  {
    StripSurrounded(pre, s, post);
  }


  /** The release with its trailing zero segments removed, as `packaging` compares it. */
  function Normalize(r: Release): (n: Release)
    ensures |n| <= |r| && n == r[..|n|]
    ensures n == [] || n[|n| - 1] != 0
    ensures forall i :: |n| <= i < |r| ==> r[i] == 0
  {
    if r != [] && r[|r| - 1] == 0 then Normalize(r[..|r| - 1]) else r
  }

  /** Python's tuple ordering: element by element, a proper prefix first. */
  predicate LexLess(a: seq<nat>, b: seq<nat>) {
    if a == [] then b != []
    else if b == [] then false
    else a[0] < b[0] || (a[0] == b[0] && LexLess(a[1..], b[1..]))
  }

  predicate Less(a: Release, b: Release) {
    LexLess(Normalize(a), Normalize(b))
  }

  predicate Same(a: Release, b: Release) {
    Normalize(a) == Normalize(b)
  }

  predicate AtMost(a: Release, b: Release) {
    Less(a, b) || Same(a, b)
  }

  lemma {:induction false} LexTrichotomy(a: seq<nat>, b: seq<nat>)
    ensures LexLess(a, b) || a == b || LexLess(b, a)
    ensures !(LexLess(a, b) && LexLess(b, a))
    ensures !(LexLess(a, b) && a == b)
  {
    if a != [] && b != [] {
      LexTrichotomy(a[1..], b[1..]);
      if a[0] == b[0] && a[1..] == b[1..] {
        assert a == [a[0]] + a[1..] && b == [b[0]] + b[1..];
      }
    }
  }

  lemma {:induction false} LexTransitive(a: seq<nat>, b: seq<nat>, c: seq<nat>)
    requires LexLess(a, b) && LexLess(b, c)
    ensures LexLess(a, c)
  {
    if a != [] && a[0] == b[0] && b[0] == c[0] {
      LexTransitive(a[1..], b[1..], c[1..]);
    }
  }

  /** Exactly one of `a < b`, `a == b` and `b < a` holds for two versions. */
  lemma VersionTrichotomy(a: Release, b: Release)
    ensures Less(a, b) || Same(a, b) || Less(b, a)
    ensures !(Less(a, b) && Less(b, a))
    ensures !(Less(a, b) && Same(a, b))
  {
    LexTrichotomy(Normalize(a), Normalize(b));
  }

  /** `a <= b` fails exactly when `b < a`. */
  lemma NotAtMostIsGreater(a: Release, b: Release)
    ensures !AtMost(a, b) <==> Less(b, a)
  {
    VersionTrichotomy(a, b);
  }

  lemma LessTransitive(a: Release, b: Release, c: Release)
    requires Less(a, b) && Less(b, c)
    ensures Less(a, c)
  {
    LexTransitive(Normalize(a), Normalize(b), Normalize(c));
  }

  /** Appending zero segments does not change the version: `1.0 == 1.0.0`. */
  lemma {:induction false} TrailingZerosIgnored(r: Release, k: nat)
    ensures Same(r, r + seq(k, _ => 0))
  {
    if k > 0 {
      var z := r + seq(k, _ => 0);
      assert z[..|z| - 1] == r + seq(k - 1, _ => 0);
      TrailingZerosIgnored(r, k - 1);
    } else {
      assert r + seq(k, _ => 0) == r;
    }
  }
}
