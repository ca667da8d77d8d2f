/**
 * The part of Python's `str` behaviour that the integration relies on:
 * prefix, suffix and substring tests, `strip()`, `lstrip(c)`, `lower()`,
 * `split(sep)` with a one-character separator and `sep.join(parts)`.
 */
module Text {
  import opened Wrappers

  /** Python truthiness of an optional string: neither `None` nor empty. */
  predicate Truthy(s: Option<string>) {
    s.Some? && s.value != ""
  }

  predicate StartsWith(s: string, prefix: string) {
    |prefix| <= |s| && s[..|prefix|] == prefix
  }

  predicate EndsWith(s: string, suffix: string) {
    |suffix| <= |s| && s[|s| - |suffix|..] == suffix
  }

  /** `sub in s` for strings. */
  predicate Contains(s: string, sub: string) {
    exists i | 0 <= i <= |s| - |sub| :: StartsWith(s[i..], sub)
  }

  /** The characters for which Python's `str.isspace()` holds. */
  predicate IsSpace(c: char) {
    c == ' ' || ('\t' <= c <= '\r') || ('\U{1C}' <= c <= '\U{1F}') || c == '\U{85}' || c == '\U{A0}'
    || c == '\U{1680}' || ('\U{2000}' <= c <= '\U{200A}') || c == '\U{2028}' || c == '\U{2029}'
    || c == '\U{202F}' || c == '\U{205F}' || c == '\U{3000}'
  }

  predicate AllSpace(s: string) {
    forall i :: 0 <= i < |s| ==> IsSpace(s[i])
  }

  /** `s.lstrip()` */
  function StripLeft(s: string): string {
    if s != [] && IsSpace(s[0]) then StripLeft(s[1..]) else s
  }

  /** `s.rstrip()` */
  function StripRight(s: string): string {
    if s != [] && IsSpace(s[|s| - 1]) then StripRight(s[..|s| - 1]) else s
  }

  /** `s.strip()` */
  function Strip(s: string): string {
    StripRight(StripLeft(s))
  }

  lemma {:induction false} StripLeftSuffix(s: string)
    ensures var r := StripLeft(s);
            |r| <= |s| && r == s[|s| - |r|..] && AllSpace(s[..|s| - |r|]) && (r == [] || !IsSpace(r[0]))
  {
    if s != [] && IsSpace(s[0]) {
      StripLeftSuffix(s[1..]);
      var r := StripLeft(s);
      assert s[..|s| - |r|] == [s[0]] + s[1..][..|s| - 1 - |r|];
    }
  }

  lemma {:induction false} StripRightPrefix(s: string)
    ensures var r := StripRight(s);
            |r| <= |s| && r == s[..|r|] && AllSpace(s[|r|..]) && (r == [] || !IsSpace(r[|r| - 1]))
  {
    if s != [] && IsSpace(s[|s| - 1]) {
      StripRightPrefix(s[..|s| - 1]);
      var r := StripRight(s);
      assert s[|r|..] == s[..|s| - 1][|r|..] + [s[|s| - 1]];
    }
  }

  /** Leading whitespace does not change what `lstrip()` leaves. */
  lemma {:induction false} StripLeftSpaces(pre: string, s: string)
    requires AllSpace(pre)
    ensures StripLeft(pre + s) == StripLeft(s)
  {
    if pre != [] {
      assert (pre + s)[0] == pre[0] && IsSpace(pre[0]);
      assert (pre + s)[1..] == pre[1..] + s;
      assert AllSpace(pre[1..]) by {
        forall i | 0 <= i < |pre| - 1 ensures IsSpace(pre[1..][i]) {
          assert pre[1..][i] == pre[i + 1];
        }
      }
      StripLeftSpaces(pre[1..], s);
      assert StripLeft(pre + s) == StripLeft(pre[1..] + s);
    } else {
      assert pre + s == s;
    }
  }

  /** Trailing whitespace does not change what `rstrip()` leaves. */
  lemma {:induction false} StripRightSpaces(s: string, post: string)
    requires AllSpace(post)
    ensures StripRight(s + post) == StripRight(s)
  {
    if post != [] {
      var init := post[..|post| - 1];
      assert (s + post)[|s + post| - 1] == post[|post| - 1] && IsSpace(post[|post| - 1]);
      assert (s + post)[..|s + post| - 1] == s + init;
      assert AllSpace(init) by {
        forall i | 0 <= i < |init| ensures IsSpace(init[i]) {
          assert init[i] == post[i];
        }
      }
      StripRightSpaces(s, init);
      assert StripRight(s + post) == StripRight(s + init);
    } else {
      assert s + post == s;
    }
  }

  /** Once a non-space has been reached, `lstrip()` keeps whatever follows. */
  lemma {:induction false} StripLeftAppend(s: string, t: string)
    requires StripLeft(s) != []
    ensures StripLeft(s + t) == StripLeft(s) + t
  {
    if s != [] && IsSpace(s[0]) {
      assert (s + t)[1..] == s[1..] + t;
      StripLeftAppend(s[1..], t);
    } else {
      assert (s + t)[0] == s[0];
    }
  }

  /** `strip()` ignores any whitespace added around the text. */
  lemma StripSurrounded(pre: string, s: string, post: string)
    requires AllSpace(pre) && AllSpace(post)
    ensures Strip(pre + s + post) == Strip(s)
  {
    assert pre + s + post == pre + (s + post);
    StripLeftSpaces(pre, s + post);
    if StripLeft(s) != [] {
      StripLeftAppend(s, post);
      StripRightSpaces(StripLeft(s), post);
    } else {
      StripLeftSuffix(s);
      assert s[..|s|] == s;
      assert AllSpace(s + post);
      StripLeftSpaces(s + post, []);
      assert s + post + [] == s + post;
    }
  }

  /** A text that starts and ends with a non-space is its own `strip()`. */
  lemma StripUnspaced(s: string)
    requires s != [] && !IsSpace(s[0]) && !IsSpace(s[|s| - 1])
    ensures Strip(s) == s
  {
  }

  /** The last character of a join is the last character of the last part. */
  lemma {:induction false} JoinEndsWithLast(parts: seq<string>, sep: char)
    requires |parts| >= 1 && parts[|parts| - 1] != []
    ensures var j := Join(parts, sep);
            j != [] && j[|j| - 1] == parts[|parts| - 1][|parts[|parts| - 1]| - 1]
  {
    if |parts| > 1 {
      JoinEndsWithLast(parts[1..], sep);
    }
  }

  /**
   * `s.strip()` is the infix of `s` left after dropping its leading and
   * trailing whitespace: it starts and ends with a non-space, and it is
   * empty exactly when `s` is all whitespace.
   */
  lemma StripMeaning(s: string)
    ensures var r := Strip(s);
            && (exists a, b :: 0 <= a <= b <= |s| && r == s[a..b] && AllSpace(s[..a]) && AllSpace(s[b..]))
            && (r == [] || (!IsSpace(r[0]) && !IsSpace(r[|r| - 1])))
            && (r == [] <==> AllSpace(s))
  {
    var l := StripLeft(s);
    StripLeftSuffix(s);
    StripRightPrefix(l);
    var r := StripRight(l);
    var a := |s| - |l|;
    var b := a + |r|;
    assert r == s[a..b];
    assert s[b..] == l[|r|..];
    if r == [] {
      assert AllSpace(l);
      assert s == s[..a] + l;
    }
    assert AllSpace(s[..a]) && AllSpace(s[b..]);
  }

  function Repeat(c: char, n: nat): (r: string)
    ensures |r| == n && forall i :: 0 <= i < n ==> r[i] == c
  {
    if n == 0 then [] else [c] + Repeat(c, n - 1)
  }

  /** `s.lstrip(c)` for a one-character argument: drops every leading `c`. */
  function LStrip(s: string, c: char): (r: string)
    ensures |r| <= |s| && s == Repeat(c, |s| - |r|) + r
    ensures r == [] || r[0] != c
  {
    if s != [] && s[0] == c then
      var r := LStrip(s[1..], c);
      assert [c] + Repeat(c, |s| - 1 - |r|) == Repeat(c, |s| - |r|);
      r
    else
      assert Repeat(c, 0) == [];
      s
  }

  function LowerChar(c: char): char {
    if 'A' <= c <= 'Z' then (c as int - 'A' as int + 'a' as int) as char else c
  }

  /** `s.lower()`, on ASCII letters. */
  function Lower(s: string): (r: string)
    ensures |r| == |s| && forall i :: 0 <= i < |s| ==> r[i] == LowerChar(s[i])
  {
    seq(|s|, i requires 0 <= i < |s| => LowerChar(s[i]))
  }

  /** The first position of `c` in `s`. */
  function IndexOf(s: string, c: char): (r: nat)
    requires c in s
    ensures r < |s| && s[r] == c && c !in s[..r]
  {
    if s[0] == c then 0 else IndexOf(s[1..], c) + 1
  }

  /** `s.split(sep)`: the pieces between occurrences of `sep`, at least one. */
  function Split(s: string, sep: char): (r: seq<string>)
    ensures |r| >= 1
    decreases |s|
  {
    if sep in s then
      var i := IndexOf(s, sep);
      [s[..i]] + Split(s[i + 1..], sep)
    else
      [s]
  }

  /** No piece of `s.split(sep)` holds the separator, and there is one more piece than separators. */
  lemma {:induction false} SplitPieces(s: string, sep: char)
    ensures forall k :: 0 <= k < |Split(s, sep)| ==> sep !in Split(s, sep)[k]
    ensures |Split(s, sep)| == multiset(s)[sep] + 1
    decreases |s|
  {
    if sep in s {
      var i := IndexOf(s, sep);
      SplitPieces(s[i + 1..], sep);
      assert s == s[..i] + [sep] + s[i + 1..];
      assert multiset(s)[sep] == multiset(s[..i])[sep] + 1 + multiset(s[i + 1..])[sep];
      assert multiset(s[..i])[sep] == 0;
    } else {
      assert multiset(s)[sep] == 0;
    }
  }

  /** `sep.join(parts)` */
  function Join(parts: seq<string>, sep: char): string {
    if |parts| == 0 then ""
    else if |parts| == 1 then parts[0]
    else parts[0] + [sep] + Join(parts[1..], sep)
  }

  /** `''.join(parts)` */
  function Concat(parts: seq<string>): string {
    if parts == [] then "" else parts[0] + Concat(parts[1..])
  }

  /** Splitting and joining again with the same separator gives back the string. */
  lemma {:induction false} JoinSplit(s: string, sep: char)
    ensures Join(Split(s, sep), sep) == s
    decreases |s|
  {
    if sep in s {
      var i := IndexOf(s, sep);
      var rest := Split(s[i + 1..], sep);
      var parts := [s[..i]] + rest;
      assert Split(s, sep) == parts;
      assert parts[0] == s[..i] && parts[1..] == rest && |parts| >= 2;
      assert Join(parts, sep) == s[..i] + [sep] + Join(rest, sep);
      JoinSplit(s[i + 1..], sep);
      assert s == s[..i] + [sep] + s[i + 1..];
    }
  }

  /** Joining pieces free of the separator and splitting again gives back the pieces. */
  lemma {:induction false} SplitJoin(parts: seq<string>, sep: char)
    requires |parts| >= 1
    requires forall k :: 0 <= k < |parts| ==> sep !in parts[k]
    ensures Split(Join(parts, sep), sep) == parts
  {
    if |parts| > 1 {
      var s := Join(parts, sep);
      assert s == parts[0] + ([sep] + Join(parts[1..], sep));
      assert s[|parts[0]|] == sep;
      assert s[..|parts[0]|] == parts[0];
      assert sep in s;
      assert IndexOf(s, sep) == |parts[0]|;
      assert s[|parts[0]| + 1..] == Join(parts[1..], sep);
      SplitJoin(parts[1..], sep);
    }
  }
}
