/**
 * The .NET string operations the generator relies on: `Split` on a one-character
 * separator, `Trim`, `Join`, `Replace` on characters and an ordinal `StartsWith`.
 */
module Strings {

  /** `char.IsWhiteSpace`: U+0009 to U+000D, the space separators, U+0085,
      and the line and paragraph separators. */
  predicate IsWhiteSpace(c: char) {
    || c == ' '
    || ('\t' <= c <= '\r')
    || c == '\U{0085}'
    || c == '\U{00A0}'
    || c == '\U{1680}'
    || ('\U{2000}' <= c <= '\U{200A}')
    || c == '\U{2028}'
    || c == '\U{2029}'
    || c == '\U{202F}'
    || c == '\U{205F}'
    || c == '\U{3000}'
  }

  ghost predicate AllWhiteSpace(s: string) {
    forall i :: 0 <= i < |s| ==> IsWhiteSpace(s[i])
  }

  /** Neither end of `s` is white space. */
  predicate IsTrimmed(s: string) {
    |s| == 0 || (!IsWhiteSpace(s[0]) && !IsWhiteSpace(s[|s| - 1]))
  }

  /** `s.TrimStart()`: the suffix of `s` that starts at its first non-white-space character. */
  function TrimStart(s: string): (r: string)
    ensures |r| <= |s|
  {
    if |s| > 0 && IsWhiteSpace(s[0]) then TrimStart(s[1..]) else s
  }

  /** `TrimStart` drops a white-space prefix and stops at the first other character. */
  lemma {:induction false} TrimStartMeaning(s: string)
    ensures var r := TrimStart(s);
      && r == s[|s| - |r|..]
      && AllWhiteSpace(s[..|s| - |r|])
      && (|r| == 0 || !IsWhiteSpace(r[0]))
    decreases |s|
  {
    if |s| > 0 && IsWhiteSpace(s[0]) {
      TrimStartMeaning(s[1..]);
      var r := TrimStart(s);
      assert s[..|s| - |r|] == [s[0]] + s[1..][..|s| - 1 - |r|];
    }
  }

  /** `s.TrimEnd()`: the prefix of `s` that ends at its last non-white-space character. */
  function TrimEnd(s: string): (r: string)
    ensures |r| <= |s|
  {
    if |s| > 0 && IsWhiteSpace(s[|s| - 1]) then TrimEnd(s[..|s| - 1]) else s
  }

  /** `TrimEnd` drops a white-space suffix and stops at the last other character. */
  lemma {:induction false} TrimEndMeaning(s: string)
    ensures var r := TrimEnd(s);
      && r == s[..|r|]
      && AllWhiteSpace(s[|r|..])
      && (|r| == 0 || !IsWhiteSpace(r[|r| - 1]))
    decreases |s|
  {
    if |s| > 0 && IsWhiteSpace(s[|s| - 1]) {
      var init := s[..|s| - 1];
      TrimEndMeaning(init);
      var r := TrimEnd(s);
      assert s[|r|..] == init[|r|..] + [s[|s| - 1]];
    }
  }

  /** `s.Trim()`. */
  function Trim(s: string): (r: string)
    ensures |r| <= |s|
  {
    TrimEnd(TrimStart(s))
  }

  /** Neither end of a trimmed string is white space. */
  lemma TrimIsTrimmed(s: string)
    ensures IsTrimmed(Trim(s))
  {
    TrimStartMeaning(s);
    TrimEndMeaning(TrimStart(s));
  }

  /** `Trim` removes white space from both ends and nothing else: its result is a
      slice of `s` with only white space outside it. */
  lemma TrimBounds(s: string) returns (i: nat, j: nat)
    ensures i <= j <= |s|
    ensures Trim(s) == s[i..j]
    ensures AllWhiteSpace(s[..i]) && AllWhiteSpace(s[j..])
    ensures IsTrimmed(s[i..j])
  {
    TrimIsTrimmed(s);
    var t := TrimStart(s);
    TrimStartMeaning(s);
    TrimEndMeaning(t);
    i := |s| - |t|;
    j := i + |Trim(s)|;
    assert t == s[i..];
    assert Trim(s) == t[..j - i] == s[i..j];
    assert t[j - i..] == s[j..];
  }

  lemma {:induction false} TrimStartSkips(x: string, s: string)
    requires AllWhiteSpace(x)
    ensures TrimStart(x + s) == TrimStart(s)
    decreases |x|
  {
    if |x| > 0 {
      assert (x + s)[1..] == x[1..] + s;
      TrimStartSkips(x[1..], s);
    } else {
      assert x + s == s;
    }
  }

  lemma {:induction false} TrimEndSkips(s: string, y: string)
    requires AllWhiteSpace(y)
    ensures TrimEnd(s + y) == TrimEnd(s)
    decreases |y|
  {
    if |y| > 0 {
      assert (s + y)[..|s + y| - 1] == s + y[..|y| - 1];
      TrimEndSkips(s, y[..|y| - 1]);
    } else {
      assert s + y == s;
    }
  }

  /** The trimmed kernel of a string is unique: padding a trimmed string with white
      space on either side and trimming gives it back. */
  lemma TrimOfPadded(x: string, m: string, y: string)
    requires AllWhiteSpace(x) && AllWhiteSpace(y) && IsTrimmed(m)
    ensures Trim(x + m + y) == m
  {
    assert x + m + y == x + (m + y);
    TrimStartSkips(x, m + y);
    if |m| == 0 {
      assert m + y == y + [];
      TrimStartSkips(y, []);
    } else {
      assert TrimStart(m + y) == m + y;
      TrimEndSkips(m, y);
    }
  }

  lemma TrimLeading(x: string, s: string)
    requires AllWhiteSpace(x)
    ensures Trim(x + s) == Trim(s)
  {
    var i, j := TrimBounds(s);
    var pre := x + s[..i];
    assert AllWhiteSpace(pre);
    assert x + s == pre + s[i..j] + s[j..];
    TrimOfPadded(pre, s[i..j], s[j..]);
  }

  lemma TrimTrailing(s: string, y: string)
    requires AllWhiteSpace(y)
    ensures Trim(s + y) == Trim(s)
  {
    var i, j := TrimBounds(s);
    var post := s[j..] + y;
    assert AllWhiteSpace(post);
    assert s + y == s[..i] + s[i..j] + post;
    TrimOfPadded(s[..i], s[i..j], post);
  }

  lemma TrimOfTrimmed(s: string)
    requires IsTrimmed(s)
    ensures Trim(s) == s
  {
    assert [] + s + [] == s;
    TrimOfPadded([], s, []);
  }

  /** Number of occurrences of `c` in `s`. */
  function Count(s: string, c: char): nat {
    if |s| == 0 then 0 else (if s[0] == c then 1 else 0) + Count(s[1..], c)
  }

  /** `string.Join(sep, parts)`. */
  function Join(parts: seq<string>, sep: string): string {
    if |parts| == 0 then ""
    else if |parts| == 1 then parts[0]
    else parts[0] + sep + Join(parts[1..], sep)
  }

  /** `s.Split(c)` with the default options: every occurrence of `c` ends a field,
      empty fields are kept, so there is one field more than there are separators,
      no field contains `c`, and joining the fields with `c` gives `s` back. */
  function Split(s: string, c: char): (parts: seq<string>)
    ensures |parts| == Count(s, c) + 1
    ensures forall i :: 0 <= i < |parts| ==> c !in parts[i]
    ensures Join(parts, [c]) == s
    decreases |s|
  {
    if |s| == 0 then [""]
    else
      var rest := Split(s[1..], c);
      if s[0] == c then
        assert Join([""] + rest, [c]) == [c] + Join(rest, [c]);
        [""] + rest
      else
        var parts := [[s[0]] + rest[0]] + rest[1..];
        assert parts[1..] == rest[1..];
        assert |rest| > 1 ==> Join(rest, [c]) == rest[0] + [c] + Join(rest[1..], [c]);
        parts
  }

  lemma {:induction false} SplitNoSeparator(s: string, c: char)
    requires c !in s
    ensures Split(s, c) == [s]
    decreases |s|
  {
    if |s| > 0 {
      SplitNoSeparator(s[1..], c);
    }
  }

  /** Text without the separator in front of `s` joins the first field. */
  lemma {:induction false} SplitPrefix(x: string, s: string, c: char)
    requires c !in x
    ensures Split(x + s, c) == [x + Split(s, c)[0]] + Split(s, c)[1..]
    decreases |x|
  {
    if |x| == 0 {
      var p := Split(s, c);
      assert x + s == s && x + p[0] == p[0];
      assert [p[0]] + p[1..] == p;
    } else {
      assert (x + s)[1..] == x[1..] + s;
      SplitPrefix(x[1..], s, c);
      var p, q := Split(s, c), Split(x[1..] + s, c);
      assert q[0] == x[1..] + p[0] && q[1..] == p[1..];
      assert [x[0]] + (x[1..] + p[0]) == x + p[0];
    }
  }

  /** Text without the separator after `s` joins the last field. */
  lemma {:induction false} SplitSuffix(s: string, y: string, c: char)
    requires c !in y
    ensures var p := Split(s, c);
      Split(s + y, c) == p[..|p| - 1] + [p[|p| - 1] + y]
    decreases |s|
  {
    if |s| == 0 {
      assert s + y == y;
      SplitNoSeparator(y, c);
    } else {
      assert (s + y)[1..] == s[1..] + y;
      SplitSuffix(s[1..], y, c);
      var r := Split(s[1..], c);
      var q := Split(s[1..] + y, c);
      assert q == r[..|r| - 1] + [r[|r| - 1] + y];
      if s[0] == c {
        SplitSuffixSeparator(r, q, y);
      } else {
        SplitSuffixJoined(s[0], r, q, y);
      }
    }
  }

  lemma SplitSuffixSeparator(r: seq<string>, q: seq<string>, y: string)
    requires |r| >= 1
    requires q == r[..|r| - 1] + [r[|r| - 1] + y]
    ensures var p := [""] + r;
      [""] + q == p[..|p| - 1] + [p[|p| - 1] + y]
  {
    var p := [""] + r;
    assert p[..|p| - 1] == [""] + r[..|r| - 1];
  }

  lemma SplitSuffixJoined(x: char, r: seq<string>, q: seq<string>, y: string)
    requires |r| >= 1
    requires q == r[..|r| - 1] + [r[|r| - 1] + y]
    ensures var p := [[x] + r[0]] + r[1..];
      [[x] + q[0]] + q[1..] == p[..|p| - 1] + [p[|p| - 1] + y]
  {
    var p := [[x] + r[0]] + r[1..];
    if |r| == 1 {
      assert [x] + (r[0] + y) == [x] + r[0] + y;
    } else {
      assert q[1..] == r[1..|r| - 1] + [r[|r| - 1] + y];
      assert p[..|p| - 1] == [[x] + r[0]] + r[1..|r| - 1];
    }
  }

  /** Splitting what `Join` built gives the parts back, provided none contains the separator. */
  lemma {:induction false} SplitJoin(parts: seq<string>, c: char)
    requires |parts| >= 1
    requires forall i :: 0 <= i < |parts| ==> c !in parts[i]
    ensures Split(Join(parts, [c]), c) == parts
    decreases |parts|
  {
    if |parts| == 1 {
      SplitNoSeparator(parts[0], c);
    } else {
      var rest := Join(parts[1..], [c]);
      SplitJoin(parts[1..], c);
      assert ([c] + rest)[1..] == rest;
      assert Split([c] + rest, c) == [""] + parts[1..];
      assert Join(parts, [c]) == parts[0] + ([c] + rest);
      SplitPrefix(parts[0], [c] + rest, c);
      assert parts[0] + "" == parts[0];
      assert [parts[0]] + parts[1..] == parts;
    }
  }

  /** `s.Replace(a, b)` on characters. */
  function Replace(s: string, a: char, b: char): (r: string)
    ensures |r| == |s|
    ensures a != b ==> a !in r
    ensures forall i :: 0 <= i < |s| && s[i] != a ==> r[i] == s[i]
    ensures forall i :: 0 <= i < |s| && s[i] == a ==> r[i] == b
  {
    seq(|s|, i requires 0 <= i < |s| => if s[i] == a then b else s[i])
  }

  /** Ordinal `s.StartsWith(prefix)`. */
  predicate StartsWith(s: string, prefix: string) {
    |prefix| <= |s| && s[..|prefix|] == prefix
  }

  /** The concatenation of `ss`, as a `StringBuilder` appending them one by one builds it. */
  function Concat(ss: seq<string>): string {
    if |ss| == 0 then "" else Concat(ss[..|ss| - 1]) + ss[|ss| - 1]
  }

  /** `from s in ss select s.Trim()`. */
  function TrimAll(ss: seq<string>): (r: seq<string>)
    ensures |r| == |ss|
    ensures forall i :: 0 <= i < |ss| ==> r[i] == Trim(ss[i])
  {
    seq(|ss|, i requires 0 <= i < |ss| => Trim(ss[i]))
  }
}
