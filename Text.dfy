/**
 * The two JavaScript string built-ins the worker relies on:
 * `String.prototype.trim` and `String.prototype.split(",")`.
 */
module Text {

  /** The characters `trim` strips: ECMAScript WhiteSpace and LineTerminator code points. */
  predicate IsWhitespace(c: char)
  {
    c == '\t' || c == '\n' || c == '\U{000B}' || c == '\U{000C}' || c == '\r' ||
    c == ' ' || c == '\U{00A0}' || c == '\U{1680}' ||
    ('\U{2000}' <= c <= '\U{200A}') ||
    c == '\U{2028}' || c == '\U{2029}' || c == '\U{202F}' || c == '\U{205F}' ||
    c == '\U{3000}' || c == '\U{FEFF}'
  }

  predicate AllWhitespace(s: string)
  {
    forall i :: 0 <= i < |s| ==> IsWhitespace(s[i])
  }

  /** Neither end of `s` is whitespace. */
  predicate IsTrimmed(s: string)
  {
    s == [] || (!IsWhitespace(s[0]) && !IsWhitespace(s[|s| - 1]))
  }

  /** `r` is the piece of `s` that starts at `i`, and only whitespace surrounds it. */
  predicate PaddedAt(s: string, r: string, i: int)
  {
    0 <= i <= |s| - |r| &&
    AllWhitespace(s[..i]) && s[i..i + |r|] == r && AllWhitespace(s[i + |r|..])
  }

  /** Leading whitespace removed. */
  function TrimStart(s: string): (r: string)
    ensures |r| <= |s| && r == s[|s| - |r|..]
    ensures AllWhitespace(s[..|s| - |r|])
    ensures r == [] || !IsWhitespace(r[0])
  {
    if |s| > 0 && IsWhitespace(s[0]) then
      var r := TrimStart(s[1..]);
      assert s[..|s| - |r|] == [s[0]] + s[1..][..|s| - 1 - |r|];
      assert s[|s| - |r|..] == s[1..][|s| - 1 - |r|..];
      r
    else s
  }

  /** Trailing whitespace removed. */
  function TrimEnd(s: string): (r: string)
    ensures |r| <= |s| && r == s[..|r|]
    ensures AllWhitespace(s[|r|..])
    ensures r == [] || !IsWhitespace(r[|r| - 1])
  {
    if |s| > 0 && IsWhitespace(s[|s| - 1]) then
      var r := TrimEnd(s[..|s| - 1]);
      assert s[|r|..] == s[..|s| - 1][|r|..] + [s[|s| - 1]];
      r
    else s
  }

  /** `s.trim()`: the inner piece of `s` with whitespace stripped from both ends. */
  function Trim(s: string): (r: string)
    ensures IsTrimmed(r)
    ensures exists i :: PaddedAt(s, r, i)
  {
    TrimPadding(s);
    TrimEnd(TrimStart(s))
  }

  lemma TrimPadding(s: string)
    ensures PaddedAt(s, TrimEnd(TrimStart(s)), |s| - |TrimStart(s)|)
  {
    var t := TrimStart(s);
    var r := TrimEnd(t);
    var i := |s| - |t|;
    assert s[i..i + |r|] == r by { assert s[i..i + |r|] == s[i..][..|r|]; }
    assert AllWhitespace(s[i + |r|..]) by { assert s[i + |r|..] == s[i..][|r|..]; }
    assert AllWhitespace(s[..i]);
    assert PaddedAt(s, r, i);
  }

  /** What `PaddedAt` says, index by index. */
  lemma PaddingAt(s: string, m: string, i: int)
    requires PaddedAt(s, m, i)
    ensures forall k :: 0 <= k < i ==> IsWhitespace(s[k])
    ensures forall k :: i + |m| <= k < |s| ==> IsWhitespace(s[k])
    ensures forall k :: 0 <= k < |m| ==> s[i + k] == m[k]
  {
    forall k | 0 <= k < i ensures IsWhitespace(s[k]) { assert s[..i][k] == s[k]; }
    forall k | i + |m| <= k < |s| ensures IsWhitespace(s[k]) { assert s[i + |m|..][k - i - |m|] == s[k]; }
    forall k | 0 <= k < |m| ensures s[i + k] == m[k] { assert s[i..i + |m|][k] == s[i + k]; }
  }

  /** At most one trimmed piece of `s` has only whitespace around it. */
  lemma PaddedUnique(s: string, m: string, i: int, r: string, j: int)
    requires PaddedAt(s, m, i) && IsTrimmed(m)
    requires PaddedAt(s, r, j) && IsTrimmed(r)
    ensures m == r
  {
    PaddingAt(s, m, i);
    PaddingAt(s, r, j);
    if m != [] && r != [] {
      // both start at the first non-whitespace character of s
      assert s[i + 0] == m[0] && s[j + 0] == r[0];
      assert i == j;
      // and both end at the last one
      assert s[i + (|m| - 1)] == m[|m| - 1] && s[j + (|r| - 1)] == r[|r| - 1];
      assert |m| == |r|;
    }
  }

  /** A string padded by whitespace on both sides trims to exactly its trimmed core. */
  lemma TrimUnique(s: string, m: string, i: int)
    requires PaddedAt(s, m, i) && IsTrimmed(m)
    ensures Trim(s) == m
  {
    var r := Trim(s);
    var j :| PaddedAt(s, r, j);
    PaddedUnique(s, m, i, r, j);
  }

  /** Trimming twice changes nothing more. */
  lemma TrimIdempotent(s: string)
    ensures Trim(Trim(s)) == Trim(s)
  {
    var r := Trim(s);
    assert PaddedAt(r, r, 0) by {
      assert r[..0] == [] && r[0..|r|] == r && r[|r|..] == [];
    }
    TrimUnique(r, r, 0);
  }

  /** The index of the first comma in `s`, or `|s|` when there is none. */
  function FirstComma(s: string): (i: nat)
    ensures i <= |s| && ',' !in s[..i]
    ensures i < |s| ==> s[i] == ','
  {
    if s == [] || s[0] == ',' then 0
    else
      var i := 1 + FirstComma(s[1..]);
      assert s[..i] == [s[0]] + s[1..][..i - 1];
      i
  }

  /** `s.split(",")`: the comma-separated fields of `s`, empty ones included; never empty. */
  function Split(s: string): (r: seq<string>)
    ensures |r| >= 1
    ensures forall k :: 0 <= k < |r| ==> ',' !in r[k]
    decreases |s|
  {
    var i := FirstComma(s);
    if i == |s| then [s] else [s[..i]] + Split(s[i + 1..])
  }

  /** `parts.join(",")`. */
  function Join(parts: seq<string>): (r: string)
  {
    if |parts| == 0 then ""
    else if |parts| == 1 then parts[0]
    else parts[0] + "," + Join(parts[1..])
  }

  lemma JoinCons(x: string, rest: seq<string>)
    requires |rest| >= 1
    ensures Join([x] + rest) == x + "," + Join(rest)
  {
    assert ([x] + rest)[1..] == rest;
  }

  /** Joining the fields back together gives the original string. */
  lemma {:induction false} JoinSplit(s: string)
    ensures Join(Split(s)) == s
    decreases |s|
  {
    var i := FirstComma(s);
    if i < |s| {
      var rest := s[i + 1..];
      JoinSplit(rest);
      JoinCons(s[..i], Split(rest));
      assert s == s[..i] + "," + rest;
    }
  }

  /** A comma right after a comma-free prefix is the first comma. */
  lemma {:induction false} FirstCommaAfter(a: string, b: string)
    requires ',' !in a
    ensures FirstComma(a + "," + b) == |a|
  {
    if a != [] {
      assert a[0] in a;
      assert (a + "," + b)[1..] == a[1..] + "," + b;
      assert forall c :: c in a[1..] ==> c in a;
      FirstCommaAfter(a[1..], b);
    }
  }

  /** Text after the first comma does not move it. */
  lemma {:induction false} FirstCommaExtend(a: string, b: string)
    requires FirstComma(a) < |a|
    ensures FirstComma(a + b) == FirstComma(a)
  {
    if a[0] != ',' {
      assert (a + b)[1..] == a[1..] + b;
      FirstCommaExtend(a[1..], b);
    }
  }

  /** A string without commas is a single field. */
  lemma SplitNoComma(s: string)
    requires ',' !in s
    ensures Split(s) == [s]
  {
    assert s[..FirstComma(s)] + s[FirstComma(s)..] == s;
  }

  /** A comma in the input separates its fields: left fields, then right fields. */
  lemma {:induction false} SplitConcat(a: string, b: string)
    ensures Split(a + "," + b) == Split(a) + Split(b)
    decreases |a|
  {
    var s := a + "," + b;
    var i := FirstComma(a);
    if i == |a| {
      FirstCommaAfter(a, b);
      SplitNoComma(a);
      assert s[..i] == a && s[i + 1..] == b;
    } else {
      FirstCommaExtend(a, "," + b);
      assert s == a + ("," + b);
      assert FirstComma(s) == i;
      assert s[..i] == a[..i];
      assert s[i + 1..] == a[i + 1..] + "," + b;
      SplitConcat(a[i + 1..], b);
    }
  }

  /** Splitting undoes joining comma-free fields. */
  lemma {:induction false} SplitJoin(parts: seq<string>)
    requires |parts| >= 1
    requires forall k :: 0 <= k < |parts| ==> ',' !in parts[k]
    ensures Split(Join(parts)) == parts
  {
    var first, rest := parts[0], parts[1..];
    assert Split(first) == [first] by { SplitNoComma(first); }
    if |parts| > 1 {
      assert parts == [first] + rest;
      assert Join(parts) == first + "," + Join(rest) by { JoinCons(first, rest); }
      assert Split(Join(rest)) == rest by { SplitJoin(rest); }
      assert Split(first + "," + Join(rest)) == Split(first) + Split(Join(rest)) by {
        SplitConcat(first, Join(rest));
      }
    }
  }
}
