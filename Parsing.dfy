/**
 * The worker's two parsing helpers: choosing the client identifier from the
 * proxy headers, and reading the recipient list from its configuration string.
 */
module Parsing {
  import opened Wrappers
  import opened Text

  /** `o || ""`: the value of a string-or-null, with `""` standing in for null. */
  function OrEmpty(o: Option<string>): (r: string)
    ensures o.Some? ==> r == o.value
    ensures o.None? ==> r == ""
  {
    o.GetOr("")
  }

  /** JavaScript truthiness of a string-or-null value: present and non-empty. */
  predicate Truthy(o: Option<string>)
    ensures Truthy(o) <==> OrEmpty(o) != ""
    ensures Truthy(o) ==> o.Some?
  {
    o.Some? && o.value != ""
  }

  /** `s.split(",")[0]`: everything before the first comma. */
  function FirstField(s: string): (r: string)
    ensures |r| <= |s| && r == s[..|r|]
    ensures ',' !in r
    ensures |r| == |s| || s[|r|] == ','
  {
    Split(s)[0]
  }

  /**
   * `getClientIp`: the `CF-Connecting-IP` header when it is truthy, otherwise
   * the first entry of `X-Forwarded-For` trimmed, otherwise the empty string.
   */
  function GetClientIp(cfConnectingIp: Option<string>, forwardedFor: Option<string>): (ip: string)
    ensures Truthy(cfConnectingIp) ==> ip == cfConnectingIp.value
    ensures !Truthy(cfConnectingIp) && !Truthy(forwardedFor) ==> ip == ""
    ensures !Truthy(cfConnectingIp) ==> IsTrimmed(ip) && ',' !in ip
    ensures !Truthy(cfConnectingIp) && Truthy(forwardedFor) ==>
              exists i :: PaddedAt(FirstField(forwardedFor.value), ip, i)
  {
    if Truthy(cfConnectingIp) then cfConnectingIp.value
    else if !Truthy(forwardedFor) then ""
    else
      Trim(FirstField(forwardedFor.value))
  }

  /**
   * Without a trusted header, a forwarded-for list `" a ,rest"` yields `a`: the
   * first entry with its surrounding whitespace removed, whatever follows.
   */
  lemma ForwardedForFirstEntry(pad1: string, ip: string, pad2: string, rest: string)
    requires AllWhitespace(pad1) && AllWhitespace(pad2)
    requires IsTrimmed(ip) && ',' !in ip
    ensures GetClientIp(None, Some(pad1 + ip + pad2 + "," + rest)) == ip
    ensures GetClientIp(Some(""), Some(pad1 + ip + pad2)) == ip
  {
    var entry := pad1 + ip + pad2;
    SplitConcat(entry, rest);
    SplitNoComma(entry);
    assert FirstField(entry + "," + rest) == entry;
    assert FirstField(entry) == entry;
    assert PaddedAt(entry, ip, |pad1|) by {
      assert entry[..|pad1|] == pad1;
      assert entry[|pad1|..|pad1| + |ip|] == ip;
      assert entry[|pad1| + |ip|..] == pad2;
    }
    TrimUnique(entry, ip, |pad1|);
  }

  /** `raw.filter(Boolean)` on strings: the non-empty elements, in order. */
  function NonEmpty(parts: seq<string>): (r: seq<string>)
    ensures |r| <= |parts|
    ensures forall k :: 0 <= k < |r| ==> r[k] != "" && r[k] in parts
    ensures forall x :: x in parts && x != "" ==> x in r
  {
    if parts == [] then []
    else if parts[0] == "" then NonEmpty(parts[1..])
    else [parts[0]] + NonEmpty(parts[1..])
  }

  /** `parts.map(f)`. */
  function MapAll(f: string -> string, parts: seq<string>): (r: seq<string>)
    ensures |r| == |parts|
    ensures forall k :: 0 <= k < |parts| ==> r[k] == f(parts[k])
  {
    if parts == [] then []
    else
      var r := [f(parts[0])] + MapAll(f, parts[1..]);
      assert forall k :: 1 <= k < |parts| ==> r[k] == MapAll(f, parts[1..])[k - 1];
      r
  }

  lemma {:induction false} MapAllConcat(f: string -> string, a: seq<string>, b: seq<string>)
    ensures MapAll(f, a + b) == MapAll(f, a) + MapAll(f, b)
  {
    if a != [] {
      assert (a + b)[1..] == a[1..] + b;
      MapAllConcat(f, a[1..], b);
    } else {
      assert a + b == b;
    }
  }

  /** The recipient fields the pipeline keeps: split, trim each, drop the empty ones. */
  function Fields(raw: string): (r: seq<string>)
  {
    NonEmpty(MapAll(Trim, Split(raw)))
  }

  /**
   * `parseUids` on a string: an empty configuration gives no recipients;
   * otherwise each comma-separated field, trimmed, with the empty ones dropped.
   */
  function ParseUids(raw: string): (uids: seq<string>)
    ensures raw == "" ==> uids == []
    ensures forall k :: 0 <= k < |uids| ==> uids[k] != "" && IsTrimmed(uids[k]) && ',' !in uids[k]
  {
    if raw == "" then [] else FieldsWellFormed(raw); Fields(raw)
  }

  lemma FieldsWellFormed(raw: string)
    ensures forall k :: 0 <= k < |Fields(raw)| ==>
              Fields(raw)[k] != "" && IsTrimmed(Fields(raw)[k]) && ',' !in Fields(raw)[k]
  {
    TrimmedFields(Split(raw));
    NonEmptyKeeps(MapAll(Trim, Split(raw)), u => IsTrimmed(u) && ',' !in u);
  }

  /** Trimming comma-free fields leaves them trimmed and comma-free. */
  lemma TrimmedFields(parts: seq<string>)
    requires forall k :: 0 <= k < |parts| ==> ',' !in parts[k]
    ensures forall u :: u in MapAll(Trim, parts) ==> IsTrimmed(u) && ',' !in u
  {
    var trimmed := MapAll(Trim, parts);
    forall u | u in trimmed ensures IsTrimmed(u) && ',' !in u {
      var k :| 0 <= k < |trimmed| && trimmed[k] == u;
      assert u == Trim(parts[k]);
    }
  }

  /** What holds of every element holds of every element `filter(Boolean)` keeps. */
  lemma NonEmptyKeeps(parts: seq<string>, p: string -> bool)
    requires forall u :: u in parts ==> p(u)
    ensures forall k :: 0 <= k < |NonEmpty(parts)| ==> NonEmpty(parts)[k] != "" && p(NonEmpty(parts)[k])
  {
    var r := NonEmpty(parts);
    forall k | 0 <= k < |r| ensures r[k] != "" && p(r[k]) {
      assert r[k] in parts;
    }
  }

  lemma {:induction false} NonEmptyConcat(a: seq<string>, b: seq<string>)
    ensures NonEmpty(a + b) == NonEmpty(a) + NonEmpty(b)
  {
    if a != [] {
      assert (a + b)[1..] == a[1..] + b;
      NonEmptyConcat(a[1..], b);
    } else {
      assert a + b == b;
    }
  }

  /** A single element is kept exactly when it is non-empty; with `NonEmptyConcat` this fixes the whole result. */
  lemma NonEmptyOne(x: string)
    ensures NonEmpty([x]) == if x == "" then [] else [x]
  {
    assert [x][1..] == [];
  }

  /** The empty-input guard agrees with the general pipeline: `"".split(",")` is `[""]`. */
  lemma ParseUidsGuardRedundant(raw: string)
    ensures ParseUids(raw) == Fields(raw)
  {
    if raw == "" {
      assert Split(raw) == [""];
      assert MapAll(Trim, [""]) == [Trim("")];
      assert Trim("") == "";
    }
  }

  /** Recipients of `a,b` are those of `a` followed by those of `b`. */
  lemma ParseUidsConcat(a: string, b: string)
    ensures ParseUids(a + "," + b) == ParseUids(a) + ParseUids(b)
  {
    ParseUidsGuardRedundant(a + "," + b);
    ParseUidsGuardRedundant(a);
    ParseUidsGuardRedundant(b);
    SplitConcat(a, b);
    MapAllConcat(Trim, Split(a), Split(b));
    NonEmptyConcat(MapAll(Trim, Split(a)), MapAll(Trim, Split(b)));
  }

  /** A single field yields its trimmed text, or nothing when that is empty. */
  lemma ParseUidsSingleField(s: string)
    requires ',' !in s
    ensures ParseUids(s) == if Trim(s) == "" then [] else [Trim(s)]
  {
    ParseUidsGuardRedundant(s);
    SplitNoComma(s);
    assert MapAll(Trim, [s]) == [Trim(s)];
  }

  /** A well-formed recipient identifier parses to itself. */
  lemma ParseUidsOne(u: string)
    requires u != "" && IsTrimmed(u) && ',' !in u
    ensures ParseUids(u) == [u]
  {
    ParseUidsSingleField(u);
    assert PaddedAt(u, u, 0) by {
      assert u[..0] == [] && u[0..|u|] == u && u[|u|..] == [];
    }
    TrimUnique(u, u, 0);
  }

  lemma ParseUidsCons(first: string, rest: seq<string>)
    requires |rest| >= 1
    ensures ParseUids(Join([first] + rest)) == ParseUids(first) + ParseUids(Join(rest))
  {
    JoinCons(first, rest);
    ParseUidsConcat(first, Join(rest));
  }

  /** Writing a recipient list out comma-separated and parsing it back gives the same list. */
  lemma {:induction false} ParseUidsJoin(uids: seq<string>)
    requires forall k :: 0 <= k < |uids| ==> uids[k] != "" && IsTrimmed(uids[k]) && ',' !in uids[k]
    ensures ParseUids(Join(uids)) == uids
  {
    if |uids| == 1 {
      assert Join(uids) == uids[0] && uids == [uids[0]];
      ParseUidsOne(uids[0]);
    } else if |uids| > 1 {
      ParseUidsJoin(uids[1..]);
      ParseUidsJoinStep(uids[0], uids[1..]);
      assert uids == [uids[0]] + uids[1..];
    }
  }

  /** The inductive step of `ParseUidsJoin`: a well-formed identifier in front parses to itself, in front. */
  lemma ParseUidsJoinStep(first: string, rest: seq<string>)
    requires |rest| >= 1 && first != "" && IsTrimmed(first) && ',' !in first
    ensures ParseUids(Join([first] + rest)) == [first] + ParseUids(Join(rest))
  {
    ParseUidsCons(first, rest);
    ParseUidsOne(first);
  }
}
