/**
 REST route labels (metrics/method_sanitizer.go): a request path becomes a route template by dropping its
 query, replacing the segments that vary between requests and bounding its depth. A character stands for
 a byte.
 */
module RestLabel {

  const VAR: string := ":var"
  const MORE: string := "..."
  const MAX_SEGMENTS: nat := 12

  // ------------------------------------------------------------------ segments

  predicate Digit(c: char) { '0' <= c <= '9' }
  predicate Lower(c: char) { 'a' <= c <= 'z' }
  predicate Alphanumeric(c: char) { Digit(c) || Lower(c) || 'A' <= c <= 'Z' }
  predicate HexDigit(c: char) { Digit(c) || 'a' <= c <= 'f' || 'A' <= c <= 'F' }
  predicate RouteChar(c: char) { Alphanumeric(c) || c in {'_', '-', '.', '~'} }

  predicate All(s: string, p: char -> bool) { forall i :: 0 <= i < |s| ==> p(s[i]) }

  function IndexOf(s: string, c: char): (i: int)
    ensures -1 <= i < |s|
    ensures i >= 0 ==> s[i] == c && c !in s[..i]
    ensures i == -1 <==> c !in s
  {
    if s == [] then -1
    else if s[0] == c then 0
    else
      var j := IndexOf(s[1..], c);
      assert s == [s[0]] + s[1..];
      if j < 0 then -1 else assert s[..j + 1] == [s[0]] + s[1..][..j]; j + 1
  }

  lemma {:induction false} FirstIndex(s: string, c: char, k: nat)
    requires k < |s| && s[k] == c && forall i :: 0 <= i < k ==> s[i] != c
    ensures IndexOf(s, c) == k
  {
    if k > 0 {
      FirstIndex(s[1..], c, k - 1);
    }
  }

  predicate HexWithPrefix(s: string) {
    |s| > 2 && s[0] == '0' && (s[1] == 'x' || s[1] == 'X') && All(s[2..], HexDigit)
  }

  predicate Bech32Like(s: string) {
    var one := IndexOf(s, '1');
    |s| >= 14 && 2 <= one <= 8 && All(s[..one], Lower) && |s| - one - 1 >= 10 && All(s[one + 1..], Alphanumeric)
  }

  predicate Dynamic(s: string) {
    s != "" && (All(s, Digit) || HexWithPrefix(s) || Bech32Like(s) || (|s| >= 24 && All(s, Alphanumeric)))
  }

  /** What becomes of a segment. */
  function Template(s: string): string {
    if s == "" then "" else if Dynamic(s) || !All(s, RouteChar) then VAR else s
  }

  // What varies between requests, position by position.

  ghost predicate IsNumber(s: string) { forall i :: 0 <= i < |s| ==> '0' <= s[i] <= '9' }

  ghost predicate IsHash(s: string) {
    && |s| > 2 && s[0] == '0' && (s[1] == 'x' || s[1] == 'X')
    && forall i :: 2 <= i < |s| ==> '0' <= s[i] <= '9' || 'a' <= s[i] <= 'f' || 'A' <= s[i] <= 'F'
  }

  /** Two to eight lowercase letters, a 1 at `one`, and ten or more letters and digits. */
  ghost predicate AddressAt(s: string, one: nat) {
    && 2 <= one <= 8 && one + 11 <= |s| && s[one] == '1'
    && (forall i :: 0 <= i < one ==> 'a' <= s[i] <= 'z')
    && (forall i :: one < i < |s| ==> '0' <= s[i] <= '9' || 'a' <= s[i] <= 'z' || 'A' <= s[i] <= 'Z')
  }

  ghost predicate IsAddress(s: string) { |s| >= 14 && exists one: nat :: AddressAt(s, one) }

  ghost predicate IsPlain(s: string) {
    forall i :: 0 <= i < |s| ==> '0' <= s[i] <= '9' || 'a' <= s[i] <= 'z' || 'A' <= s[i] <= 'Z'
  }

  ghost predicate IsRoute(s: string) {
    forall i :: 0 <= i < |s| ==>
      || '0' <= s[i] <= '9' || 'a' <= s[i] <= 'z' || 'A' <= s[i] <= 'Z'
      || s[i] == '_' || s[i] == '-' || s[i] == '.' || s[i] == '~'
  }

  /** Numbers, 0x hashes, addresses, opaque identifiers of 24 letters and digits or more, and anything with
      a byte that does not occur in routes. */
  ghost predicate Varies(s: string) {
    IsNumber(s) || IsHash(s) || IsAddress(s) || (|s| >= 24 && IsPlain(s)) || !IsRoute(s)
  }

  lemma HashMeans(s: string)
    ensures HexWithPrefix(s) <==> IsHash(s)
  {
    if |s| > 2 {
      assert forall i :: 2 <= i < |s| ==> s[2..][i - 2] == s[i];
    }
  }

  lemma AddressMeans(s: string)
    ensures Bech32Like(s) <==> IsAddress(s)
  {
    if Bech32Like(s) {
      Bech32IsAddress(s);
    }
    if one: nat :| |s| >= 14 && AddressAt(s, one) {
      AddressIsBech32(s, one);
    }
  }

  lemma AddressIsBech32(s: string, one: nat)
    requires |s| >= 14 && AddressAt(s, one)
    ensures Bech32Like(s)
  {
    FirstIndex(s, '1', one);
  }

  lemma Bech32IsAddress(s: string)
    requires Bech32Like(s)
    ensures AddressAt(s, IndexOf(s, '1'))
  {
    var one := IndexOf(s, '1');
    assert forall i :: 0 <= i < one ==> s[..one][i] == s[i];
    assert forall i :: one < i < |s| ==> s[one + 1..][i - one - 1] == s[i];
  }

  lemma ClassesMean(s: string)
    ensures (All(s, Digit) <==> IsNumber(s)) && (All(s, Alphanumeric) <==> IsPlain(s)) && (All(s, RouteChar) <==> IsRoute(s))
  {
  }

  /** Exactly the segments that vary become the placeholder; an empty one and a route word stay. */
  lemma TemplateReplacesWhatVaries(s: string)
    ensures Template(s) == if s != "" && Varies(s) then ":var" else s
  {
    ClassesMean(s);
    HashMeans(s);
    AddressMeans(s);
    assert Dynamic(s) <==> s != "" && (IsNumber(s) || IsHash(s) || IsAddress(s) || (|s| >= 24 && IsPlain(s)));
  }

  /** A short word of letters, dashes and underscores stays as it is. */
  lemma RouteWordStays(s: string)
    requires 0 < |s| < 24 && forall i :: 0 <= i < |s| ==> 'a' <= s[i] <= 'z' || s[i] == '_' || s[i] == '-'
    ensures Template(s) == s
  {
    TemplateReplacesWhatVaries(s);
    assert !('0' <= s[0] <= '9');
    assert !IsNumber(s) && IsRoute(s);
    if one: nat :| AddressAt(s, one) {
      assert false;
    }
  }

  lemma TemplateIsStable(s: string)
    ensures Template(Template(s)) == Template(s) && Template(MORE) == MORE
    ensures '/' !in s ==> '/' !in Template(s)
  {
    TemplateReplacesWhatVaries(s);
    TemplateReplacesWhatVaries(VAR);
    TemplateReplacesWhatVaries(MORE);
    assert VAR[0] == ':' && !IsRoute(VAR);
    assert MORE[0] == '.' && !IsNumber(MORE) && IsRoute(MORE);
  }

  // ------------------------------------------------------------------ splitting and joining

  function Split(p: string): (parts: seq<string>)
    ensures parts != [] && forall i :: 0 <= i < |parts| ==> '/' !in parts[i]
  {
    var i := IndexOf(p, '/');
    if i < 0 then [p] else [p[..i]] + Split(p[i + 1..])
  }

  function Join(parts: seq<string>): string {
    if parts == [] then "" else if |parts| == 1 then parts[0] else parts[0] + "/" + Join(parts[1..])
  }

  lemma FirstSlash(a: string, rest: string)
    requires '/' !in a
    ensures IndexOf(a + "/" + rest, '/') == |a|
  {
    var s := a + "/" + rest;
    assert s[|a|] == '/' && '/' in s;
    assert s[..|a|] == a;
  }

  lemma SplitFirst(a: string, rest: string)
    requires '/' !in a
    ensures Split(a + "/" + rest) == [a] + Split(rest)
  {
    var s := a + "/" + rest;
    FirstSlash(a, rest);
    assert s[..|a|] == a && s[|a| + 1..] == rest;
  }

  /** Splitting what was joined gives the segments back. */
  lemma {:induction false} SplitJoin(parts: seq<string>)
    requires parts != [] && forall i :: 0 <= i < |parts| ==> '/' !in parts[i]
    ensures Split(Join(parts)) == parts
    decreases |parts|
  {
    if |parts| == 1 {
      assert parts == [parts[0]];
    } else {
      SplitFirst(parts[0], Join(parts[1..]));
      SplitJoin(parts[1..]);
      assert parts == [parts[0]] + parts[1..];
    }
  }

  lemma {:induction false} JoinAvoids(parts: seq<string>, c: char)
    requires c != '/' && forall i :: 0 <= i < |parts| ==> c !in parts[i]
    ensures c !in Join(parts)
    decreases |parts|
  {
    if |parts| > 1 {
      JoinAvoids(parts[1..], c);
    }
  }

  // ------------------------------------------------------------------ the template of a path

  function DropQuery(p: string): string {
    var i := IndexOf(p, '?');
    if i >= 0 then p[..i] else p
  }

  function Templates(parts: seq<string>): seq<string> { seq(|parts|, i requires 0 <= i < |parts| => Template(parts[i])) }

  function Bounded(parts: seq<string>): seq<string> {
    if |parts| > MAX_SEGMENTS then parts[..MAX_SEGMENTS] + [MORE] else parts
  }

  function Normalized(p: string): string { Join(Bounded(Templates(Split(DropQuery(p))))) }

  lemma {:induction false} JoinSplit(p: string)
    ensures Join(Split(p)) == p
    decreases |p|
  {
    var i := IndexOf(p, '/');
    if i >= 0 {
      JoinSplit(p[i + 1..]);
      assert p == p[..i] + "/" + p[i + 1..];
      assert Split(p)[1..] == Split(p[i + 1..]);
    }
  }

  /** The template of a path read segment by segment: the path up to its query is cut at every slash, each
      of the first twelve segments is replaced or kept, and a mark stands for any further ones. */
  lemma TemplateOfPath(p: string) returns (path: string, parts: seq<string>)
    ensures path <= p && '?' !in path && (path == p || p[|path|] == '?')
    ensures Join(parts) == path && parts != [] && forall i :: 0 <= i < |parts| ==> '/' !in parts[i]
    ensures var labels := Split(Normalized(p));
            && |labels| == (if |parts| > 12 then 13 else |parts|)
            && (|parts| > 12 ==> labels[12] == "...")
            && forall i :: 0 <= i < |parts| && i < 12 ==>
                 labels[i] == if parts[i] != "" && Varies(parts[i]) then ":var" else parts[i]
  {
    path := DropQuery(p);
    parts := Split(path);
    JoinSplit(path);
    TemplatesAreStatic(parts);
    BoundedIsStatic(Templates(parts));
    SplitJoin(Bounded(Templates(parts)));
    forall i | 0 <= i < |parts| {
      TemplateReplacesWhatVaries(parts[i]);
    }
  }

  /** normalizeRESTPath rewrites the segments in place. */
  method NormalizeRESTPath(p: string) returns (r: string)
    ensures r == Normalized(p)
  {
    var split := Split(DropQuery(p));
    var parts := new string[|split|](i requires 0 <= i < |split| => split[i]);
    for i := 0 to parts.Length
      invariant forall j :: 0 <= j < i ==> parts[j] == Template(split[j])
      invariant forall j :: i <= j < parts.Length ==> parts[j] == split[j]
    {
      var seg := parts[i];
      if seg == "" {
        continue;
      }
      if Dynamic(seg) || !All(seg, RouteChar) {
        parts[i] := VAR;
      }
    }
    assert parts[..] == Templates(split);
    r := Join(if parts.Length > MAX_SEGMENTS then parts[..MAX_SEGMENTS] + [MORE] else parts[..]);
  }

  /** A segment a template may hold. */
  predicate Static(s: string) { Template(s) == s && '/' !in s && '?' !in s }

  lemma TemplatesAreStatic(parts: seq<string>)
    requires forall i :: 0 <= i < |parts| ==> '/' !in parts[i]
    ensures forall i :: 0 <= i < |parts| ==> Static(Templates(parts)[i])
  {
    forall i | 0 <= i < |parts|
      ensures Static(Templates(parts)[i])
    {
      TemplateIsStable(parts[i]);
      TemplateHasNoQuery(parts[i]);
    }
  }

  lemma BoundedIsStatic(parts: seq<string>)
    requires parts != [] && forall i :: 0 <= i < |parts| ==> Static(parts[i])
    ensures 0 < |Bounded(parts)| <= MAX_SEGMENTS + 1 && Bounded(Bounded(parts)) == Bounded(parts)
    ensures forall i :: 0 <= i < |Bounded(parts)| ==> Static(Bounded(parts)[i])
  {
    TemplateIsStable(MORE);
    assert Static(MORE);
  }

  lemma TemplateHasNoQuery(s: string)
    ensures '?' !in Template(s)
  {
    if '?' in s {
      var i :| 0 <= i < |s| && s[i] == '?';
      assert !RouteChar(s[i]);
    }
  }

  /** A path's template is a normal form: it has at most twelve segments and a mark for the rest, each
      of them static, and normalising it again changes nothing. */
  lemma NormalisingIsIdempotent(p: string)
    ensures Normalized(Normalized(p)) == Normalized(p)
    ensures |Split(Normalized(p))| <= MAX_SEGMENTS + 1
    ensures forall i :: 0 <= i < |Split(Normalized(p))| ==> Static(Split(Normalized(p))[i])
  {
    var split := Split(DropQuery(p));
    TemplatesAreStatic(split);
    BoundedIsStatic(Templates(split));
    StaticIsStable(Bounded(Templates(split)));
  }

  lemma StaticIsStable(parts: seq<string>)
    requires parts != [] && Bounded(parts) == parts && forall i :: 0 <= i < |parts| ==> Static(parts[i])
    ensures Split(Join(parts)) == parts && Normalized(Join(parts)) == Join(parts)
  {
    SplitJoin(parts);
    JoinAvoids(parts, '?');
    assert DropQuery(Join(parts)) == Join(parts);
    assert Templates(parts) == parts;
  }
}
