/**
 Backend-URL deduplication of health checks (gateway/health_check_executor.go): suppliers that share
 a backend URL form a group, one rotating representative probes the backend and its outcome is fanned
 to the others. Go compares strings bytewise; a character stands for a byte.
 */
module BackendDedup {
  import opened Prelude
  import HealthScheduler

  datatype Endpoint = Endpoint(addr: string, url: string, webSocket: string, session: string)

  // ------------------------------------------------------------------ string order

  predicate Leq(a: string, b: string) {
    a == [] || (b != [] && (a[0] < b[0] || (a[0] == b[0] && Leq(a[1..], b[1..]))))
  }

  /** After `k` bytes in common, `a` has ended or has the smaller byte. */
  ghost predicate BreaksTie(a: string, b: string, k: nat) {
    k <= |a| && k <= |b| && a[..k] == b[..k] && (k == |a| || (k < |b| && a[k] < b[k]))
  }

  /** The order is the bytewise one. */
  lemma {:induction false} LeqIsBytewise(a: string, b: string)
    ensures Leq(a, b) <==> exists k: nat :: BreaksTie(a, b, k)
    decreases |a|
  {
    if a == [] {
      assert BreaksTie(a, b, 0);
    } else if b != [] {
      LeqIsBytewise(a[1..], b[1..]);
      if a[0] < b[0] {
        assert BreaksTie(a, b, 0);
      } else if a[0] == b[0] && Leq(a[1..], b[1..]) {
        var k: nat :| BreaksTie(a[1..], b[1..], k);
        assert a[..k + 1] == [a[0]] + a[1..][..k] && b[..k + 1] == [b[0]] + b[1..][..k];
        assert BreaksTie(a, b, k + 1);
      }
      if k: nat :| BreaksTie(a, b, k) {
        if k > 0 {
          assert a[0] == a[..k][0] == b[..k][0] == b[0];
          assert a[1..][..k - 1] == a[..k][1..] && b[1..][..k - 1] == b[..k][1..];
          assert BreaksTie(a[1..], b[1..], k - 1);
        }
      }
    }
  }

  lemma {:induction false} LeqTotal(a: string, b: string)
    ensures Leq(a, b) || Leq(b, a)
    ensures Leq(a, b) && Leq(b, a) ==> a == b
    decreases |a|
  {
    if a != [] && b != [] && a[0] == b[0] {
      LeqTotal(a[1..], b[1..]);
      assert a == [a[0]] + a[1..] && b == [b[0]] + b[1..];
    }
  }

  lemma {:induction false} LeqTransitive(a: string, b: string, c: string)
    requires Leq(a, b) && Leq(b, c)
    ensures Leq(a, c)
    decreases |a|
  {
    if a != [] && a[0] == b[0] == c[0] {
      LeqTransitive(a[1..], b[1..], c[1..]);
    }
  }

  // ------------------------------------------------------------------ sorting

  ghost predicate SortedBy<T>(s: seq<T>, key: T -> string) {
    forall i, j :: 0 <= i < j < |s| ==> Leq(key(s[i]), key(s[j]))
  }

  /** Go's sort makes no promise about elements with equal keys; neither does this contract. */
  method SortBy<T>(s: seq<T>, key: T -> string) returns (r: seq<T>)
    ensures SortedBy(r, key) && multiset(r) == multiset(s)
  {
    r := [];
    for i := 0 to |s|
      invariant SortedBy(r, key) && multiset(r) == multiset(s[..i])
    {
      assert s[..i + 1] == s[..i] + [s[i]];
      r := Insert(r, s[i], key);
    }
    assert s[..|s|] == s;
  }

  method Insert<T>(s: seq<T>, x: T, key: T -> string) returns (r: seq<T>)
    requires SortedBy(s, key)
    ensures SortedBy(r, key) && multiset(r) == multiset(s) + multiset{x}
  {
    var k := |s|;
    while k > 0 && !Leq(key(s[k - 1]), key(x))
      invariant 0 <= k <= |s|
      invariant forall i :: k <= i < |s| ==> Leq(key(x), key(s[i]))
    {
      LeqTotal(key(s[k - 1]), key(x));
      k := k - 1;
    }
    BeforeIsLess(s, x, k, key);
    r := s[..k] + [x] + s[k..];
    assert s == s[..k] + s[k..];
  }

  lemma BeforeIsLess<T>(s: seq<T>, x: T, k: nat, key: T -> string)
    requires SortedBy(s, key) && k <= |s| && (k > 0 ==> Leq(key(s[k - 1]), key(x)))
    ensures forall i :: 0 <= i < k ==> Leq(key(s[i]), key(x))
  {
    forall i | 0 <= i < k
      ensures Leq(key(s[i]), key(x))
    {
      if i < k - 1 {
        LeqTransitive(key(s[i]), key(s[k - 1]), key(x));
      }
    }
  }

  ghost predicate KeysIdentify<T(!new)>(s: seq<T>, key: T -> string) {
    forall x, y :: x in s && y in s && key(x) == key(y) ==> x == y
  }

  /** Two sortings of the same elements agree when no two elements share a key. */
  lemma {:induction false} SortedIsUnique<T(!new)>(a: seq<T>, b: seq<T>, key: T -> string)
    requires SortedBy(a, key) && SortedBy(b, key) && multiset(a) == multiset(b) && KeysIdentify(a, key)
    ensures a == b
    decreases |a|
  {
    assert |multiset(a)| == |a| && |multiset(b)| == |b|;
    if a != [] {
      HeadsAgree(a, b, key);
      TailsAgree(a, b);
      SortedIsUnique(a[1..], b[1..], key);
      assert a == [a[0]] + a[1..] && b == [b[0]] + b[1..];
    }
  }

  lemma TailsAgree<T>(a: seq<T>, b: seq<T>)
    requires a != [] && b != [] && a[0] == b[0] && multiset(a) == multiset(b)
    ensures multiset(a[1..]) == multiset(b[1..])
  {
    assert a == [a[0]] + a[1..] && b == [a[0]] + b[1..];
    assert multiset(a[1..]) == multiset(a) - multiset{a[0]} == multiset(b[1..]);
  }

  lemma HeadsAgree<T(!new)>(a: seq<T>, b: seq<T>, key: T -> string)
    requires SortedBy(a, key) && SortedBy(b, key) && multiset(a) == multiset(b) && KeysIdentify(a, key)
    requires a != [] && b != []
    ensures a[0] == b[0]
  {
    assert b[0] in multiset(b) && a[0] in multiset(a);
    HeadIsLeast(a, b[0], key);
    HeadIsLeast(b, a[0], key);
    LeqTotal(key(a[0]), key(b[0]));
    assert b[0] in a;
  }

  lemma HeadIsLeast<T>(a: seq<T>, x: T, key: T -> string)
    requires SortedBy(a, key) && a != [] && x in multiset(a)
    ensures Leq(key(a[0]), key(x))
  {
    LeqTotal(key(x), key(x));
    var i :| 0 <= i < |a| && a[i] == x;
  }

  // ------------------------------------------------------------------ grouping

  function WithURL(eps: seq<Endpoint>, url: string): seq<Endpoint> {
    if eps == [] then []
    else WithURL(eps[..|eps| - 1], url) + if eps[|eps| - 1].url == url then [eps[|eps| - 1]] else []
  }

  function URLs(eps: seq<Endpoint>): set<string> {
    set e | e in eps && e.url != "" :: e.url
  }

  function Singletons(eps: seq<Endpoint>): seq<seq<Endpoint>> {
    if eps == [] then []
    else Singletons(eps[..|eps| - 1]) + if eps[|eps| - 1].url == "" then [[eps[|eps| - 1]]] else []
  }

  function Addr(e: Endpoint): string { e.addr }

  function Self(s: string): string { s }

  /** One group for each URL, URLs and addresses ascending, then the endpoints without a URL one by one. */
  ghost predicate Grouped(eps: seq<Endpoint>, urls: seq<string>, groups: seq<seq<Endpoint>>) {
    && SortedBy(urls, Self) && multiset(urls) == multiset(URLs(eps))
    && |groups| >= |urls| && groups[|urls|..] == Singletons(eps)
    && forall i :: 0 <= i < |urls| ==> SortedGroup(eps, urls[i], groups[i])
  }

  /** The endpoints of one URL, by address. */
  ghost predicate SortedGroup(eps: seq<Endpoint>, url: string, grp: seq<Endpoint>) {
    SortedBy(grp, Addr) && multiset(grp) == multiset(WithURL(eps, url))
  }

  /** groupEndpointsByURL: bucket the endpoints, then order the buckets. */
  method GroupEndpointsByURL(eps: seq<Endpoint>) returns (groups: seq<seq<Endpoint>>, urls: seq<string>)
    ensures Grouped(eps, urls, groups)
  {
    var byURL, singletons := Bucket(eps);
    urls := Listed(byURL.Keys);
    urls := SortBy(urls, Self);
    assert forall i :: 0 <= i < |urls| ==> urls[i] in multiset(urls);
    groups := SortGroups(eps, urls, byURL);
    groups := groups + singletons;
  }

  method SortGroups(ghost eps: seq<Endpoint>, urls: seq<string>, byURL: map<string, seq<Endpoint>>)
    returns (groups: seq<seq<Endpoint>>)
    requires forall i :: 0 <= i < |urls| ==> urls[i] in byURL && byURL[urls[i]] == WithURL(eps, urls[i])
    ensures |groups| == |urls| && forall i :: 0 <= i < |urls| ==> SortedGroup(eps, urls[i], groups[i])
  {
    groups := [];
    for i := 0 to |urls|
      invariant |groups| == i && forall j :: 0 <= j < i ==> SortedGroup(eps, urls[j], groups[j])
    {
      var grp := SortBy(byURL[urls[i]], Addr);
      groups := groups + [grp];
    }
  }

  method Bucket(eps: seq<Endpoint>) returns (byURL: map<string, seq<Endpoint>>, singletons: seq<seq<Endpoint>>)
    ensures byURL.Keys == URLs(eps) && singletons == Singletons(eps)
    ensures forall u :: u in byURL ==> byURL[u] == WithURL(eps, u)
  {
    byURL, singletons := map[], [];
    for n := 0 to |eps|
      invariant byURL.Keys == URLs(eps[..n]) && singletons == Singletons(eps[..n])
      invariant forall u :: u in byURL ==> byURL[u] == WithURL(eps[..n], u)
    {
      assert eps[..n + 1] == eps[..n] + [eps[n]];
      URLsSnoc(eps[..n], eps[n]);
      SnocURL(eps[..n], eps[n]);
      byURL, singletons := Place(byURL, singletons, eps[n]);
    }
    assert eps[..|eps|] == eps;
  }

  method Place(byURL: map<string, seq<Endpoint>>, singletons: seq<seq<Endpoint>>, ep: Endpoint)
    returns (byURL': map<string, seq<Endpoint>>, singletons': seq<seq<Endpoint>>)
    ensures singletons' == if ep.url == "" then singletons + [[ep]] else singletons
    ensures byURL'.Keys == if ep.url == "" then byURL.Keys else byURL.Keys + {ep.url}
    ensures forall u :: u in byURL' ==>
              byURL'[u] == (if u in byURL then byURL[u] else []) + if u == ep.url != "" then [ep] else []
  {
    byURL', singletons' := byURL, singletons;
    if ep.url == "" {
      singletons' := singletons + [[ep]];
    } else {
      byURL' := byURL[ep.url := (if ep.url in byURL then byURL[ep.url] else []) + [ep]];
    }
  }

  lemma URLsSnoc(eps: seq<Endpoint>, ep: Endpoint)
    ensures URLs(eps + [ep]) == if ep.url == "" then URLs(eps) else URLs(eps) + {ep.url}
    ensures "" !in URLs(eps)
  {
  }

  lemma SnocURL(eps: seq<Endpoint>, ep: Endpoint)
    ensures Singletons(eps + [ep]) == Singletons(eps) + if ep.url == "" then [[ep]] else []
    ensures forall u :: WithURL(eps + [ep], u) == WithURL(eps, u) + if ep.url == u then [ep] else []
    ensures forall u :: u != "" && u !in URLs(eps) ==> WithURL(eps, u) == []
  {
    assert (eps + [ep])[..|eps|] == eps;
    forall u | u != "" && u !in URLs(eps)
      ensures WithURL(eps, u) == []
    {
      NoneWithURL(eps, u);
    }
  }

  lemma {:induction false} NoneWithURL(eps: seq<Endpoint>, url: string)
    ensures url != "" ==> (url !in URLs(eps) <==> WithURL(eps, url) == [])
    decreases |eps|
  {
    if eps != [] {
      var n := |eps| - 1;
      assert eps == eps[..n] + [eps[n]];
      NoneWithURL(eps[..n], url);
    }
  }

  /** The keys of a map in some order. */
  method Listed(keys: set<string>) returns (s: seq<string>)
    ensures multiset(s) == multiset(keys)
  {
    s := [];
    var left := keys;
    while left != {}
      invariant multiset(s) + multiset(left) == multiset(keys)
    {
      var k :| k in left;
      s, left := s + [k], left - {k};
    }
  }

  lemma {:induction false} WithURLCount(eps: seq<Endpoint>, url: string, e: Endpoint)
    ensures multiset(WithURL(eps, url))[e] == if e.url == url then multiset(eps)[e] else 0
    decreases |eps|
  {
    if eps != [] {
      var n := |eps| - 1;
      assert eps == eps[..n] + [eps[n]];
      WithURLCount(eps[..n], url, e);
    }
  }

  function Occurrences(groups: seq<seq<Endpoint>>, e: Endpoint): nat {
    if groups == [] then 0 else Occurrences(groups[..|groups| - 1], e) + multiset(groups[|groups| - 1])[e]
  }

  lemma {:induction false} OccurrencesConcat(a: seq<seq<Endpoint>>, b: seq<seq<Endpoint>>, e: Endpoint)
    ensures Occurrences(a + b, e) == Occurrences(a, e) + Occurrences(b, e)
    decreases |b|
  {
    if b == [] {
      assert a + b == a;
    } else {
      var n := |b| - 1;
      assert (a + b)[..|a + b| - 1] == a + b[..n];
      OccurrencesConcat(a, b[..n], e);
    }
  }

  lemma {:induction false} SingletonOccurrences(eps: seq<Endpoint>, e: Endpoint)
    ensures Occurrences(Singletons(eps), e) == if e.url == "" then multiset(eps)[e] else 0
    decreases |eps|
  {
    if eps != [] {
      var n := |eps| - 1;
      assert eps == eps[..n] + [eps[n]];
      SingletonOccurrences(eps[..n], e);
      OccurrencesConcat(Singletons(eps[..n]), if eps[n].url == "" then [[eps[n]]] else [], e);
      assert [[eps[n]]][..0] == [];
    }
  }

  lemma URLsDistinct(eps: seq<Endpoint>, urls: seq<string>, i: nat, j: nat)
    requires multiset(urls) == multiset(URLs(eps)) && i < j < |urls|
    ensures urls[i] != urls[j]
  {
    var x := urls[i];
    assert urls == urls[..i] + [x] + urls[i + 1..j] + [urls[j]] + urls[j + 1..];
    assert multiset(URLs(eps))[x] <= 1;
    assert urls[j] == x ==> multiset(urls)[x] >= 2;
  }

  /** A count that only the group with one of the distinct `urls` carries. */
  lemma {:induction false} CountedOnce(groups: seq<seq<Endpoint>>, urls: seq<string>, e: Endpoint, n: nat)
    requires |groups| == |urls| && forall i, j :: 0 <= i < j < |urls| ==> urls[i] != urls[j]
    requires forall i :: 0 <= i < |urls| ==> multiset(groups[i])[e] == if e.url == urls[i] then n else 0
    ensures Occurrences(groups, e) == if e.url in urls then n else 0
    decreases |urls|
  {
    if urls != [] {
      var k := |urls| - 1;
      CountedOnce(groups[..k], urls[..k], e, n);
      assert urls == urls[..k] + [urls[k]];
    }
  }

  lemma URLOccurrences(eps: seq<Endpoint>, urls: seq<string>, groups: seq<seq<Endpoint>>, e: Endpoint)
    requires Grouped(eps, urls, groups)
    ensures Occurrences(groups[..|urls|], e) == if e.url in urls then multiset(eps)[e] else 0
  {
    var g := groups[..|urls|];
    forall i | 0 <= i < |urls|
      ensures multiset(g[i])[e] == if e.url == urls[i] then multiset(eps)[e] else 0
    {
      assert SortedGroup(eps, urls[i], groups[i]);
      WithURLCount(eps, urls[i], e);
    }
    forall i, j | 0 <= i < j < |urls|
      ensures urls[i] != urls[j]
    {
      URLsDistinct(eps, urls, i, j);
    }
    CountedOnce(g, urls, e, multiset(eps)[e]);
  }

  lemma OccurrencesKept(eps: seq<Endpoint>, urls: seq<string>, groups: seq<seq<Endpoint>>, e: Endpoint)
    requires Grouped(eps, urls, groups)
    ensures Occurrences(groups, e) == multiset(eps)[e]
  {
    assert groups == groups[..|urls|] + groups[|urls|..];
    OccurrencesConcat(groups[..|urls|], groups[|urls|..], e);
    URLOccurrences(eps, urls, groups, e);
    SingletonOccurrences(eps, e);
    assert e.url in urls <==> e.url in multiset(urls);
    assert e in eps <==> e in multiset(eps);
  }

  /** The groups partition the endpoints: each endpoint occurs among them as often as it was given, and
      a URL group holds endpoints of its own URL only. */
  lemma GroupsPartition(eps: seq<Endpoint>, urls: seq<string>, groups: seq<seq<Endpoint>>)
    requires Grouped(eps, urls, groups)
    ensures forall e :: Occurrences(groups, e) == multiset(eps)[e]
    ensures forall i, e :: 0 <= i < |urls| && e in groups[i] ==> e.url == urls[i] != ""
    ensures forall i, j :: 0 <= i < j < |urls| ==> urls[i] != urls[j]
  {
    forall e
      ensures Occurrences(groups, e) == multiset(eps)[e]
    {
      OccurrencesKept(eps, urls, groups, e);
    }
    forall i, e | 0 <= i < |urls| && e in groups[i]
      ensures e.url == urls[i] != ""
    {
      assert urls[i] in multiset(urls) && e in multiset(groups[i]);
      WithURLCount(eps, urls[i], e);
    }
    forall i, j | 0 <= i < j < |urls|
      ensures urls[i] != urls[j]
    {
      URLsDistinct(eps, urls, i, j);
    }
  }

  /** No two suppliers on one URL share an address. */
  ghost predicate AddressesDistinct(eps: seq<Endpoint>) {
    forall x, y :: x in eps && y in eps && x.url == y.url != "" && x.addr == y.addr ==> x == y
  }

  lemma SameMembers(eps: seq<Endpoint>, eps': seq<Endpoint>, url: string)
    requires multiset(eps) == multiset(eps')
    ensures URLs(eps) == URLs(eps') && multiset(WithURL(eps, url)) == multiset(WithURL(eps', url))
  {
    assert forall e :: e in eps <==> e in multiset(eps);
    assert forall e :: e in eps' <==> e in multiset(eps');
    forall e: Endpoint
      ensures multiset(WithURL(eps, url))[e] == multiset(WithURL(eps', url))[e]
    {
      WithURLCount(eps, url, e);
      WithURLCount(eps', url, e);
    }
  }

  lemma MembersIdentified(eps: seq<Endpoint>, url: string, grp: seq<Endpoint>)
    requires AddressesDistinct(eps) && url != "" && multiset(grp) == multiset(WithURL(eps, url))
    ensures KeysIdentify(grp, Addr)
  {
    forall x, y | x in grp && y in grp && Addr(x) == Addr(y)
      ensures x == y
    {
      assert x in multiset(grp) && y in multiset(grp);
      WithURLCount(eps, url, x);
      WithURLCount(eps, url, y);
      assert x in multiset(eps) && y in multiset(eps);
    }
  }

  /** The URL groups do not depend on the order the endpoints came in, when addresses are distinct. */
  lemma GroupingIgnoresOrder(eps: seq<Endpoint>, urls: seq<string>, groups: seq<seq<Endpoint>>,
                             eps': seq<Endpoint>, urls': seq<string>, groups': seq<seq<Endpoint>>)
    requires multiset(eps) == multiset(eps') && AddressesDistinct(eps)
    requires Grouped(eps, urls, groups) && Grouped(eps', urls', groups')
    ensures urls == urls' && groups[..|urls|] == groups'[..|urls'|]
  {
    SameMembers(eps, eps', "");
    SortedIsUnique(urls, urls', Self);
    forall i | 0 <= i < |urls|
      ensures groups[i] == groups'[i]
    {
      assert urls[i] in multiset(urls);
      SameMembers(eps, eps', urls[i]);
      MembersIdentified(eps, urls[i], groups[i]);
      SortedIsUnique(groups[i], groups'[i], Addr);
    }
  }

  /** Swapping two members that share an address gives another ordering the sort may return. */
  lemma SwapStaysGrouped(eps: seq<Endpoint>, urls: seq<string>, groups: seq<seq<Endpoint>>, i: nat, p: nat, q: nat)
    returns (groups': seq<seq<Endpoint>>)
    requires Grouped(eps, urls, groups) && i < |urls| && p < q < |groups[i]|
    requires groups[i][p].addr == groups[i][q].addr && groups[i][p] != groups[i][q]
    ensures Grouped(eps, urls, groups') && groups'[..|urls|] != groups[..|urls|]
  {
    var g := groups[i];
    var g' := g[p := g[q]][q := g[p]];
    groups' := groups[i := g'];
    assert forall k :: 0 <= k < |g| ==> Addr(g'[k]) == Addr(g[k]);
    assert groups'[..|urls|][i] != groups[..|urls|][i] by {
      assert g'[p] != g[p];
    }
    assert groups'[|urls|..] == groups[|urls|..];
  }

  /** Where an endpoint with a URL ends up. */
  lemma PlaceOf(eps: seq<Endpoint>, urls: seq<string>, groups: seq<seq<Endpoint>>, i: nat, x: Endpoint) returns (p: nat)
    requires Grouped(eps, urls, groups) && i < |urls| && x in eps && x.url == urls[i]
    ensures p < |groups[i]| && groups[i][p] == x
  {
    assert SortedGroup(eps, urls[i], groups[i]);
    WithURLCount(eps, x.url, x);
    assert x in multiset(eps) && x in multiset(groups[i]);
    p :| 0 <= p < |groups[i]| && groups[i][p] == x;
  }

  lemma GroupOf(eps: seq<Endpoint>, urls: seq<string>, x: Endpoint) returns (i: nat)
    requires multiset(urls) == multiset(URLs(eps)) && x in eps && x.url != ""
    ensures i < |urls| && urls[i] == x.url
  {
    assert x.url in multiset(urls);
    i :| 0 <= i < |urls| && urls[i] == x.url;
  }

  lemma SharedAddressLeavesOrderOpen(eps: seq<Endpoint>, urls: seq<string>, groups: seq<seq<Endpoint>>, x: Endpoint, y: Endpoint)
    returns (groups': seq<seq<Endpoint>>)
    requires Grouped(eps, urls, groups) && x in eps && y in eps
    requires x.url == y.url != "" && x.addr == y.addr && x != y
    ensures Grouped(eps, urls, groups') && groups'[..|urls|] != groups[..|urls|]
  {
    var i := GroupOf(eps, urls, x);
    var p := PlaceOf(eps, urls, groups, i, x);
    var q := PlaceOf(eps, urls, groups, i, y);
    groups' := SwapStaysGrouped(eps, urls, groups, i, if p < q then p else q, if p < q then q else p);
  }

  /** The order within the URL groups is determined exactly when no two suppliers on one URL share an
      address; otherwise it is whatever the sort happened to do. */
  lemma OrderIsFixedIffAddressesDistinct(eps: seq<Endpoint>, urls: seq<string>, groups: seq<seq<Endpoint>>)
    requires Grouped(eps, urls, groups)
    ensures AddressesDistinct(eps)
            <==> forall groups' :: Grouped(eps, urls, groups') ==> groups'[..|urls|] == groups[..|urls|]
  {
    if AddressesDistinct(eps) {
      forall groups' | Grouped(eps, urls, groups')
        ensures groups'[..|urls|] == groups[..|urls|]
      {
        GroupingIgnoresOrder(eps, urls, groups, eps, urls, groups');
      }
    } else {
      var x, y :| x in eps && y in eps && x.url == y.url != "" && x.addr == y.addr && x != y;
      var groups' := SharedAddressLeavesOrderOpen(eps, urls, groups, x, y);
    }
  }

  // ------------------------------------------------------------------ rotation

  function RepresentativeIndex(cycle: nat, size: nat): (i: nat)
    ensures size > 0 ==> i < size
  {
    if size <= 1 then 0 else cycle % size
  }

  /** In any `size` consecutive cycles each member is the rotated representative exactly once. */
  lemma EachMemberOncePerRotation(size: nat, i: nat, from: nat) returns (turn: nat)
    requires i < size
    ensures from <= turn < from + size
    ensures forall c :: from <= c < from + size ==> (RepresentativeIndex(c, size) == i <==> c == turn)
  {
    turn := TurnFrom(size, i, from / size, from % size, from);
  }

  lemma TurnFrom(size: nat, i: nat, q: nat, r: nat, from: nat) returns (turn: nat)
    requires i < size && r < size && from == q * size + r
    ensures from <= turn < from + size
    ensures forall c :: from <= c < from + size ==> (RepresentativeIndex(c, size) == i <==> c == turn)
  {
    turn := Turn(size, i, q, r);
    forall c | from <= c < from + size
      ensures RepresentativeIndex(c, size) == i <==> c == turn
    {
      TurnAt(size, i, q, r, c);
    }
  }

  function Turn(size: nat, i: nat, q: nat, r: nat): nat { q * size + if r <= i then i else size + i }

  lemma TurnAt(size: nat, i: nat, q: nat, r: nat, c: nat)
    requires i < size && r < size && q * size + r <= c < q * size + r + size
    ensures RepresentativeIndex(c, size) == i <==> c == Turn(size, i, q, r)
  {
    var base := q * size;
    Wrapped(size, q, c - base);
  }

  lemma Wrapped(size: nat, q: nat, off: nat)
    requires off < 2 * size
    ensures (q * size + off) % size == if off < size then off else off - size
  {
    if off < size {
      HealthScheduler.DivMod(q * size + off, size, q, off);
    } else {
      assert (q + 1) * size == q * size + size;
      HealthScheduler.DivMod(q * size + off, size, q + 1, off - size);
    }
  }

  /** The cycle number of a service that is due on tick `k`. */
  function CycleOf(t: HealthScheduler.Ticks, k: nat, id: string): nat {
    HealthScheduler.Cycle(HealthScheduler.After(t, k), id) + 1
  }

  lemma CycleOnNthTick(t: HealthScheduler.Ticks, id: string, n: nat, p: nat)
    requires 1 <= n && HealthScheduler.OnTime(t)
    requires forall j: nat :: HealthScheduler.HasIntervalAt(t, j, id, n * t.period)
    ensures HealthScheduler.Runs(t, p * n, id) && CycleOf(t, p * n, id) == p + 1
  {
    HealthScheduler.DivMod(p * n, n, p, 0);
    HealthScheduler.RunsEveryNthTick(t, id, n, p * n);
    assert HealthScheduler.HasIntervalAt(t, p * n, id, n * t.period);
    HealthScheduler.Recorded(t, p * n, id);
  }

  /** Scheduling and rotation together: on a service run every n-th tick, each member of a stable group
      has exactly one directly probed turn among any `size` consecutive runs. */
  lemma EveryMemberHasItsTurn(t: HealthScheduler.Ticks, id: string, n: nat, size: nat, i: nat, from: nat)
    returns (turn: nat)
    requires 1 <= n && HealthScheduler.OnTime(t) && i < size
    requires forall j: nat :: HealthScheduler.HasIntervalAt(t, j, id, n * t.period)
    ensures from <= turn < from + size
    ensures forall p :: from <= p < from + size ==>
              && HealthScheduler.Runs(t, p * n, id)
              && (RepresentativeIndex(CycleOf(t, p * n, id), size) == i <==> p == turn)
  {
    var c := EachMemberOncePerRotation(size, i, from + 1);
    turn := c - 1;
    forall p | from <= p < from + size
      ensures HealthScheduler.Runs(t, p * n, id) && (RepresentativeIndex(CycleOf(t, p * n, id), size) == i <==> p == turn)
    {
      CycleOnNthTick(t, id, n, p);
    }
  }

  // ------------------------------------------------------------------ the group's job

  /** What a job does to a member: probe its backend and WebSocket, replay the representative's outcomes
      on it, or probe its WebSocket alone. */
  datatype Action = Fire(member: nat) | Fan(member: nat) | Probe(member: nat)

  /** What the job cannot control: the answer to its q-th question whether a member's session is active
      or its context cancelled, and whether a member's checks yield any HTTP outcome. */
  datatype Env = Env(sessionActive: (nat, nat) -> bool, cancelled: nat -> bool, hasOutcomes: nat -> bool)

  predicate IsActive(grp: seq<Endpoint>, env: Env, q: nat, i: nat)
    requires i < |grp|
  {
    grp[i].session == "" || env.sessionActive(q, i)
  }

  /** Sessions do not roll over and nothing is cancelled while the job runs. */
  ghost predicate Steady(env: Env) {
    && (forall q: nat, i: nat :: env.sessionActive(q, i) == env.sessionActive(0, i))
    && forall q: nat :: !env.cancelled(q)
  }

  /** A member with no session, or with one that is active. */
  predicate Live(grp: seq<Endpoint>, env: Env, i: nat) {
    i < |grp| && (grp[i].session == "" || env.sessionActive(0, i))
  }

  /** What happens to the members below `k` other than the representative. */
  function SiblingActions(grp: seq<Endpoint>, env: Env, rep: nat, fan: bool, k: nat): seq<Action>
    requires k <= |grp|
  {
    if k == 0 then []
    else SiblingActions(grp, env, rep, fan, k - 1)
         + ToSibling(k - 1, fan, k - 1 != rep && Live(grp, env, k - 1))
  }

  function ToSibling(i: nat, fan: bool, live: bool): seq<Action> {
    if !live then [] else if fan then [Fan(i), Probe(i)] else [Probe(i)]
  }

  ghost predicate AnyLive(grp: seq<Endpoint>, env: Env) {
    exists i: nat :: Live(grp, env, i)
  }

  /** The member `off` places after `start`, going round. */
  function Round(start: nat, off: nat, size: nat): (i: nat)
    requires start < size && off < size
    ensures i < size
  {
    if start + off < size then start + off else start + off - size
  }

  ghost predicate NoneLiveBefore(grp: seq<Endpoint>, env: Env, start: nat, off: nat)
    requires start < |grp| && off <= |grp|
  {
    forall o: nat :: o < off ==> !Live(grp, env, Round(start, o, |grp|))
  }

  /** `rep` is the first live member at or after `start`, going round. */
  ghost predicate FirstLive(grp: seq<Endpoint>, env: Env, start: nat, rep: nat)
    requires start < |grp|
  {
    exists off: nat :: off < |grp| && rep == Round(start, off, |grp|) && Live(grp, env, rep)
                       && NoneLiveBefore(grp, env, start, off)
  }

  /** Nothing but the first action fires, and a member is fanned to only after another one fired and
      brought outcomes. */
  ghost predicate OneFires(env: Env, log: seq<Action>) {
    && (forall j :: 1 <= j < |log| ==> !log[j].Fire?)
    && forall j :: 0 <= j < |log| && log[j].Fan? ==>
         log[0].Fire? && env.hasOutcomes(log[0].member) && log[j].member != log[0].member
  }

  method Representative(grp: seq<Endpoint>, env: Env, start: nat) returns (rep: nat, q: nat)
    requires start < |grp|
    ensures rep < |grp|
    ensures Steady(env) && AnyLive(grp, env) ==> FirstLive(grp, env, start, rep)
  {
    rep, q := start, 2;
    var off := 0;
    var found := IsActive(grp, env, 1, start);
    while !found && off + 1 < |grp|
      invariant off < |grp| && rep == if found then Round(start, off, |grp|) else start
      invariant Steady(env) ==> (found <==> Live(grp, env, Round(start, off, |grp|)))
      invariant Steady(env) ==> NoneLiveBefore(grp, env, start, off)
      decreases |grp| - off
    {
      off := off + 1;
      rep, found, q := Candidate(grp, env, start, off, q);
    }
    if Steady(env) && !found {
      assert NoneLiveBefore(grp, env, start, |grp|);
      NoneLive(grp, env, start);
    }
  }

  method Candidate(grp: seq<Endpoint>, env: Env, start: nat, off: nat, q: nat) returns (rep: nat, found: bool, q': nat)
    requires start < |grp| && off < |grp|
    ensures rep == if found then Round(start, off, |grp|) else start
    ensures found <==> IsActive(grp, env, q, Round(start, off, |grp|))
  {
    Wrapped(|grp|, 0, start + off);
    rep, q' := (start + off) % |grp|, q + 1;
    found := IsActive(grp, env, q, rep);
    if !found {
      rep := start;
    }
  }

  lemma NoneLive(grp: seq<Endpoint>, env: Env, start: nat)
    requires start < |grp| && NoneLiveBefore(grp, env, start, |grp|)
    ensures !AnyLive(grp, env)
  {
    forall i: nat
      ensures !Live(grp, env, i)
    {
      if i < |grp| {
        var o := if start <= i then i - start else i + |grp| - start;
        assert !Live(grp, env, Round(start, o, |grp|));
      }
    }
  }

  function Count(log: seq<Action>, a: Action): nat {
    if log == [] then 0 else Count(log[..|log| - 1], a) + if log[|log| - 1] == a then 1 else 0
  }

  lemma {:induction false} CountConcat(x: seq<Action>, y: seq<Action>, a: Action)
    ensures Count(x + y, a) == Count(x, a) + Count(y, a)
    decreases |y|
  {
    if y == [] {
      assert x + y == x;
    } else {
      assert (x + y)[..|x + y| - 1] == x + y[..|y| - 1];
      CountConcat(x, y[..|y| - 1], a);
    }
  }

  /** How often a sibling sees an action. */
  function Share(a: Action, fan: bool, live: bool): nat {
    if live && (a.Probe? || (a.Fan? && fan)) then 1 else 0
  }

  lemma ShareOf(i: nat, fan: bool, live: bool, a: Action)
    ensures Count(ToSibling(i, fan, live), a) == if a.member == i then Share(a, fan, live) else 0
  {
    CountConcat([Fan(i)], [Probe(i)], a);
    assert [Fan(i)] + [Probe(i)] == [Fan(i), Probe(i)];
  }

  /** In a steady job every live member but the representative is probed once, and fanned to once if
      there is anything to fan; the others are left alone and nobody else fires. */
  lemma {:induction false} SiblingsCovered(grp: seq<Endpoint>, env: Env, rep: nat, fan: bool, k: nat, a: Action)
    requires k <= |grp|
    ensures Count(SiblingActions(grp, env, rep, fan, k), a)
            == if a.member < k then Share(a, fan, a.member != rep && Live(grp, env, a.member)) else 0
    decreases k
  {
    if k > 0 {
      var i := k - 1;
      var live := i != rep && Live(grp, env, i);
      SiblingsCovered(grp, env, rep, fan, i, a);
      CountConcat(SiblingActions(grp, env, rep, fan, i), ToSibling(i, fan, live), a);
      ShareOf(i, fan, live, a);
    }
  }

  /** The representative fires once and nobody else does; every other live member is probed exactly once,
      and is given the representative's outcomes exactly once if there are any; no other member is touched. */
  ghost predicate Covered(grp: seq<Endpoint>, env: Env, rep: nat, log: seq<Action>) {
    && (forall i: nat :: Count(log, Fire(i)) == if i == rep then 1 else 0)
    && (forall i: nat :: Count(log, Probe(i)) == if i != rep && Live(grp, env, i) then 1 else 0)
    && (forall i: nat :: Count(log, Fan(i)) == if i != rep && Live(grp, env, i) && env.hasOutcomes(rep) then 1 else 0)
  }

  lemma PlanCovers(grp: seq<Endpoint>, env: Env, rep: nat, log: seq<Action>)
    requires log == [Fire(rep)] + SiblingActions(grp, env, rep, env.hasOutcomes(rep), |grp|)
    ensures Covered(grp, env, rep, log)
  {
    forall a: Action
      ensures Count(log, a) == if a.Fire? then (if a.member == rep then 1 else 0)
                               else Share(a, env.hasOutcomes(rep), a.member != rep && Live(grp, env, a.member))
    {
      SiblingsCovered(grp, env, rep, env.hasOutcomes(rep), |grp|, a);
      CountConcat([Fire(rep)], SiblingActions(grp, env, rep, env.hasOutcomes(rep), |grp|), a);
      assert [Fire(rep)][..0] == [];
    }
  }

  /** The dedup job of one URL group, whose rotated representative is member `start`. */
  method RunGroup(grp: seq<Endpoint>, env: Env, start: nat) returns (log: seq<Action>, rep: nat)
    requires start < |grp|
    ensures OneFires(env, log) && rep < |grp|
    ensures Steady(env) && AnyLive(grp, env) ==>
              FirstLive(grp, env, start, rep)
              && log == [Fire(rep)] + SiblingActions(grp, env, rep, env.hasOutcomes(rep), |grp|)
              && Covered(grp, env, rep, log)
    ensures Steady(env) && !AnyLive(grp, env) ==> log == []
  {
    log, rep := [], start;
    if env.cancelled(0) {
      return;
    }
    var q;
    rep, q := Representative(grp, env, start);
    var fan := false;
    if IsActive(grp, env, q, rep) {
      log, fan := [Fire(rep)], env.hasOutcomes(rep);
    }
    assert Steady(env) ==> (log == [Fire(rep)] <==> Live(grp, env, rep));
    var rest := RunSiblings(grp, env, rep, fan, q + 1);
    log := log + rest;
    if Steady(env) {
      if AnyLive(grp, env) {
        PlanCovers(grp, env, rep, log);
      } else {
        NothingDone(grp, env, rep, fan, |grp|);
      }
    }
  }

  method RunSiblings(grp: seq<Endpoint>, env: Env, rep: nat, fan: bool, q: nat) returns (log: seq<Action>)
    ensures forall j :: 0 <= j < |log| ==> !log[j].Fire? && (log[j].Fan? ==> fan && log[j].member != rep)
    ensures Steady(env) ==> log == SiblingActions(grp, env, rep, fan, |grp|)
  {
    log := [];
    for i := 0 to |grp|
      invariant forall j :: 0 <= j < |log| ==> !log[j].Fire? && (log[j].Fan? ==> fan && log[j].member != rep)
      invariant Steady(env) ==> log == SiblingActions(grp, env, rep, fan, i)
    {
      if i == rep {
        continue;
      }
      if env.cancelled(q + 2 * i) {
        return;
      }
      if !IsActive(grp, env, q + 2 * i + 1, i) {
        continue;
      }
      log := log + if fan then [Fan(i), Probe(i)] else [Probe(i)];
    }
  }

  lemma {:induction false} NothingDone(grp: seq<Endpoint>, env: Env, rep: nat, fan: bool, k: nat)
    requires k <= |grp| && !AnyLive(grp, env)
    ensures SiblingActions(grp, env, rep, fan, k) == []
    decreases k
  {
    if k > 0 {
      NothingDone(grp, env, rep, fan, k - 1);
      assert !Live(grp, env, k - 1);
    }
  }
}
