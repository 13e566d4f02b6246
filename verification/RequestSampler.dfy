/**
 The one-in-N request sampler (gateway/request_sampler.go): per service a window of counters, a capped
 table of request fingerprints and per-method tallies, rotated when it has run its length. Hashing and
 canonicalising a request are left open: a sampled request is the items it was split into.
 */
module RequestSampler {
  import opened Prelude

  const SNIPPET_BYTES: nat := 200

  datatype Item = Item(method_: string, hash: nat, canonical: string)

  datatype Entry = Entry(method_: string, snippet: string, count: nat, firstSeen: int, lastSeen: int)

  datatype MethodSample = MethodSample(sampled: nat, distinct: nat)

  /** What a window has sampled. */
  datatype Tally = Tally(sampled: nat, overflow: nat, fingerprints: map<nat, Entry>, methods: map<string, MethodSample>)

  datatype Window = Window(start: int, end: Option<int>, requestsSeen: nat, tally: Tally)

  const NOTHING: Tally := Tally(0, 0, map[], map[])

  function NewWindow(now: int): Window { Window(now, None, 0, NOTHING) }

  /** The number of distinct requests a report gives. */
  function Distinct(w: Tally): nat { |w.fingerprints| + w.overflow }

  function Snippet(canonical: string): string {
    if |canonical| > SNIPPET_BYTES then canonical[..SNIPPET_BYTES] + "\U{2026}" else canonical
  }

  // ------------------------------------------------------------------ recording one item

  function MethodOf(w: Tally, m: string): MethodSample {
    if m in w.methods then w.methods[m] else MethodSample(0, 0)
  }

  function Recorded(w: Tally, item: Item, now: int, cap: int): Tally {
    var known := item.hash in w.fingerprints;
    var full := |w.fingerprints| >= cap;
    var ms := MethodOf(w, item.method_);
    w.(sampled := w.sampled + 1,
       overflow := if !known && full then w.overflow + 1 else w.overflow,
       methods := w.methods[item.method_ := MethodSample(ms.sampled + 1, if known then ms.distinct else ms.distinct + 1)],
       fingerprints :=
         if known then
           var e := w.fingerprints[item.hash]; w.fingerprints[item.hash := e.(count := e.count + 1, lastSeen := now)]
         else if full then w.fingerprints
         else w.fingerprints[item.hash := Entry(item.method_, Snippet(item.canonical), 1, now, now)])
  }

  // ------------------------------------------------------------------ conservation

  ghost function SumOver<K(!new)>(keys: set<K>, m: map<K, nat>): nat
    requires keys <= m.Keys
    decreases |keys|
  {
    if keys == {} then 0 else var k :| k in keys; m[k] + SumOver(keys - {k}, m)
  }

  ghost function Sum<K(!new)>(m: map<K, nat>): nat { SumOver(m.Keys, m) }

  lemma {:induction false} SumWithout<K(!new)>(keys: set<K>, m: map<K, nat>, k: K)
    requires keys <= m.Keys && k in keys
    ensures SumOver(keys, m) == m[k] + SumOver(keys - {k}, m)
    decreases |keys|
  {
    var p :| p in keys && SumOver(keys, m) == m[p] + SumOver(keys - {p}, m);
    if p != k {
      SumWithout(keys - {p}, m, k);
      SumWithout(keys - {k}, m, p);
      assert keys - {p} - {k} == keys - {k} - {p};
    }
  }

  lemma {:induction false} SumAgree<K(!new)>(keys: set<K>, m: map<K, nat>, m': map<K, nat>)
    requires keys <= m.Keys && keys <= m'.Keys && forall k :: k in keys ==> m[k] == m'[k]
    ensures SumOver(keys, m) == SumOver(keys, m')
    decreases |keys|
  {
    if keys != {} {
      var k :| k in keys;
      SumWithout(keys, m, k);
      SumWithout(keys, m', k);
      SumAgree(keys - {k}, m, m');
    }
  }

  lemma SumUpdate<K(!new)>(m: map<K, nat>, k: K, v: nat)
    ensures Sum(m[k := v]) == Sum(m) + v - if k in m then m[k] else 0
  {
    var m' := m[k := v];
    var rest := m.Keys - {k};
    SumWithout(m'.Keys, m', k);
    assert m'.Keys - {k} == rest;
    SumAgree(rest, m, m');
    if k in m {
      SumWithout(m.Keys, m, k);
    } else {
      assert rest == m.Keys;
    }
  }

  ghost function Counts(w: Tally): map<nat, nat> { map h | h in w.fingerprints :: w.fingerprints[h].count }

  ghost function MethodSampled(w: Tally): map<string, nat> { map m | m in w.methods :: w.methods[m].sampled }

  ghost function MethodDistinct(w: Tally): map<string, nat> { map m | m in w.methods :: w.methods[m].distinct }

  /** Every sampled item is either in a table entry's count or in the overflow, and in one method's
      tally; the methods' distinct counts add up to the reported one. */
  ghost predicate Conserved(w: Tally) {
    && w.sampled == Sum(Counts(w)) + w.overflow
    && w.sampled == Sum(MethodSampled(w))
    && Distinct(w) == Sum(MethodDistinct(w))
  }

  lemma CountsRecorded(w: Tally, item: Item, now: int, cap: int)
    ensures Counts(Recorded(w, item, now, cap))
            == if item.hash in w.fingerprints then Counts(w)[item.hash := Counts(w)[item.hash] + 1]
               else if |w.fingerprints| >= cap then Counts(w)
               else Counts(w)[item.hash := 1]
  {
  }

  lemma MethodsRecorded(w: Tally, item: Item, now: int, cap: int)
    ensures var w', m := Recorded(w, item, now, cap), item.method_;
            && MethodSampled(w') == MethodSampled(w)[m := MethodOf(w, m).sampled + 1]
            && MethodDistinct(w') == MethodDistinct(w)[m := MethodOf(w, m).distinct + if item.hash in w.fingerprints then 0 else 1]
  {
  }

  /** Recording conserves. */
  lemma RecordConserves(w: Tally, item: Item, now: int, cap: int)
    requires Conserved(w)
    ensures Conserved(Recorded(w, item, now, cap))
  {
    var h, m, ms := item.hash, item.method_, MethodOf(w, item.method_);
    CountsRecorded(w, item, now, cap);
    SumUpdate(Counts(w), h, if h in Counts(w) then Counts(w)[h] + 1 else 1);
    MethodsRecorded(w, item, now, cap);
    SumUpdate(MethodSampled(w), m, ms.sampled + 1);
    SumUpdate(MethodDistinct(w), m, ms.distinct + if h in w.fingerprints then 0 else 1);
  }

  // ------------------------------------------------------------------ what a window stands for

  function CountHash(hist: seq<Item>, h: nat): nat {
    if hist == [] then 0 else CountHash(hist[..|hist| - 1], h) + if hist[|hist| - 1].hash == h then 1 else 0
  }

  function CountMethod(hist: seq<Item>, m: string): nat {
    if hist == [] then 0 else CountMethod(hist[..|hist| - 1], m) + if hist[|hist| - 1].method_ == m then 1 else 0
  }

  function CountOutside(hist: seq<Item>, table: set<nat>): nat {
    if hist == [] then 0 else CountOutside(hist[..|hist| - 1], table) + if hist[|hist| - 1].hash in table then 0 else 1
  }

  function Hashes(hist: seq<Item>): set<nat> { set x | x in hist :: x.hash }

  /** The window is the summary of the items sampled in it: exact counts for what is in the table, and
      an overflow that counts every appearance of what is not. */
  ghost predicate Summarises(w: Tally, hist: seq<Item>, cap: int) {
    && w.sampled == |hist| && |w.fingerprints| <= Max(0, cap)
    && (forall m :: MethodOf(w, m).sampled == CountMethod(hist, m))
    && (forall h :: h in w.fingerprints ==> w.fingerprints[h].count == CountHash(hist, h) > 0)
    && (forall h :: h !in w.fingerprints && CountHash(hist, h) > 0 ==> |w.fingerprints| >= cap)
    && w.overflow == CountOutside(hist, w.fingerprints.Keys)
  }

  lemma Snoc(hist: seq<Item>, x: Item)
    ensures forall h :: CountHash(hist + [x], h) == CountHash(hist, h) + if x.hash == h then 1 else 0
    ensures forall m :: CountMethod(hist + [x], m) == CountMethod(hist, m) + if x.method_ == m then 1 else 0
    ensures forall table :: CountOutside(hist + [x], table) == CountOutside(hist, table) + if x.hash in table then 0 else 1
  {
    assert (hist + [x])[..|hist|] == hist;
  }

  lemma {:induction false} OutsideIgnoresAbsent(hist: seq<Item>, table: set<nat>, h: nat)
    requires CountHash(hist, h) == 0
    ensures CountOutside(hist, table + {h}) == CountOutside(hist, table)
    decreases |hist|
  {
    if hist != [] {
      OutsideIgnoresAbsent(hist[..|hist| - 1], table, h);
    }
  }

  lemma RecordKeepsSummary(w: Tally, hist: seq<Item>, item: Item, now: int, cap: int)
    requires Summarises(w, hist, cap)
    ensures Summarises(Recorded(w, item, now, cap), hist + [item], cap)
  {
    Snoc(hist, item);
    var w' := Recorded(w, item, now, cap);
    if item.hash in w.fingerprints || |w.fingerprints| >= cap {
      assert w'.fingerprints.Keys == w.fingerprints.Keys;
    } else {
      OutsideIgnoresAbsent(hist, w.fingerprints.Keys, item.hash);
      assert w'.fingerprints.Keys == w.fingerprints.Keys + {item.hash};
    }
  }

  // ------------------------------------------------------------------ how far the report can be trusted

  function OutsideHashes(hist: seq<Item>, table: set<nat>): set<nat> {
    if hist == [] then {}
    else OutsideHashes(hist[..|hist| - 1], table) + if hist[|hist| - 1].hash in table then {} else {hist[|hist| - 1].hash}
  }

  lemma {:induction false} OutsideMember(hist: seq<Item>, table: set<nat>, h: nat)
    ensures h in OutsideHashes(hist, table) <==> h !in table && CountHash(hist, h) > 0
    ensures h in Hashes(hist) <==> CountHash(hist, h) > 0
    decreases |hist|
  {
    if hist != [] {
      var n := |hist| - 1;
      OutsideMember(hist[..n], table, h);
      assert hist == hist[..n] + [hist[n]];
    }
  }

  ghost predicate NoRepeatOutside(hist: seq<Item>, table: set<nat>) {
    forall h :: h !in table ==> CountHash(hist, h) <= 1
  }

  /** Counting appearances overstates the number of hashes outside the table exactly when one repeats. */
  lemma {:induction false} OutsideExcess(hist: seq<Item>, table: set<nat>)
    ensures |OutsideHashes(hist, table)| <= CountOutside(hist, table)
    ensures |OutsideHashes(hist, table)| == CountOutside(hist, table) <==> NoRepeatOutside(hist, table)
    decreases |hist|
  {
    if hist != [] {
      var n := |hist| - 1;
      var x := hist[n].hash;
      OutsideExcess(hist[..n], table);
      OutsideMember(hist[..n], table, x);
      assert forall h :: CountHash(hist, h) == CountHash(hist[..n], h) + if x == h then 1 else 0;
    }
  }

  lemma TrueDistinct(w: Tally, hist: seq<Item>, cap: int)
    requires Summarises(w, hist, cap)
    ensures |Hashes(hist)| == |w.fingerprints| + |OutsideHashes(hist, w.fingerprints.Keys)|
  {
    var table := w.fingerprints.Keys;
    var out := OutsideHashes(hist, table);
    forall h
      ensures h in Hashes(hist) <==> h in table + out
    {
      OutsideMember(hist, table, h);
    }
    forall h | h in out
      ensures h !in table
    {
      OutsideMember(hist, table, h);
    }
    assert Hashes(hist) == table + out && table !! out;
    assert |table + out| == |table| + |out|;
  }

  /** The reported number of distinct requests never understates the true one nor exceeds the sample,
      and is exact if and only if no request left out of the table was seen twice. */
  lemma DistinctIsAnUpperBound(w: Tally, hist: seq<Item>, cap: int)
    requires Summarises(w, hist, cap)
    ensures |Hashes(hist)| <= Distinct(w) <= w.sampled
    ensures Distinct(w) == |Hashes(hist)| <==> NoRepeatOutside(hist, w.fingerprints.Keys)
  {
    TrueDistinct(w, hist, cap);
    OutsideExcess(hist, w.fingerprints.Keys);
    TableWithinSample(hist, w.fingerprints.Keys);
  }

  lemma {:induction false} TableWithinSample(hist: seq<Item>, table: set<nat>)
    requires forall h :: h in table ==> CountHash(hist, h) > 0
    ensures |table| + CountOutside(hist, table) <= |hist|
    decreases |hist|
  {
    if hist == [] {
      assert table == {};
    } else {
      var n := |hist| - 1;
      var x := hist[n].hash;
      assert forall h :: CountHash(hist, h) == CountHash(hist[..n], h) + if x == h then 1 else 0;
      if x in table && CountHash(hist[..n], x) == 0 {
        TableWithinSample(hist[..n], table - {x});
        OutsideIgnoresAbsent(hist[..n], table - {x}, x);
        assert table - {x} + {x} == table;
      } else {
        TableWithinSample(hist[..n], table);
      }
    }
  }

  /** A table large enough for all the distinct requests leaves nothing out. */
  lemma ExactWhenTableSuffices(w: Tally, hist: seq<Item>, cap: int)
    requires Summarises(w, hist, cap) && |Hashes(hist)| <= cap
    ensures w.overflow == 0 && Distinct(w) == |Hashes(hist)|
  {
    TrueDistinct(w, hist, cap);
    var out := OutsideHashes(hist, w.fingerprints.Keys);
    if out != {} {
      var h :| h in out;
      OutsideMember(hist, w.fingerprints.Keys, h);
      assert false;
    }
    NoneOutside(hist, w.fingerprints.Keys);
  }

  lemma {:induction false} NoneOutside(hist: seq<Item>, table: set<nat>)
    requires OutsideHashes(hist, table) == {}
    ensures CountOutside(hist, table) == 0
    decreases |hist|
  {
    if hist != [] {
      NoneOutside(hist[..|hist| - 1], table);
    }
  }

  // ------------------------------------------------------------------ one service

  datatype Service = Service(current: Window, previous: Option<Window>)

  datatype Limits = Limits(window: int, maxFingerprints: int)

  function RecordAll(w: Tally, items: seq<Item>, now: int, cap: int): Tally {
    if items == [] then w else Recorded(RecordAll(w, items[..|items| - 1], now, cap), items[|items| - 1], now, cap)
  }

  function Rotated(s: Service, now: int, length: int): Service {
    if now - s.current.start >= length then Service(NewWindow(now), Some(s.current.(end := Some(now)))) else s
  }

  /** A request of the service, with the items it was sampled as (none if it was not), or a report. */
  datatype Event = Seen(items: seq<Item>, now: int) | Polled(now: int)

  /** A request counts in the current window, and its items are recorded there; a report only reads. */
  function Applied(w: Window, e: Event, cap: int): Window {
    match e
    case Polled(_) => w
    case Seen(items, now) => w.(requestsSeen := w.requestsSeen + 1, tally := RecordAll(w.tally, items, now, cap))
  }

  function Step(s: Option<Service>, e: Event, limits: Limits): Option<Service> {
    if s.None? && e.Polled? then None
    else
      var t := if s.None? then Service(NewWindow(e.now), None) else Rotated(s.value, e.now, limits.window);
      Some(t.(current := Applied(t.current, e, limits.maxFingerprints)))
  }

  function After(events: seq<Event>, limits: Limits): Option<Service> {
    if events == [] then None else Step(After(events[..|events| - 1], limits), events[|events| - 1], limits)
  }

  lemma AfterSnoc(events: seq<Event>, e: Event, limits: Limits)
    ensures After(events + [e], limits) == Step(After(events, limits), e, limits)
  {
    assert (events + [e])[..|events|] == events;
  }

  // ------------------------------------------------------------------ windows as spans of events

  /** Which event opened the current window, and which the one before. */
  datatype Spans = Nowhere | Spans(previous: Option<nat>, current: nat)

  /** A service's first window opens with its first request; the next one with the first event that
      comes at least the window's length after the current one opened. */
  function Windows(events: seq<Event>, length: int): (s: Spans)
    ensures s.Spans? ==> s.current < |events| && (s.previous.Some? ==> s.previous.value < s.current)
  {
    if events == [] then Nowhere
    else
      var n, e := |events| - 1, events[|events| - 1];
      var s := Windows(events[..n], length);
      if s.Nowhere? then if e.Seen? then Spans(None, n) else Nowhere
      else if e.now - events[s.current].now >= length then Spans(Some(s.current), n)
      else s
  }

  function Requests(events: seq<Event>): nat {
    if events == [] then 0 else Requests(events[..|events| - 1]) + if events[|events| - 1].Seen? then 1 else 0
  }

  function Items(events: seq<Event>): seq<Item> {
    if events == [] then []
    else Items(events[..|events| - 1]) + if events[|events| - 1].Seen? then events[|events| - 1].items else []
  }

  /** What sampling these events from nothing leaves. */
  function TallyOf(events: seq<Event>, cap: int): Tally {
    if events == [] then NOTHING
    else
      var n, e := |events| - 1, events[|events| - 1];
      if e.Seen? then RecordAll(TallyOf(events[..n], cap), e.items, e.now, cap) else TallyOf(events[..n], cap)
  }

  /** The window accounts for exactly these events. */
  predicate Accounts(w: Window, events: seq<Event>, cap: int) {
    w.requestsSeen == Requests(events) && w.tally == TallyOf(events, cap)
  }

  lemma {:induction false} RecordAllSummarises(w: Tally, hist: seq<Item>, items: seq<Item>, now: int, cap: int, all: seq<Item>)
    requires Summarises(w, hist, cap) && all == hist + items
    ensures Summarises(RecordAll(w, items, now, cap), all, cap)
    decreases |items|
  {
    if items == [] {
      assert all == hist;
    } else {
      var init, x := all[..|all| - 1], items[|items| - 1];
      assert init == hist + items[..|items| - 1] && all == init + [x];
      RecordAllSummarises(w, hist, items[..|items| - 1], now, cap, init);
      OneMoreSummarised(RecordAll(w, items[..|items| - 1], now, cap), init, x, now, cap, RecordAll(w, items, now, cap), all);
    }
  }

  lemma OneMoreSummarised(w: Tally, hist: seq<Item>, item: Item, now: int, cap: int, w': Tally, hist': seq<Item>)
    requires Summarises(w, hist, cap) && w' == Recorded(w, item, now, cap) && hist' == hist + [item]
    ensures Summarises(w', hist', cap)
  {
    RecordKeepsSummary(w, hist, item, now, cap);
  }

  lemma {:induction false} RecordAllConserves(w: Tally, items: seq<Item>, now: int, cap: int)
    requires Conserved(w)
    ensures Conserved(RecordAll(w, items, now, cap))
    decreases |items|
  {
    if items != [] {
      var n := |items| - 1;
      RecordAllConserves(w, items[..n], now, cap);
      RecordConserves(RecordAll(w, items[..n], now, cap), items[n], now, cap);
    }
  }

  lemma NothingSummarised(cap: int)
    ensures Summarises(NOTHING, [], cap) && Conserved(NOTHING)
  {
    assert NOTHING.fingerprints.Keys == {};
    assert Counts(NOTHING) == map[] && MethodSampled(NOTHING) == map[] && MethodDistinct(NOTHING) == map[];
  }

  /** The tally of any events is conserved and summarises exactly the items they were sampled as. */
  lemma {:induction false} TallySummarises(events: seq<Event>, cap: int)
    ensures Summarises(TallyOf(events, cap), Items(events), cap) && Conserved(TallyOf(events, cap))
    decreases |events|
  {
    if events == [] {
      NothingSummarised(cap);
    } else {
      var n, e := |events| - 1, events[|events| - 1];
      TallySummarises(events[..n], cap);
      if e.Seen? {
        RecordAllSummarises(TallyOf(events[..n], cap), Items(events[..n]), e.items, e.now, cap, Items(events));
        RecordAllConserves(TallyOf(events[..n], cap), e.items, e.now, cap);
      } else {
        assert Items(events) == Items(events[..n]);
      }
    }
  }

  // ------------------------------------------------------------------ what an entry says of its request

  /** An item and when it was sampled. */
  datatype Visit = Visit(item: Item, at: int)

  function VisitsOf(items: seq<Item>, now: int): seq<Visit> {
    seq(|items|, i requires 0 <= i < |items| => Visit(items[i], now))
  }

  function Visits(events: seq<Event>): seq<Visit> {
    if events == [] then []
    else
      var n, e := |events| - 1, events[|events| - 1];
      Visits(events[..n]) + if e.Seen? then VisitsOf(e.items, e.now) else []
  }

  /** The first and the last visit with a hash. */
  ghost function First(v: seq<Visit>, h: nat): Option<Visit> {
    if v == [] then None
    else if First(v[..|v| - 1], h).Some? then First(v[..|v| - 1], h)
    else if v[|v| - 1].item.hash == h then Some(v[|v| - 1]) else None
  }

  ghost function Last(v: seq<Visit>, h: nat): Option<Visit> {
    if v == [] then None
    else if v[|v| - 1].item.hash == h then Some(v[|v| - 1]) else Last(v[..|v| - 1], h)
  }

  lemma OneMoreVisit(v: seq<Visit>, x: Visit, h: nat)
    ensures First(v + [x], h) == if First(v, h).None? && x.item.hash == h then Some(x) else First(v, h)
    ensures Last(v + [x], h) == if x.item.hash == h then Some(x) else Last(v, h)
  {
    assert (v + [x])[..|v|] == v;
  }

  /** The entry names the method and the first 200 bytes of the request's first visit, and dates its
      first and its last. */
  ghost predicate Dated(e: Entry, first: Option<Visit>, last: Option<Visit>) {
    && first.Some? && last.Some? && e.firstSeen == first.value.at && e.lastSeen == last.value.at
    && e.method_ == first.value.item.method_
    && var text := first.value.item.canonical;
       e.snippet == if |text| <= 200 then text else text[..200] + "\U{2026}"
  }

  /** The table's entry for a hash is that of its request; a request without one met a full table. */
  ghost predicate DescribesHash(table: map<nat, Entry>, v: seq<Visit>, cap: int, h: nat) {
    && (h in table ==> Dated(table[h], First(v, h), Last(v, h)))
    && (h !in table && First(v, h).Some? ==> |table| >= cap)
  }

  ghost predicate Describes(table: map<nat, Entry>, v: seq<Visit>, cap: int) {
    forall h :: DescribesHash(table, v, cap, h)
  }

  lemma TableGrows(w: Tally, item: Item, now: int, cap: int)
    ensures var table := Recorded(w, item, now, cap).fingerprints;
            && w.fingerprints.Keys <= table.Keys && |w.fingerprints| <= |table|
            && (forall h :: h != item.hash && h in table ==> h in w.fingerprints && table[h] == w.fingerprints[h])
  {
  }

  lemma RecordDescribesHash(w: Tally, v: seq<Visit>, x: Visit, cap: int, h: nat)
    requires DescribesHash(w.fingerprints, v, cap, h)
    ensures DescribesHash(Recorded(w, x.item, x.at, cap).fingerprints, v + [x], cap, h)
  {
    TableGrows(w, x.item, x.at, cap);
    OneMoreVisit(v, x, h);
  }

  lemma RecordKeepsDates(w: Tally, v: seq<Visit>, x: Visit, cap: int)
    requires Describes(w.fingerprints, v, cap)
    ensures Describes(Recorded(w, x.item, x.at, cap).fingerprints, v + [x], cap)
  {
    forall h
      ensures DescribesHash(Recorded(w, x.item, x.at, cap).fingerprints, v + [x], cap, h)
    {
      assert DescribesHash(w.fingerprints, v, cap, h);
      RecordDescribesHash(w, v, x, cap, h);
    }
  }

  lemma {:induction false} RecordAllKeepsDates(w: Tally, v: seq<Visit>, items: seq<Item>, now: int, cap: int)
    requires Describes(w.fingerprints, v, cap)
    ensures Describes(RecordAll(w, items, now, cap).fingerprints, v + VisitsOf(items, now), cap)
    decreases |items|
  {
    if items == [] {
      assert v + VisitsOf(items, now) == v;
    } else {
      var n := |items| - 1;
      RecordAllKeepsDates(w, v, items[..n], now, cap);
      RecordKeepsDates(RecordAll(w, items[..n], now, cap), v + VisitsOf(items[..n], now), Visit(items[n], now), cap);
      assert v + VisitsOf(items, now) == v + VisitsOf(items[..n], now) + [Visit(items[n], now)];
    }
  }

  /** Whatever was sampled, every entry of the table is dated by the first and the last visit of its
      request among all of them, the ones before the table held it included. */
  lemma {:induction false} EntriesAreDated(events: seq<Event>, cap: int)
    ensures Describes(TallyOf(events, cap).fingerprints, Visits(events), cap)
    decreases |events|
  {
    if events != [] {
      var n, e := |events| - 1, events[|events| - 1];
      EntriesAreDated(events[..n], cap);
      if e.Seen? {
        RecordAllKeepsDates(TallyOf(events[..n], cap), Visits(events[..n]), e.items, e.now, cap);
      } else {
        assert Visits(events) == Visits(events[..n]);
      }
    }
  }

  lemma AppliedAccounts(w: Window, events: seq<Event>, e: Event, cap: int)
    requires Accounts(w, events, cap)
    ensures Accounts(Applied(w, e, cap), events + [e], cap) && Applied(w, e, cap).start == w.start
  {
    assert (events + [e])[..|events|] == events;
  }

  lemma OpenedAccounts(e: Event, cap: int)
    ensures Accounts(Applied(NewWindow(e.now), e, cap), [e], cap) && Applied(NewWindow(e.now), e, cap).start == e.now
  {
    AppliedAccounts(NewWindow(e.now), [], e, cap);
    assert [] + [e] == [e];
  }

  /** What the current window should be after these events. */
  predicate CurrentIs(w: Window, events: seq<Event>, s: Spans, cap: int)
    requires s.Spans? && s.current < |events|
  {
    w.start == events[s.current].now && Accounts(w, events[s.current..], cap)
  }

  predicate PreviousIs(p: Option<Window>, events: seq<Event>, s: Spans, cap: int)
    requires s.Spans? && s.current < |events| && (s.previous.Some? ==> s.previous.value < s.current)
  {
    && (p.Some? <==> s.previous.Some?)
    && (p.Some? ==> p.value.end == Some(events[s.current].now)
                    && Accounts(p.value, events[s.previous.value..s.current], cap))
  }

  /** Every window a service reports, current or completed, accounts for exactly the events of its own
      span, whatever the run. */
  lemma {:induction false} WindowsAreTheirSpans(events: seq<Event>, limits: Limits)
    ensures Stands(After(events, limits), events, Windows(events, limits.window), limits.maxFingerprints)
    decreases |events|
  {
    if events != [] {
      var n := |events| - 1;
      WindowsAreTheirSpans(events[..n], limits);
      assert events == events[..n] + [events[n]];
      StepKeepsSpans(events[..n], events[n], After(events[..n], limits), limits);
    }
  }

  /** The service stands where its windows' spans say it should. */
  predicate Stands(t: Option<Service>, events: seq<Event>, s: Spans, cap: int)
    requires s.Spans? ==> s.current < |events| && (s.previous.Some? ==> s.previous.value < s.current)
  {
    if s.Nowhere? then t.None?
    else t.Some? && CurrentIs(t.value.current, events, s, cap) && PreviousIs(t.value.previous, events, s, cap)
  }

  lemma StepKeepsSpans(events: seq<Event>, e: Event, t: Option<Service>, limits: Limits)
    requires Stands(t, events, Windows(events, limits.window), limits.maxFingerprints)
    ensures Stands(Step(t, e, limits), events + [e], Windows(events + [e], limits.window), limits.maxFingerprints)
  {
    assert (events + [e])[..|events|] == events;
    var s := Windows(events, limits.window);
    if s.Nowhere? {
      OpenedAccounts(e, limits.maxFingerprints);
      assert (events + [e])[|events|..] == [e];
    } else if e.now - events[s.current].now >= limits.window {
      Rotates(events, e, t.value, s, limits);
    } else {
      Stays(events, e, t.value, s, limits);
    }
  }

  lemma Rotates(events: seq<Event>, e: Event, t: Service, s: Spans, limits: Limits)
    requires s.Spans? && s.current < |events| && (s.previous.Some? ==> s.previous.value < s.current)
    requires Stands(Some(t), events, s, limits.maxFingerprints) && e.now - events[s.current].now >= limits.window
    ensures Stands(Step(Some(t), e, limits), events + [e], Spans(Some(s.current), |events|), limits.maxFingerprints)
  {
    OpenedAccounts(e, limits.maxFingerprints);
    assert (events + [e])[|events|..] == [e] && (events + [e])[s.current..|events|] == events[s.current..];
  }

  lemma Stays(events: seq<Event>, e: Event, t: Service, s: Spans, limits: Limits)
    requires s.Spans? && s.current < |events| && (s.previous.Some? ==> s.previous.value < s.current)
    requires Stands(Some(t), events, s, limits.maxFingerprints) && e.now - events[s.current].now < limits.window
    ensures Stands(Step(Some(t), e, limits), events + [e], s, limits.maxFingerprints)
  {
    AppliedAccounts(t.current, events[s.current..], e, limits.maxFingerprints);
    assert (events + [e])[s.current..] == events[s.current..] + [e];
    if s.previous.Some? {
      assert (events + [e])[s.previous.value..s.current] == events[s.previous.value..s.current];
    }
  }

  // ------------------------------------------------------------------ the sampler

  function Of(services: map<string, Service>, id: string): Option<Service> {
    if id in services then Some(services[id]) else None
  }

  /** What has happened to a service. */
  function EventsOf(log: map<string, seq<Event>>, id: string): seq<Event> { if id in log then log[id] else [] }

  ghost predicate Tracked(services: map<string, Service>, log: map<string, seq<Event>>, limits: Limits) {
    forall id :: Of(services, id) == After(EventsOf(log, id), limits)
  }

  /** One service takes a step and the others stay where they are. */
  ghost predicate Stepped(services: map<string, Service>, services': map<string, Service>, id: string, e: Event, limits: Limits) {
    && Of(services', id) == Step(Of(services, id), e, limits)
    && forall other :: other != id ==> Of(services', other) == Of(services, other)
  }

  lemma TrackStep(services: map<string, Service>, services': map<string, Service>, log: map<string, seq<Event>>, id: string,
                  e: Event, limits: Limits)
    requires Tracked(services, log, limits) && Stepped(services, services', id, e, limits)
    ensures Tracked(services', log[id := EventsOf(log, id) + [e]], limits)
  {
    var log' := log[id := EventsOf(log, id) + [e]];
    forall other
      ensures Of(services', other) == After(EventsOf(log', other), limits)
    {
      if other == id {
        AfterSnoc(EventsOf(log, id), e, limits);
      } else {
        assert EventsOf(log', other) == EventsOf(log, other);
      }
    }
  }

  /** A service of a sampler reports, for each of its windows, exactly the events of the window's span. */
  lemma TrackedWindows(services: map<string, Service>, log: map<string, seq<Event>>, limits: Limits, id: string)
    requires Tracked(services, log, limits)
    ensures Stands(Of(services, id), EventsOf(log, id), Windows(EventsOf(log, id), limits.window), limits.maxFingerprints)
  {
    WindowsAreTheirSpans(EventsOf(log, id), limits);
  }

  type Rate = n: nat | n > 0 witness 1

  class Sampler {
    const rate: Rate
    const limits: Limits
    var counter: nat
    var services: map<string, Service>
    ghost var log: map<string, seq<Event>>

    /** Every service stands where its own events have led it. */
    ghost predicate Valid()
      reads this
    {
      Tracked(services, log, limits)
    }

    constructor (rate: nat, limits: Limits)
      ensures this.rate == (if rate == 0 then 1 else rate) && this.limits == limits
      ensures Valid() && counter == 0 && log == map[]
    {
      this.rate := if rate == 0 then 1 else rate;
      this.limits := limits;
      counter, services, log := 0, map[], map[];
    }

    method CurrentWindow(id: string, now: int) returns (w: Window)
      modifies this`services
      ensures id in services && services[id].current == w && services.Keys == old(services.Keys) + {id}
      ensures services[id] == if id in old(services) then Rotated(old(services)[id], now, limits.window)
                              else Service(NewWindow(now), None)
      ensures forall other :: other in old(services) && other != id ==> services[other] == old(services)[other]
    {
      if id !in services {
        w := NewWindow(now);
        services := services[id := Service(w, None)];
        return;
      }
      var s := services[id];
      if now - s.current.start >= limits.window {
        s := Service(NewWindow(now), Some(s.current.(end := Some(now))));
        services := services[id := s];
      }
      w := s.current;
    }

    /** A request of service `id`; `items` is what it is fingerprinted as if it is the one in N. */
    method Observe(id: string, items: seq<Item>, now: int)
      requires Valid()
      modifies this
      ensures Valid() && counter == old(counter) + 1
      ensures log == old(log)[id := EventsOf(old(log), id) + [Seen(if counter % rate == 0 then items else [], now)]]
    {
      counter := counter + 1;
      var sampled := if counter % rate == 0 then items else [];
      ghost var was := services;
      CountRequest(id, sampled, now);
      TrackStep(was, services, log, id, Seen(sampled, now), limits);
      log := log[id := EventsOf(log, id) + [Seen(sampled, now)]];
    }

    /** Count a request in its service's window and record the items it was sampled as. */
    method CountRequest(id: string, items: seq<Item>, now: int)
      modifies this`services
      ensures Stepped(old(services), services, id, Seen(items, now), limits)
    {
      var w := CurrentWindow(id, now);
      var tally := RecordEach(w.tally, items, now);
      w := w.(requestsSeen := w.requestsSeen + 1, tally := tally);
      services := services[id := services[id].(current := w)];
    }

    method RecordEach(w: Tally, items: seq<Item>, now: int) returns (w': Tally)
      ensures w' == RecordAll(w, items, now, limits.maxFingerprints)
    {
      w' := w;
      for i := 0 to |items|
        invariant w' == RecordAll(w, items[..i], now, limits.maxFingerprints)
      {
        assert items[..i + 1][..i] == items[..i];
        w' := Recorded(w', items[i], now, limits.maxFingerprints);
      }
      assert items[..|items|] == items;
    }

    /** A report rotates a window that is due before it reads it; there is nothing to report for an
        unknown service, or for a previous window that does not exist. */
    method Report(id: string, previous: bool, now: int) returns (w: Option<Window>)
      requires Valid()
      modifies this`services, this`log
      ensures Valid() && log == old(log)[id := EventsOf(old(log), id) + [Polled(now)]]
      ensures w == if id !in services then None else if previous then services[id].previous else Some(services[id].current)
    {
      ghost var was := services;
      if id !in services {
        w := None;
      } else {
        var current := CurrentWindow(id, now);
        w := if previous then services[id].previous else Some(current);
      }
      TrackStep(was, services, log, id, Polled(now), limits);
      log := log[id := EventsOf(log, id) + [Polled(now)]];
    }
  }
}
