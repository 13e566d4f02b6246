/**
 The text form in which circuit breaks are shared through Redis
 (gateway/domain_circuit_breaker.go): "unixSeconds:hitCount:reason" and its two older forms. A character stands for a byte.
 */
module BreakerCodec {
  import opened Prelude

  const INT64_MIN: int := -0x8000_0000_0000_0000
  const INT64_MAX: int := 0x7FFF_FFFF_FFFF_FFFF
  const REASON_LIMIT: nat := 500

  predicate IsInt64(n: int) { INT64_MIN <= n <= INT64_MAX }

  predicate IsDigit(c: char) { '0' <= c <= '9' }

  function Digit(n: nat): char
    requires n < 10
  {
    (n as char) + '0'
  }

  /** Decimal digits of a natural number, most significant first. */
  function Digits(n: nat): string {
    if n < 10 then [Digit(n)] else Digits(n / 10) + [Digit(n % 10)]
  }

  function Itoa(n: int): string { if n < 0 then "-" + Digits(-n) else Digits(n) }

  function ParseDigits(s: string): Option<nat> {
    if s == [] then Some(0)
    else
      var c := s[|s| - 1];
      match ParseDigits(s[..|s| - 1])
      case None => None
      case Some(n) => if IsDigit(c) then Some(10 * n + (c as int - '0' as int)) else None
  }

  /** strconv.ParseInt(s, 10, 64): an optional sign, then one or more digits, in range. */
  function ParseInt(s: string): Option<int> {
    var signed := s != [] && (s[0] == '-' || s[0] == '+');
    var body := if signed then s[1..] else s;
    if body == [] then None
    else
      match ParseDigits(body)
      case None => None
      case Some(n) =>
        var value: int := if s[0] == '-' then -(n as int) else n;
        if IsInt64(value) then Some(value) else None
  }

  function IndexOf(s: string, c: char): (i: nat)
    ensures i <= |s| && (forall k :: 0 <= k < i ==> s[k] != c) && (i < |s| ==> s[i] == c)
  {
    if s == [] || s[0] == c then 0 else 1 + IndexOf(s[1..], c)
  }

  /** strings.SplitN(s, ":", n): at most n parts, the last one unsplit. */
  function SplitN(s: string, n: nat): seq<string>
    requires 0 < n
  {
    var i := IndexOf(s, ':');
    if n == 1 || i == |s| then [s] else [s[..i]] + SplitN(s[i + 1..], n - 1)
  }

  datatype Record = Record(expiryUnix: int, hitCount: int, reason: string)

  function ParseRedisValue(val: string): Option<Record> {
    var parts := SplitN(val, 3);
    if |parts| == 3 || |parts| == 2 then
      match (ParseInt(parts[0]), ParseInt(parts[1]))
      case (Some(expiry), Some(hits)) => Some(Record(expiry, hits, if |parts| == 3 then parts[2] else ""))
      case _ => None
    else
      match ParseInt(val)
      case Some(expiry) => Some(Record(expiry, 1, ""))
      case None => None
  }

  function Truncated(reason: string): string {
    if |reason| > REASON_LIMIT then reason[..REASON_LIMIT] else reason
  }

  /** The value MarkBroken writes. */
  function RedisValue(r: Record): string {
    Itoa(r.expiryUnix) + ":" + Itoa(r.hitCount) + ":" + Truncated(r.reason)
  }

  // ------------------------------------------------------------------ round trip

  lemma {:induction false} DigitsRoundTrip(n: nat)
    ensures Digits(n) != [] && (forall i :: 0 <= i < |Digits(n)| ==> IsDigit(Digits(n)[i]))
    ensures ParseDigits(Digits(n)) == Some(n)
  {
    if n < 10 {
      assert Digits(n)[..0] == [];
    } else {
      DigitsRoundTrip(n / 10);
      assert Digits(n)[..|Digits(n)| - 1] == Digits(n / 10);
    }
  }

  lemma ItoaRoundTrip(n: int)
    requires IsInt64(n)
    ensures ParseInt(Itoa(n)) == Some(n) && ':' !in Itoa(n)
  {
    DigitsRoundTrip(if n < 0 then -n else n);
  }

  lemma SplitAt(head: string, tail: string, n: nat)
    requires ':' !in head && 1 < n
    ensures SplitN(head + ":" + tail, n) == [head] + SplitN(tail, n - 1)
  {
    var s := head + ":" + tail;
    var i := IndexOf(s, ':');
    assert s[|head|] == ':';
    assert forall k :: 0 <= k < |head| ==> s[k] == head[k];
    assert i == |head|;
    assert s[..i] == head && s[i + 1..] == tail;
  }

  lemma NoSplit(s: string, n: nat)
    requires ':' !in s && 0 < n
    ensures SplitN(s, n) == [s]
  {
  }

  /** What one pod writes, another reads back whole: every reason, colons included, up to the 500
      characters that are kept. */
  lemma CurrentFormatRoundTrip(r: Record)
    requires IsInt64(r.expiryUnix) && IsInt64(r.hitCount)
    ensures ParseRedisValue(RedisValue(r))
            == Some(r.(reason := if |r.reason| > 500 then r.reason[..500] else r.reason))
  {
    var e, h, t := Itoa(r.expiryUnix), Itoa(r.hitCount), Truncated(r.reason);
    ItoaRoundTrip(r.expiryUnix);
    ItoaRoundTrip(r.hitCount);
    assert RedisValue(r) == e + ":" + (h + ":" + t);
    SplitAt(e, h + ":" + t, 3);
    SplitAt(h, t, 2);
  }

  /** The two older formats parse to their documented defaults. */
  lemma LegacyFormats(expiryUnix: int, hitCount: int)
    requires IsInt64(expiryUnix) && IsInt64(hitCount)
    ensures ParseRedisValue(Itoa(expiryUnix) + ":" + Itoa(hitCount)) == Some(Record(expiryUnix, hitCount, ""))
    ensures ParseRedisValue(Itoa(expiryUnix)) == Some(Record(expiryUnix, 1, ""))
  {
    ItoaRoundTrip(expiryUnix);
    ItoaRoundTrip(hitCount);
    SplitAt(Itoa(expiryUnix), Itoa(hitCount), 3);
    NoSplit(Itoa(hitCount), 2);
    NoSplit(Itoa(expiryUnix), 3);
  }
}
