/**
 Signed-request verification in front of the webhook: the time window, the replay
 cache with its expiry, and what follows.  Clock readings and Redis times are given
 with each call; the lemmas say how long the cache must remember.
 */
module Replay {
  import opened ColonKeys
  import opened Options
  import opened Strings

  /** Headers as received; None when absent. */
  datatype Headers = Headers(serial: Option<string>, timestamp: Option<string>, signature: Option<string>)

  /**
   One verification.  clock is what time.time() returned, at the moment Redis executed the
   SET; cacheUp, known and genuine are the answers of Redis, the registry and the
   comparison with the active and the previous secret.
   */
  datatype Call = Call(h: Headers, clock: real, at: real, cacheUp: bool, known: bool, genuine: bool)

  datatype Outcome =
    | Accepted
    | MissingHeader
    | BadFormat
    | StaleTimestamp
    | CacheUnavailable
    | Replayed
    | UnknownSerial
    | BadSignature

  type Cache = map<string, real>

  predicate Given(o: Option<string>) {
    o.Some? && o.value != ""
  }

  predicate IsDigit(c: char) {
    '0' <= c <= '9'
  }

  /** Digits, with single underscores between them. */
  predicate IsNumber(s: string) {
    && s != "" && IsDigit(s[0]) && IsDigit(s[|s| - 1])
    && (forall i :: 0 <= i < |s| ==> IsDigit(s[i]) || s[i] == '_')
    && (forall i :: 0 <= i < |s| - 1 ==> s[i] != '_' || s[i + 1] != '_')
  }

  function NumberValue(s: string): int
    requires forall i :: 0 <= i < |s| ==> IsDigit(s[i]) || s[i] == '_'
  {
    if s == "" then 0
    else if s[|s| - 1] == '_' then NumberValue(s[..|s| - 1])
    else NumberValue(s[..|s| - 1]) * 10 + (s[|s| - 1] as int - '0' as int)
  }

  /** int(text): blanks around it are ignored, a sign may come first. */
  function ParseInt(s: string): Option<int> {
    var t := Trim(s);
    if t != "" && (t[0] == '-' || t[0] == '+') then
      if IsNumber(t[1..]) then Some(if t[0] == '-' then 0 - NumberValue(t[1..]) else NumberValue(t[1..])) else None
    else if IsNumber(t) then Some(NumberValue(t)) else None
  }

  predicate IsSignature(s: string) {
    |s| == 64 && forall i :: 0 <= i < 64 ==> '0' <= s[i] <= '9' || 'a' <= s[i] <= 'f' || 'A' <= s[i] <= 'F'
  }

  predicate HeadersPresent(h: Headers) {
    Given(h.serial) && Given(h.timestamp) && Given(h.signature)
  }

  predicate WellFormed(h: Headers) {
    HeadersPresent(h) && Trim(h.serial.value) != "" && ParseInt(h.timestamp.value).Some? && IsSignature(h.signature.value)
  }

  predicate InWindow(now: int, ts: int, skew: nat) {
    ts <= now + skew && now <= ts + skew
  }

  function KeyOf(h: Headers): string
    requires WellFormed(h)
  {
    "panoptic:replay:" + h.serial.value + ":" + h.timestamp.value + ":" + h.signature.value[..16]
  }

  /** A key with an expiry lives through that instant. */
  predicate Live(cache: Cache, key: string, at: real) {
    key in cache && at <= cache[key]
  }

  /** SET key NX EX ttl. */
  function Marked(cache: Cache, key: string, at: real, ttl: nat): Cache {
    if Live(cache, key, at) then cache else cache[key := at + ttl as real]
  }

  /** The call reaches the replay cache. */
  predicate Observes(c: Call, skew: nat) {
    WellFormed(c.h) && InWindow(c.clock.Floor, ParseInt(c.h.timestamp.value).value, skew) && c.cacheUp
  }

  function OutcomeOf(cache: Cache, c: Call, skew: nat): Outcome {
    if !HeadersPresent(c.h) then MissingHeader
    else if !WellFormed(c.h) then BadFormat
    else if !InWindow(c.clock.Floor, ParseInt(c.h.timestamp.value).value, skew) then StaleTimestamp
    else if !c.cacheUp then CacheUnavailable
    else if Live(cache, KeyOf(c.h), c.at) then Replayed
    else if !c.known then UnknownSerial
    else if !c.genuine then BadSignature
    else Accepted
  }

  /** The cache after a run of calls, in the order Redis served them. */
  function After(calls: seq<Call>, skew: nat, ttl: nat): Cache {
    if calls == [] then map[]
    else
      var before, c := After(calls[..|calls| - 1], skew, ttl), calls[|calls| - 1];
      if Observes(c, skew) then Marked(before, KeyOf(c.h), c.at, ttl) else before
  }

  class ReplayCache {
    const ttl: nat
    var cache: Cache

    constructor (ttl: nat)
      ensures this.ttl == ttl && cache == map[]
    {
      this.ttl, cache := ttl, map[];
    }

    /** True when the key is new. */
    method Observe(key: string, at: real) returns (isNew: bool)
      modifies this`cache
      ensures isNew <==> key in old(cache) ==> old(cache)[key] < at
      ensures cache == if isNew then old(cache)[key := at + ttl as real] else old(cache)
      ensures cache == Marked(old(cache), key, at, ttl)
    {
      isNew := !Live(cache, key, at);
      if isNew {
        cache := cache[key := at + ttl as real];
      }
    }
  }

  predicate Absent(o: Option<string>) {
    o.None? || |o.value| == 0
  }

  /** The three headers are given and readable. */
  ghost predicate Readable(h: Headers) {
    && h.serial.Some? && (exists i :: 0 <= i < |h.serial.value| && !IsSpace(h.serial.value[i]))
    && h.timestamp.Some? && ParseInt(h.timestamp.value).Some?
    && h.signature.Some? && |h.signature.value| == 64
    && (forall i :: 0 <= i < 64 ==> h.signature.value[i] in "0123456789abcdefABCDEF")
  }

  /** The clock's whole seconds are at most skew away from the timestamp. */
  ghost predicate Timely(c: Call, skew: nat) {
    c.h.timestamp.Some? && exists ts :: ParseInt(c.h.timestamp.value) == Some(ts) && -(skew as int) <= c.clock.Floor - ts <= skew
  }

  /** The call comes as far as the replay cache, and the cache answers. */
  ghost predicate Asks(c: Call, skew: nat) {
    Readable(c.h) && Timely(c, skew) && c.cacheUp
  }

  /** No live mark for the key of the call. */
  ghost predicate New(c: Call, cache: Cache)
    requires Readable(c.h)
  {
    ReadableIff(c.h);
    KeyOf(c.h) in cache ==> cache[KeyOf(c.h)] < c.at
  }

  lemma ReadableIff(h: Headers)
    ensures Readable(h) <==> WellFormed(h)
    ensures Readable(h) ==> HeadersPresent(h)
  {
    if h.serial.Some? {
      TrimEmptyIff(h.serial.value);
    }
    if h.timestamp.Some? && h.timestamp.value == "" {
      assert ParseInt("").None?;
    }
  }

  lemma TimelyIff(c: Call, skew: nat)
    requires WellFormed(c.h)
    ensures Timely(c, skew) <==> InWindow(c.clock.Floor, ParseInt(c.h.timestamp.value).value, skew)
  {
  }

  /**
   verify_request: a call is accepted exactly when every check holds, and otherwise the outcome
   names the first that fails; the cache is that of the run.
   */
  method VerifyRequest(replay: ReplayCache, c: Call, skew: nat, ghost calls: seq<Call>) returns (outcome: Outcome)
    requires replay.cache == After(calls, skew, replay.ttl)
    modifies replay
    ensures outcome == MissingHeader <==> Absent(c.h.serial) || Absent(c.h.timestamp) || Absent(c.h.signature)
    ensures outcome == BadFormat <==> outcome != MissingHeader && !Readable(c.h)
    ensures outcome == StaleTimestamp <==> Readable(c.h) && !Timely(c, skew)
    ensures outcome == CacheUnavailable <==> Readable(c.h) && Timely(c, skew) && !c.cacheUp
    ensures outcome == Replayed <==> Asks(c, skew) && !New(c, old(replay.cache))
    ensures outcome == UnknownSerial <==> Asks(c, skew) && New(c, old(replay.cache)) && !c.known
    ensures outcome == BadSignature <==> Asks(c, skew) && New(c, old(replay.cache)) && c.known && !c.genuine
    ensures outcome == Accepted <==> Asks(c, skew) && New(c, old(replay.cache)) && c.known && c.genuine
    ensures outcome == OutcomeOf(After(calls, skew, replay.ttl), c, skew)
    ensures replay.cache == After(calls + [c], skew, replay.ttl)
  {
    hide ParseInt, Trim, IsSignature;
    ReadableIff(c.h);
    if WellFormed(c.h) {
      TimelyIff(c, skew);
    }
    assert (calls + [c])[..|calls|] == calls;
    if !Given(c.h.serial) || !Given(c.h.timestamp) || !Given(c.h.signature) {
      return MissingHeader;
    }
    if Trim(c.h.serial.value) == "" {
      return BadFormat;
    }
    var ts := ParseInt(c.h.timestamp.value);
    if ts.None? || !IsSignature(c.h.signature.value) {
      return BadFormat;
    }
    if !InWindow(c.clock.Floor, ts.value, skew) {
      return StaleTimestamp;
    }
    if !c.cacheUp {
      return CacheUnavailable;
    }
    var isNew := replay.Observe(KeyOf(c.h), c.at);
    if !isNew {
      return Replayed;
    }
    if !c.known {
      return UnknownSerial;
    }
    if !c.genuine {
      return BadSignature;
    }
    return Accepted;
  }

  // ---------------------------------------------------------------------
  // How long the cache must remember
  // ---------------------------------------------------------------------

  /**
   Redis serves the calls in order, each at most delay seconds after its clock
   reading; whole says that the clock only shows whole seconds.
   */
  ghost predicate WellTimed(calls: seq<Call>, delay: real, whole: bool) {
    && (forall i :: 0 <= i < |calls| ==> calls[i].clock <= calls[i].at <= calls[i].clock + delay)
    && (forall i, j :: 0 <= i < j < |calls| ==> calls[i].at <= calls[j].at)
    && (whole ==> forall i :: 0 <= i < |calls| ==> calls[i].clock == calls[i].clock.Floor as real)
  }

  predicate AcceptedAt(calls: seq<Call>, n: nat, skew: nat, ttl: nat)
    requires n < |calls|
  {
    OutcomeOf(After(calls[..n], skew, ttl), calls[n], skew) == Accepted
  }

  /** No run accepts two requests with the same serial, timestamp and signature. */
  ghost predicate Safe(skew: nat, ttl: nat, delay: real, whole: bool) {
    forall calls: seq<Call>, i, j :: WellTimed(calls, delay, whole) && 0 <= i < j < |calls| && calls[i].h == calls[j].h
      ==> !(AcceptedAt(calls, i, skew, ttl) && AcceptedAt(calls, j, skew, ttl))
  }

  /** A mark that was set stays until it expires. */
  lemma {:induction false} MarkStays(calls: seq<Call>, key: string, expiry: real, from: nat, to: nat, skew: nat, ttl: nat)
    requires from <= to <= |calls|
    requires key in After(calls[..from], skew, ttl) && After(calls[..from], skew, ttl)[key] == expiry
    requires forall k :: from <= k < to ==> calls[k].at <= expiry
    ensures key in After(calls[..to], skew, ttl) && After(calls[..to], skew, ttl)[key] == expiry
  {
    hide WellFormed, KeyOf, Observes;
    if from < to {
      MarkStays(calls, key, expiry, from, to - 1, skew, ttl);
      assert calls[..to][..to - 1] == calls[..to - 1];
    }
  }

  // ---------------------------------------------------------------------
  // Which calls a run accepts
  // ---------------------------------------------------------------------

  lemma NumberHasNoColon(s: string)
    requires ParseInt(s).Some?
    ensures ':' !in s
  {
    var t := Trim(s);
    TrimKeeps(s, ':');
    if t[0] == '-' || t[0] == '+' {
      assert t == [t[0]] + t[1..] && ':' !in t[1..];
    }
  }

  /** A key of the replay cache stands for one serial, timestamp text and signature beginning. */
  lemma KeyIff(a: Headers, b: Headers)
    requires WellFormed(a) && WellFormed(b)
    ensures KeyOf(a) == KeyOf(b) <==>
      a.serial == b.serial && a.timestamp == b.timestamp && a.signature.value[..16] == b.signature.value[..16]
  {
    NumberHasNoColon(a.timestamp.value);
    NumberHasNoColon(b.timestamp.value);
    hide ParseInt, Trim, IsSignature;
    if KeyOf(a) == KeyOf(b) {
      var k, head := KeyOf(a), "panoptic:replay:";
      var s, t := a.serial.value + ":" + a.timestamp.value, b.serial.value + ":" + b.timestamp.value;
      assert k == head + s + ":" + a.signature.value[..16] && k == head + t + ":" + b.signature.value[..16];
      assert k[|k| - 16..] == a.signature.value[..16] && k[|k| - 16..] == b.signature.value[..16];
      assert k[|head|..|k| - 17] == s && k[|head|..|k| - 17] == t;
      LastColon(a.serial.value, a.timestamp.value, b.serial.value, b.timestamp.value);
    }
  }

  lemma HasColon(a: string, b: string)
    ensures ':' in a + ":" + b
  {
    assert (a + ":" + b)[|a|] == ':';
  }

  lemma ShorterThenColon(a: string, x: string, b: string, y: string)
    requires |a| < |b|
    ensures a + ":" + x == b + ":" + y ==> ':' in x
  {
    JoinedLonger(a, x, b, y);
    HasColon(b[|a| + 1..], y);
  }

  /** Without colons in its end, a text is cut at its last colon in one way. */
  lemma LastColon(a: string, x: string, b: string, y: string)
    requires ':' !in x && ':' !in y
    ensures a + ":" + x == b + ":" + y <==> a == b && x == y
  {
    JoinedIff(a, x, b, y);
    if |a| < |b| {
      ShorterThenColon(a, x, b, y);
    } else if |b| < |a| {
      ShorterThenColon(b, y, a, x);
    }
  }

  /** The call set its key: it reached the cache and found no live mark. */
  predicate Marks(calls: seq<Call>, n: nat, skew: nat, ttl: nat)
    requires n < |calls|
  {
    Observes(calls[n], skew) && !Live(After(calls[..n], skew, ttl), KeyOf(calls[n].h), calls[n].at)
  }

  /** A call that set this key at most ttl seconds before. */
  ghost predicate MarkedBefore(calls: seq<Call>, key: string, at: real, skew: nat, ttl: nat) {
    exists n :: 0 <= n < |calls| && Marks(calls, n, skew, ttl) && KeyOf(calls[n].h) == key && at <= calls[n].at + ttl as real
  }

  ghost predicate InOrder(calls: seq<Call>, at: real) {
    && (forall i :: 0 <= i < |calls| ==> calls[i].at <= at)
    && (forall i, j :: 0 <= i < j < |calls| ==> calls[i].at <= calls[j].at)
  }

  lemma MarksPrefix(calls: seq<Call>, m: nat, n: nat, skew: nat, ttl: nat)
    requires n < m <= |calls|
    ensures Marks(calls[..m], n, skew, ttl) <==> Marks(calls, n, skew, ttl)
  {
    assert calls[..m][..n] == calls[..n];
  }

  /** A key is live exactly when a call set it at most ttl seconds before. */
  lemma {:induction false} LiveIff(calls: seq<Call>, key: string, at: real, skew: nat, ttl: nat)
    requires InOrder(calls, at)
    ensures Live(After(calls, skew, ttl), key, at) <==> MarkedBefore(calls, key, at, skew, ttl)
  {
    hide WellFormed, KeyOf;
    if calls != [] {
      var m := |calls| - 1;
      var before, c := calls[..m], calls[m];
      LiveIff(before, key, at, skew, ttl);
      if Observes(c, skew) {
        LiveIff(before, KeyOf(c.h), c.at, skew, ttl);
      }
      forall n | 0 <= n < m ensures Marks(before, n, skew, ttl) <==> Marks(calls, n, skew, ttl) {
        MarksPrefix(calls, m, n, skew, ttl);
      }
    }
  }

  /** An earlier call with the same serial, timestamp and signature beginning set the key at most ttl seconds before. */
  ghost predicate SeenBefore(calls: seq<Call>, n: nat, skew: nat, ttl: nat)
    requires n < |calls| && Readable(calls[n].h)
  {
    exists m :: 0 <= m < n && Marks(calls, m, skew, ttl) && SameMark(calls[m].h, calls[n].h) && calls[n].at <= calls[m].at + ttl as real
  }

  predicate SameMark(a: Headers, b: Headers)
    requires a.signature.Some? && |a.signature.value| >= 16 && b.signature.Some? && |b.signature.value| >= 16
  {
    a.serial == b.serial && a.timestamp == b.timestamp && a.signature.value[..16] == b.signature.value[..16]
  }

  /**
   Over a run: a call is accepted exactly when it is readable, on time, from a known serial and
   genuine, the cache answers, and its mark was not set at most ttl seconds before.
   */
  lemma AcceptedIff(calls: seq<Call>, n: nat, skew: nat, ttl: nat)
    requires n < |calls| && InOrder(calls[..n], calls[n].at)
    ensures AcceptedAt(calls, n, skew, ttl) <==>
      Asks(calls[n], skew) && !SeenBefore(calls, n, skew, ttl) && calls[n].known && calls[n].genuine
  {
    hide ParseInt, Trim, KeyOf;
    var c, before := calls[n], calls[..n];
    ReadableIff(c.h);
    if WellFormed(c.h) {
      TimelyIff(c, skew);
      LiveIff(before, KeyOf(c.h), c.at, skew, ttl);
      forall m | 0 <= m < n && Marks(calls, m, skew, ttl)
        ensures KeyOf(calls[m].h) == KeyOf(c.h) <==> SameMark(calls[m].h, c.h)
      {
        KeyIff(calls[m].h, c.h);
      }
      forall m | 0 <= m < n ensures Marks(before, m, skew, ttl) <==> Marks(calls, m, skew, ttl) {
        MarksPrefix(calls, n, m, skew, ttl);
      }
    }
  }

  lemma AcceptedMarks(calls: seq<Call>, i: nat, skew: nat, ttl: nat)
    requires i < |calls| && AcceptedAt(calls, i, skew, ttl)
    ensures Observes(calls[i], skew)
    ensures KeyOf(calls[i].h) in After(calls[..i + 1], skew, ttl)
    ensures After(calls[..i + 1], skew, ttl)[KeyOf(calls[i].h)] == calls[i].at + ttl as real
  {
    assert calls[..i + 1][..i] == calls[..i];
  }

  lemma SecondIsReplayed(calls: seq<Call>, i: nat, j: nat, skew: nat, ttl: nat, delay: real, whole: bool)
    requires WellTimed(calls, delay, whole) && i < j < |calls| && calls[i].h == calls[j].h
    requires ttl as real >= 2.0 * skew as real + delay + if whole then 0.0 else 1.0
    requires AcceptedAt(calls, i, skew, ttl)
    ensures !AcceptedAt(calls, j, skew, ttl)
  {
    hide KeyOf, After, ParseInt, IsSignature, Trim;
    AcceptedMarks(calls, i, skew, ttl);
    if Observes(calls[j], skew) {
      var ts := ParseInt(calls[i].h.timestamp.value).value;
      assert calls[j].clock < (ts + skew) as real + 1.0 && calls[i].clock >= (ts - skew) as real;
      var expiry := calls[i].at + ttl as real;
      assert calls[j].at <= expiry;
      MarkStays(calls, KeyOf(calls[i].h), expiry, i + 1, j, skew, ttl);
    }
  }

  /** str(n) */
  function Digits(n: nat): (s: string)
    ensures s != "" && forall i :: 0 <= i < |s| ==> IsDigit(s[i])
  {
    if n < 10 then [(48 + n) as char] else Digits(n / 10) + [(48 + n % 10) as char]
  }

  lemma {:induction false} DigitsValue(n: nat)
    ensures NumberValue(Digits(n)) == n
  {
    var s := Digits(n);
    if n < 10 {
      assert s[..|s| - 1] == "";
    } else {
      DigitsValue(n / 10);
      assert s[..|s| - 1] == Digits(n / 10);
    }
  }

  lemma ParseDigits(n: nat)
    ensures ParseInt(Digits(n)) == Some(n)
  {
    var s := Digits(n);
    assert IsDigit(s[0]) && IsDigit(s[|s| - 1]);
    assert Trim(s) == s;
    DigitsValue(n);
  }

  /** int() reads a decimal number with a sign and blanks around it. */
  lemma IntReads(pre: string, n: nat, post: string)
    requires AllSpace(pre) && AllSpace(post)
    ensures ParseInt(pre + Digits(n) + post) == ParseInt(pre + ("+" + Digits(n)) + post) == Some(n)
    ensures ParseInt(pre + ("-" + Digits(n)) + post) == Some(-(n as int))
  {
    var s := Digits(n);
    assert IsDigit(s[0]) && IsDigit(s[|s| - 1]);
    TrimOf(pre, s, post);
    TrimOf(pre, "+" + s, post);
    TrimOf(pre, "-" + s, post);
    assert ("+" + s)[1..] == s && ("-" + s)[1..] == s;
    DigitsValue(n);
  }

  /** int() reads nothing but a sign, digits and underscores. */
  lemma IntReadsNumbers(s: string)
    requires ParseInt(s).Some?
    ensures forall i :: 0 <= i < |s| ==> IsSpace(s[i]) || IsDigit(s[i]) || s[i] in "+-_"
  {
    var t := Trim(s);
    forall i | 0 <= i < |s| && !IsSpace(s[i]) ensures IsDigit(s[i]) || s[i] in "+-_" {
      TrimKeeps(s, s[i]);
      if t[0] == '-' || t[0] == '+' {
        assert t == [t[0]] + t[1..];
      }
    }
  }

  /** A well-formed request with timestamp n. */
  function Sample(n: nat): Headers {
    Headers(Some("trailer"), Some(Digits(n)), Some(seq(64, i => 'a')))
  }

  lemma SampleIsGood(n: nat)
    ensures WellFormed(Sample(n)) && ParseInt(Sample(n).timestamp.value) == Some(n)
  {
    ParseDigits(n);
    assert "trailer"[0] == 't' && "trailer"[6] == 'r';
    assert Trim("trailer") == "trailer";
  }

  /** The same request first at the earliest, then at the latest moment its timestamp allows. */
  lemma TwiceAccepted(skew: nat, ttl: nat, delay: real, whole: bool) returns (calls: seq<Call>)
    requires delay >= 0.0
    requires ttl as real < 2.0 * skew as real + delay + if whole then 0.0 else 1.0
    ensures WellTimed(calls, delay, whole) && |calls| == 2 && calls[0].h == calls[1].h
    ensures calls[0].clock >= 0.0 && calls[1].clock >= 0.0
    ensures AcceptedAt(calls, 0, skew, ttl) && AcceptedAt(calls, 1, skew, ttl)
  {
    SampleIsGood(skew);
    hide WellFormed, KeyOf, ParseInt;
    var slack := 2.0 * skew as real + delay + 1.0 - ttl as real;
    var short := if whole then 1.0 else if slack > 1.0 then 0.5 else slack / 2.0;
    var late := 2.0 * skew as real + 1.0 - short;
    var c0 := Call(Sample(skew), 0.0, 0.0, true, true, true);
    var c1 := Call(Sample(skew), late, late + delay, true, true, true);
    calls := [c0, c1];
    assert 0.0 == 0 as real && late.Floor == 2 * skew;
    assert calls[..0] == [] && calls[..1] == [c0] && [c0][..0] == [];
  }

  /**
   With clock readings of sub-second resolution the cache must outlive twice the skew by the
   delay and one second; with whole-second readings, by the delay alone.
   */
  lemma SafeIff(skew: nat, ttl: nat, delay: real, whole: bool)
    requires delay >= 0.0
    ensures Safe(skew, ttl, delay, whole) <==> ttl as real >= 2.0 * skew as real + delay + if whole then 0.0 else 1.0
  {
    hide AcceptedAt, WellTimed;
    if ttl as real >= 2.0 * skew as real + delay + if whole then 0.0 else 1.0 {
      forall calls: seq<Call>, i, j | WellTimed(calls, delay, whole) && 0 <= i < j < |calls| && calls[i].h == calls[j].h
        ensures !(AcceptedAt(calls, i, skew, ttl) && AcceptedAt(calls, j, skew, ttl))
      {
        if AcceptedAt(calls, i, skew, ttl) {
          SecondIsReplayed(calls, i, j, skew, ttl, delay, whole);
        }
      }
    } else {
      var calls := TwiceAccepted(skew, ttl, delay, whole);
    }
  }

  const MAX_SKEW: nat := 300
  const REPLAY_TTL: nat := 600

  /** The default settings are just enough for a clock of whole seconds that Redis answers at once. */
  lemma DefaultsAreTight()
    ensures Safe(300, 600, 0.0, true)
    ensures !Safe(300, 600, 0.0, false)
    ensures Safe(300, 601, 0.0, false)
  {
    SafeIff(MAX_SKEW, REPLAY_TTL, 0.0, true);
    SafeIff(MAX_SKEW, REPLAY_TTL, 0.0, false);
    SafeIff(MAX_SKEW, REPLAY_TTL + 1, 0.0, false);
  }
}
