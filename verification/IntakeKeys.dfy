/** The Redis keys of the aggregation hashes and what parsing them gives back. */
module IntakeKeys {
  const AGG_PREFIX := "panoptic:agg:"
  const DONE_PREFIX := "panoptic:agg:done:"

  function Tail(serial: string, camera: string, iso: string): string {
    serial + ":" + camera + ":" + iso
  }

  function AggKey(serial: string, camera: string, iso: string): string {
    AGG_PREFIX + Tail(serial, camera, iso)
  }

  function DoneKey(serial: string, camera: string, iso: string): string {
    DONE_PREFIX + Tail(serial, camera, iso)
  }

  /** The text before the first colon, or all of it. */
  function Before(s: string): (b: string)
    ensures ':' !in b && |b| <= |s| && b == s[..|b|]
    ensures ':' in s ==> |b| < |s| && s[|b|] == ':'
    ensures forall i :: 0 <= i < |s| && s[i] == ':' ==> |b| <= i
  {
    if s == "" || s[0] == ':' then "" else [s[0]] + Before(s[1..])
  }

  function After(s: string): string
    requires ':' in s
  {
    s[|Before(s)| + 1..]
  }

  /** s.split(":", n). */
  function Split(s: string, n: nat): (parts: seq<string>)
    ensures parts != []
  {
    if n == 0 || ':' !in s then [s] else [Before(s)] + Split(After(s), n - 1)
  }

  datatype Window = Window(serial: string, camera: string, iso: string)

  ghost predicate IsAggKey(key: string) {
    exists serial, camera, iso :: key == AggKey(serial, camera, iso)
  }

  /** What _finalize_one reads off a key. */
  function Parse(key: string): Window
    requires |Split(key, 4)| == 5
  {
    Window(Split(key, 4)[2], Split(key, 4)[3], Split(key, 4)[4])
  }

  /** The done marker of the window of an aggregation key. */
  function DoneOf(key: string): string {
    if |key| < |AGG_PREFIX| then "" else DONE_PREFIX + key[|AGG_PREFIX|..]
  }

  lemma {:induction false} BeforeOf(x: string, rest: string)
    requires ':' !in x
    ensures Before(x + ":" + rest) == x && ':' in x + ":" + rest && After(x + ":" + rest) == rest
  {
    assert (x + ":" + rest)[|x|] == ':';
    if x != "" {
      BeforeOf(x[1..], rest);
      assert (x + ":" + rest)[1..] == x[1..] + ":" + rest;
      assert x == [x[0]] + x[1..];
    }
  }

  lemma SplitStep(x: string, rest: string, n: nat)
    requires ':' !in x && n > 0
    ensures Split(x + ":" + rest, n) == [x] + Split(rest, n - 1)
  {
    BeforeOf(x, rest);
  }

  lemma SplitOnce(s: string, n: nat)
    requires ':' in s && n > 0
    ensures Split(s, n) == [Before(s)] + Split(After(s), n - 1)
    ensures s == Before(s) + ":" + After(s)
  {
  }

  lemma TailAssoc(s: string, r: string, x: string, y: string, z: string)
    requires s == x + ":" + r && r == y + ":" + z
    ensures s == Tail(x, y, z)
  {
  }

  lemma SplitTwice(s: string)
    requires ':' in s && ':' in After(s)
    ensures Split(s, 2) == [Before(s), Before(After(s)), After(After(s))]
    ensures s == Tail(Before(s), Before(After(s)), After(After(s)))
  {
    SplitOnce(s, 2);
    SplitOnce(After(s), 1);
    hide Before, After, Tail;
    assert Split(After(After(s)), 0) == [After(After(s))];
    TailAssoc(s, After(s), Before(s), Before(After(s)), After(After(s)));
  }

  lemma TwoColons(serial: string, camera: string, iso: string)
    ensures ':' in Tail(serial, camera, iso) && ':' in After(Tail(serial, camera, iso))
  {
    var tail := Tail(serial, camera, iso);
    var at := |serial| + 1 + |camera|;
    assert tail[|serial|] == ':' && tail[at] == ':';
    assert After(tail)[at - |Before(tail)| - 1] == ':';
  }

  lemma PrefixAssoc(tail: string)
    ensures AGG_PREFIX + tail == "panoptic" + ":" + ("agg" + ":" + tail)
  {
  }

  lemma KeyPrefix(tail: string)
    ensures Split(AGG_PREFIX + tail, 4) == ["panoptic", "agg"] + Split(tail, 2)
  {
    hide Split, Before, After;
    PrefixAssoc(tail);
    SplitStep("panoptic", "agg" + ":" + tail, 4);
    SplitStep("agg", tail, 3);
  }

  /** The three names read off a key: the first two hold no colon, and together they are the tail. */
  lemma ParsedTail(serial: string, camera: string, iso: string)
    ensures |Split(AggKey(serial, camera, iso), 4)| == 5
    ensures AggKey(serial, camera, iso) == AGG_PREFIX + Tail(serial, camera, iso)
    ensures ParsesTo(AggKey(serial, camera, iso), Tail(serial, camera, iso))
  {
    var tail := Tail(serial, camera, iso);
    KeyPrefix(tail);
    TwoColons(serial, camera, iso);
    SplitTwice(tail);
  }

  ghost predicate ParsesTo(key: string, tail: string)
    requires |Split(key, 4)| == 5
  {
    var w := Parse(key);
    Tail(w.serial, w.camera, w.iso) == tail && ':' !in w.serial && ':' !in w.camera
  }

  function ParsedDone(key: string): string
    requires |Split(key, 4)| == 5
  {
    DoneKey(Parse(key).serial, Parse(key).camera, Parse(key).iso)
  }

  /** Whatever the names contain, finalizing sets the marker that storing looks up. */
  lemma ParsedDoneKey(serial: string, camera: string, iso: string)
    ensures |Split(AggKey(serial, camera, iso), 4)| == 5
    ensures ParsedDone(AggKey(serial, camera, iso)) == DoneOf(AggKey(serial, camera, iso)) == DoneKey(serial, camera, iso)
  {
    hide Split, Parse;
    ParsedTail(serial, camera, iso);
  }

  lemma SplitTail(serial: string, camera: string, iso: string)
    requires ':' !in serial && ':' !in camera
    ensures Split(Tail(serial, camera, iso), 2) == [serial, camera, iso]
  {
    assert Tail(serial, camera, iso) == serial + ":" + (camera + ":" + iso);
    SplitStep(serial, camera + ":" + iso, 2);
    SplitStep(camera, iso, 1);
  }

  lemma ParsePlain(serial: string, camera: string, iso: string)
    requires ':' !in serial && ':' !in camera
    ensures |Split(AggKey(serial, camera, iso), 4)| == 5
    ensures Parse(AggKey(serial, camera, iso)) == Window(serial, camera, iso)
  {
    hide Split;
    KeyPrefix(Tail(serial, camera, iso));
    SplitTail(serial, camera, iso);
  }

  /** Parsing a key gives back its window exactly when serial and camera hold no colon. */
  lemma ParseIff(serial: string, camera: string, iso: string)
    ensures |Split(AggKey(serial, camera, iso), 4)| == 5
    ensures Parse(AggKey(serial, camera, iso)) == Window(serial, camera, iso) <==> ':' !in serial && ':' !in camera
  {
    hide Split, Parse;
    ParsedTail(serial, camera, iso);
    if ':' !in serial && ':' !in camera {
      ParsePlain(serial, camera, iso);
    }
  }

  lemma DoneOfInjective(a: string, b: string)
    requires IsAggKey(a) && IsAggKey(b) && DoneOf(a) == DoneOf(b)
    ensures a == b
  {
    assert a[|AGG_PREFIX|..] == DoneOf(a)[|DONE_PREFIX|..];
    assert b[|AGG_PREFIX|..] == DoneOf(b)[|DONE_PREFIX|..];
    assert a == AGG_PREFIX + a[|AGG_PREFIX|..] && b == AGG_PREFIX + b[|AGG_PREFIX|..];
  }

  function ParseOf(key: string): Window {
    if |Split(key, 4)| == 5 then Parse(key) else Window("", "", "")
  }

  lemma ParsedKey(key: string)
    requires IsAggKey(key)
    ensures |Split(key, 4)| == 5 && ParsedDone(key) == DoneOf(key) && ParseOf(key) == Parse(key)
  {
    hide Split;
    var serial, camera, iso :| key == AggKey(serial, camera, iso);
    ParsedDoneKey(serial, camera, iso);
  }
}
