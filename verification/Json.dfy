/**
 The JSON texts that are hashed into ids: json.dumps with its default escaping
 (section 7 of RFC 8259, everything outside printable ASCII as \uXXXX).  Each
 encoding can be read back, so two ids are equal only for equal inputs.
 */
module Json {
  /** SHA-256, taken as injective: a digest is identified with the text it digests. */
  datatype Digest = Sha256(text: string)

  function HexDigit(n: nat): char
    requires n < 16
  {
    if n < 10 then (48 + n) as char else (87 + n) as char
  }

  function Hex(n: nat, width: nat): (text: string)
    ensures |text| == width
  {
    if width == 0 then "" else Hex(n / 16, width - 1) + [HexDigit(n % 16)]
  }

  function Hex4(n: nat): (text: string)
    requires n < 0x1_0000
    ensures |text| == 4
  {
    Hex(n, 4)
  }

  /** A character beyond the basic plane is written as two escaped surrogates. */
  function Surrogates(n: nat): string
    requires 0x1_0000 <= n < 0x11_0000
  {
    "\\u" + Hex4(0xD800 + (n - 0x1_0000) / 0x400) + "\\u" + Hex4(0xDC00 + (n - 0x1_0000) % 0x400)
  }

  /** The letter after the backslash of a two-character escape. */
  function ShortEscape(c: char): (letter: char)
    ensures letter != 'u'
  {
    if c == '"' then '"'
    else if c == '\\' then '\\'
    else if c == '\n' then 'n'
    else if c == '\r' then 'r'
    else if c == '\t' then 't'
    else if c == '\U{000C}' then 'f'
    else if c == '\U{0008}' then 'b'
    else ' '
  }

  function EscapeChar(c: char): string {
    if ShortEscape(c) != ' ' then ['\\', ShortEscape(c)]
    else if ' ' <= c <= '~' then [c]
    else if (c as int) < 0x1_0000 then "\\u" + Hex4(c as int)
    else Surrogates(c as int)
  }

  function EscapeAll(s: string): string {
    if s == "" then "" else EscapeChar(s[0]) + EscapeAll(s[1..])
  }

  function Quoted(s: string): string {
    "\"" + EscapeAll(s) + "\""
  }

  /** The items after the first, each behind its comma. */
  function Rest(items: seq<string>): string {
    if items == [] then "]" else "," + Quoted(items[0]) + Rest(items[1..])
  }

  /** json.dumps(items, separators=(",", ":")) of a list of strings. */
  function ListText(items: seq<string>): string {
    if items == [] then "[]" else "[" + Quoted(items[0]) + Rest(items[1..])
  }

  // ---------------------------------------------------------------------
  // Reading back
  // ---------------------------------------------------------------------

  lemma HexDigitInjective(a: nat, b: nat)
    requires a < 16 && b < 16 && HexDigit(a) == HexDigit(b)
    ensures a == b
  {
  }

  lemma {:induction false} HexInjective(a: nat, b: nat, width: nat, bound: nat)
    requires a < bound && b < bound && bound == Power(width)
    requires Hex(a, width) == Hex(b, width)
    ensures a == b
  {
    if width != 0 {
      var u, v := Hex(a, width), Hex(b, width);
      assert u[..width - 1] == Hex(a / 16, width - 1) && v[..width - 1] == Hex(b / 16, width - 1);
      assert u[width - 1] == HexDigit(a % 16) && v[width - 1] == HexDigit(b % 16);
      HexDigitInjective(a % 16, b % 16);
      HexInjective(a / 16, b / 16, width - 1, Power(width - 1));
    }
  }

  function Power(width: nat): nat {
    if width == 0 then 1 else 16 * Power(width - 1)
  }

  lemma Hex4Injective(a: nat, b: nat)
    requires a < 0x1_0000 && b < 0x1_0000 && Hex4(a) == Hex4(b)
    ensures a == b
  {
    assert Power(2) == 0x100;
    assert Power(4) == 0x1_0000;
    HexInjective(a, b, 4, 0x1_0000);
  }

  /** The first code unit that an escape names; -1 when it is not a \u escape. */
  function Unit(c: char): int {
    if ShortEscape(c) != ' ' || ' ' <= c <= '~' then -1
    else if (c as int) < 0x1_0000 then c as int
    else 0xD800 + ((c as int) - 0x1_0000) / 0x400
  }

  predicate StartsUnit(t: string, unit: nat)
    requires unit < 0x1_0000
  {
    |t| >= 6 && t[1] == 'u' && t[2..6] == Hex4(unit)
  }

  lemma EscapeShape(c: char, r: string)
    ensures |EscapeChar(c) + r| >= 1 && (EscapeChar(c) + r)[0] != '"'
    ensures (EscapeChar(c) + r)[0] == '\\' <==> Unit(c) >= 0 || ShortEscape(c) != ' '
    ensures Unit(c) >= 0 ==> Unit(c) < 0x1_0000 && StartsUnit(EscapeChar(c) + r, Unit(c))
    ensures ShortEscape(c) != ' ' ==> |EscapeChar(c) + r| >= 2 && (EscapeChar(c) + r)[1] == ShortEscape(c)
  {
  }

  /** No escape is the beginning of another. */
  lemma EscapeInjective(c: char, d: char, r: string, r': string)
    requires EscapeChar(c) + r == EscapeChar(d) + r'
    ensures c == d && r == r'
  {
    EscapeShape(c, r);
    EscapeShape(d, r');
    if Unit(c) >= 0 {
      assert (EscapeChar(c) + r)[2..6] == (EscapeChar(d) + r')[2..6];
      Hex4Injective(Unit(c), Unit(d));
      if (c as int) >= 0x1_0000 {
        SurrogatesInjective(c as int, d as int, r, r');
      }
    } else {
      assert (EscapeChar(c) + r)[0] == (EscapeChar(d) + r')[0];
    }
    assert c == d;
    assert r == (EscapeChar(c) + r)[|EscapeChar(c)|..];
    assert r' == (EscapeChar(d) + r')[|EscapeChar(d)|..];
  }

  lemma SurrogatesInjective(m: nat, n: nat, r: string, r': string)
    requires 0x1_0000 <= m < 0x11_0000 && 0x1_0000 <= n < 0x11_0000
    requires Surrogates(m) + r == Surrogates(n) + r'
    ensures m == n
  {
    var hi, lo := 0xD800 + (m - 0x1_0000) / 0x400, 0xDC00 + (m - 0x1_0000) % 0x400;
    var hi', lo' := 0xD800 + (n - 0x1_0000) / 0x400, 0xDC00 + (n - 0x1_0000) % 0x400;
    assert (Surrogates(m) + r)[2..6] == Hex4(hi) && (Surrogates(n) + r')[2..6] == Hex4(hi');
    assert (Surrogates(m) + r)[8..12] == Hex4(lo) && (Surrogates(n) + r')[8..12] == Hex4(lo');
    Hex4Injective(hi, hi');
    Hex4Injective(lo, lo');
  }

  /** The first character tells whether the string has ended. */
  lemma BodyHead(s: string, r: string)
    ensures (EscapeAll(s) + "\"" + r)[0] == '"' <==> s == ""
    ensures s != "" ==> EscapeAll(s) + "\"" + r == EscapeChar(s[0]) + (EscapeAll(s[1..]) + "\"" + r)
  {
  }

  lemma {:induction false} BodyInjective(s: string, t: string, r: string, r': string)
    requires EscapeAll(s) + "\"" + r == EscapeAll(t) + "\"" + r'
    ensures s == t && r == r'
  {
    hide EscapeChar;
    BodyHead(s, r);
    BodyHead(t, r');
    if s == "" {
      assert r == (EscapeAll(s) + "\"" + r)[1..];
      assert r' == (EscapeAll(t) + "\"" + r')[1..];
    } else {
      EscapeInjective(s[0], t[0], EscapeAll(s[1..]) + "\"" + r, EscapeAll(t[1..]) + "\"" + r');
      BodyInjective(s[1..], t[1..], r, r');
      assert s == [s[0]] + s[1..] && t == [t[0]] + t[1..];
    }
  }

  /** A quoted string can be cut off the front of a text in one way only. */
  lemma QuotedInjective(s: string, t: string, r: string, r': string)
    requires Quoted(s) + r == Quoted(t) + r'
    ensures s == t && r == r'
  {
    hide EscapeAll;
    assert (Quoted(s) + r)[1..] == EscapeAll(s) + "\"" + r;
    assert (Quoted(t) + r')[1..] == EscapeAll(t) + "\"" + r';
    BodyInjective(s, t, r, r');
  }

  lemma {:induction false} RestInjective(xs: seq<string>, ys: seq<string>)
    requires Rest(xs) == Rest(ys)
    ensures xs == ys
  {
    hide Quoted;
    if xs != [] && ys != [] {
      assert Rest(xs)[1..] == Quoted(xs[0]) + Rest(xs[1..]);
      assert Rest(ys)[1..] == Quoted(ys[0]) + Rest(ys[1..]);
      QuotedInjective(xs[0], ys[0], Rest(xs[1..]), Rest(ys[1..]));
      RestInjective(xs[1..], ys[1..]);
      assert xs == [xs[0]] + xs[1..] && ys == [ys[0]] + ys[1..];
    } else {
      assert Rest(xs)[0] == Rest(ys)[0];
    }
  }

  /** Two lists of strings with the same JSON text are the same list. */
  lemma ListTextInjective(xs: seq<string>, ys: seq<string>)
    requires ListText(xs) == ListText(ys)
    ensures xs == ys
  {
    hide EscapeAll;
    if xs != [] && ys != [] {
      assert ListText(xs)[1..] == Quoted(xs[0]) + Rest(xs[1..]);
      assert ListText(ys)[1..] == Quoted(ys[0]) + Rest(ys[1..]);
      QuotedInjective(xs[0], ys[0], Rest(xs[1..]), Rest(ys[1..]));
      RestInjective(xs[1..], ys[1..]);
      assert xs == [xs[0]] + xs[1..] && ys == [ys[0]] + ys[1..];
    } else {
      assert ListText(xs)[1] == ListText(ys)[1];
    }
  }
}
