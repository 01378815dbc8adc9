/** Intent keys: version 7 UUIDs, and the timestamp in them. */
module IntentKeys {
  import opened Common

  /** The primary key of the table: the endpoint, and the timestamp and the rest of the intent key. */
  datatype Key = Key(endpoint: string, stamp: nat, rest: string)

  predicate HexDigit(c: char) { '0' <= c <= '9' || 'a' <= c <= 'f' }

  function HexValue(c: char): (v: nat)
    requires HexDigit(c)
    ensures v < 16
  {
    if c <= '9' then (c - '0') as nat else (c - 'a') as nat + 10
  }

  predicate Uuid(s: string) {
    |s| == 36 && forall i :: 0 <= i < 36 ==> if i in {8, 13, 18, 23} then s[i] == '-' else HexDigit(s[i])
  }

  predicate IntentKey(s: string) { Uuid(s) && s[14] == '7' && s[19] in "89ab" }

  predicate HexDigits(s: string) { forall i :: 0 <= i < |s| ==> HexDigit(s[i]) }

  function Hex(s: string): (n: nat)
    requires HexDigits(s)
  {
    if s == "" then 0 else 16 * Hex(s[..|s| - 1]) + HexValue(s[|s| - 1])
  }

  /** An intent key is a version 7 UUID; its first 48 bits are a timestamp (section 5.7 of RFC 9562). */
  function ParseKey(endpoint: string, intent: string): Option<Key> {
    if Uuid(endpoint) && IntentKey(intent) then Some(Key(endpoint, Hex(intent[..8] + intent[9..13]), intent[14..]))
    else None
  }

  /** Digits have their usual values, and the first one counts most. */
  lemma HexDigitCounts(c: char)
    requires HexDigit(c)
    ensures "0123456789abcdef"[HexValue(c)] == c
  {
  }

  lemma HexSnoc(s: string, d: char)
    requires HexDigits(s) && HexDigit(d)
    ensures HexDigits(s + [d]) && Hex(s + [d]) == 16 * Hex(s) + HexValue(d)
  {
    assert (s + [d])[..|s|] == s;
  }

  lemma {:induction false} HexFirstCountsMost(c: char, s: string)
    requires HexDigit(c) && HexDigits(s)
    ensures HexDigits([c] + s) && Hex([c] + s) == HexValue(c) * Sixteens(|s|) + Hex(s)
  {
    if s == "" {
      HexSnoc("", c);
      assert "" + [c] == [c] + s;
    } else {
      var front, last := s[..|s| - 1], s[|s| - 1];
      HexFirstCountsMost(c, front);
      assert front + [last] == s && ([c] + front) + [last] == [c] + s;
      HexSnoc(front, last);
      HexSnoc([c] + front, last);
      SixteenTimes(HexValue(c), Sixteens(|front|), Hex(front));
    }
  }

  lemma SixteenTimes(v: nat, p: nat, h: nat)
    ensures 16 * (v * p + h) == v * (16 * p) + 16 * h
  {
  }

  lemma LastDigit(m: nat, c: char, n: nat, d: char)
    requires HexDigit(c) && HexDigit(d) && 16 * m + HexValue(c) == 16 * n + HexValue(d)
    ensures m == n && c == d
  {
  }

  lemma {:induction false} HexInjective(s: string, t: string, n: nat)
    requires |s| == |t| && n <= |s| && HexDigits(s) && HexDigits(t) && Hex(s[..n]) == Hex(t[..n])
    ensures s[..n] == t[..n]
  {
    if n > 0 {
      assert s[..n][..n - 1] == s[..n - 1] && t[..n][..n - 1] == t[..n - 1];
      LastDigit(Hex(s[..n - 1]), s[n - 1], Hex(t[..n - 1]), t[n - 1]);
      HexInjective(s, t, n - 1);
    }
  }

  /** Different intent keys of an endpoint have different rows. */
  lemma ParsedKeysDiffer(endpoint: string, intent: string, other: string)
    requires ParseKey(endpoint, intent).Some? && ParseKey(endpoint, intent) == ParseKey(endpoint, other)
    ensures intent == other
  {
    var a, b := intent[..8] + intent[9..13], other[..8] + other[9..13];
    assert a[..12] == a && b[..12] == b;
    HexInjective(a, b, 12);
    assert intent[..8] == a[..8] && intent[9..13] == a[8..] && other[..8] == b[..8] && other[9..13] == b[8..];
    assert intent == intent[..8] + "-" + intent[9..13] + "-" + intent[14..];
    assert other == other[..8] + "-" + other[9..13] + "-" + other[14..];
  }

  // ---- a key for every timestamp ----

  function HexChar(v: nat): (c: char)
    requires v < 16
    ensures HexDigit(c) && HexValue(c) == v
  {
    if v < 10 then '0' + v as char else 'a' + (v - 10) as char
  }

  function HexText(n: nat, width: nat): (s: string)
    ensures |s| == width && HexDigits(s)
  {
    if width == 0 then "" else HexText(n / 16, width - 1) + [HexChar(n % 16)]
  }

  function Sixteens(width: nat): nat { if width == 0 then 1 else 16 * Sixteens(width - 1) }

  lemma {:induction false} HexTextDenotes(n: nat, width: nat)
    requires n < Sixteens(width)
    ensures Hex(HexText(n, width)) == n
  {
    if width > 0 {
      HexTextDenotes(n / 16, width - 1);
      var s := HexText(n, width);
      assert s[..width - 1] == HexText(n / 16, width - 1) && s[width - 1] == HexChar(n % 16);
    }
  }

  const TAIL := "7000-8000-000000000000"

  function KeyText(stamp: nat): string {
    HexText(stamp, 12)[..8] + "-" + HexText(stamp, 12)[8..] + "-" + TAIL
  }

  lemma TailOk()
    ensures |TAIL| == 22 && TAIL[0] == '7' && TAIL[5] in "89ab"
    ensures forall i :: 0 <= i < 22 ==> if i in {4, 9} then TAIL[i] == '-' else HexDigit(TAIL[i])
  {
  }

  lemma KeyTextParts(a: string, b: string, c: string)
    requires |a| == 8 && |b| == 4
    ensures var s := a + "-" + b + "-" + c; s[..8] == a && s[9..13] == b && s[14..] == c && s[8] == '-' && s[13] == '-'
  {
    var s, dash := a + "-" + b + "-" + c, "-";
    assert s == a + (dash + b + dash + c);
    assert s == (a + dash) + (b + dash + c);
    assert s == (a + dash + b + dash) + c;
  }

  /** Every 48-bit timestamp has an intent key. */
  lemma KeyTextParses(endpoint: string, stamp: nat)
    requires Uuid(endpoint) && stamp < 0x1_0000_0000_0000
    ensures ParseKey(endpoint, KeyText(stamp)) == Some(Key(endpoint, stamp, TAIL))
  {
    TailOk();
    var h, s := HexText(stamp, 12), KeyText(stamp);
    assert Sixteens(12) == 0x1_0000_0000_0000;
    HexTextDenotes(stamp, 12);
    KeyTextParts(h[..8], h[8..], TAIL);
    assert h[..8] + h[8..] == h;
    forall i | 0 <= i < 36 ensures if i in {8, 13, 18, 23} then s[i] == '-' else HexDigit(s[i]) {
      if i >= 14 { assert s[i] == TAIL[i - 14]; } else if 8 < i < 13 { assert s[i] == h[i - 1]; }
      else if i < 8 { assert s[i] == h[i]; }
    }
    assert s[14] == TAIL[0] && s[19] == TAIL[5];
  }
}
