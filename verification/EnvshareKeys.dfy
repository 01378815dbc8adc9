/** The loops of the key codec, and the canonical checks of the delivery link. */
module EnvshareKeys {
  import opened Common
  import opened Positional
  import opened Base58

  lemma {:induction false} LeadingIs(ds: seq<nat>, k: nat)
    requires k <= |ds| && (forall j :: 0 <= j < k ==> ds[j] == 0) && (k < |ds| ==> ds[k] != 0)
    ensures LeadingZeros(ds) == k
  {
    if k > 0 { LeadingIs(ds[1..], k - 1); }
  }

  lemma LettersConcat(a: seq<nat>, b: seq<nat>)
    requires DigitsOf(58, a) && DigitsOf(58, b)
    ensures DigitsOf(58, a + b) && Letters(a + b) == Letters(a) + Letters(b)
  {
  }

  lemma OneIsZero(c: char)
    ensures c == '1' <==> Digit(c) == 0
  {
    AlphabetAt(0);
    DigitOfLetter(0);
  }

  /** The `while(n)` loop: repeated division writes the digits, last one first. */
  method LettersOf(total: nat) returns (s: string)
    ensures DigitsOf(58, Digits(58, total)) && s == Letters(Digits(58, total))
  {
    DigitsDenote(58, total);
    var n := total;
    s := "";
    ghost var done: seq<nat> := [];
    while n != 0
      invariant DigitsOf(58, Digits(58, n)) && DigitsOf(58, done) && s == Letters(done)
      invariant Digits(58, n) + done == Digits(58, total)
    {
      QuotientSmaller(n, 58);
      DigitsDenote(58, n / 58);
      LettersConcat([n % 58], done);
      assert Digits(58, n) == Digits(58, n / 58) + [n % 58];
      s := [ABC[n % 58]] + s;
      done := [n % 58] + done;
      n := n / 58;
    }
    assert [] + done == done;
  }

  /** `b58` */
  method B58(v: seq<Byte>) returns (s: string)
    ensures s == Encoded(v)
  {
    var n: nat := 0;
    for i := 0 to |v|
      invariant n == Value(256, v[..i])
    {
      assert v[..i + 1] == v[..i] + [v[i]];
      ValueSnoc(256, v[..i], v[i]);
      n := n * 256 + v[i];
    }
    assert v[..|v|] == v;
    s := LettersOf(n);
    var k := 0;
    while k < |v| && v[k] == 0
      invariant k <= |v| && forall j :: 0 <= j < k ==> v[j] == 0
      invariant DigitsOf(58, Zeros(k) + Digits(58, n)) && s == Letters(Zeros(k) + Digits(58, n))
    {
      assert Zeros(k + 1) + Digits(58, n) == [0] + (Zeros(k) + Digits(58, n));
      LettersConcat([0], Zeros(k) + Digits(58, n));
      AlphabetAt(0);
      s := "1" + s;
      k := k + 1;
    }
    LeadingIs(v, k);
    if s == "" {
      if v != [] { DecodeUndoesEncode(v); }
      s := "1";
    }
  }

  /** The value of a string of letters, or none: the first loop of `decode` and of `size`. */
  method NumberOf(s: string) returns (valid: bool, n: nat)
    ensures valid <==> InAlphabet(s)
    ensures valid ==> n == Value(58, DigitsIn(s))
  {
    n, valid := 0, true;
    for i := 0 to |s|
      invariant valid && InAlphabet(s[..i]) && n == Value(58, DigitsIn(s[..i]))
    {
      var d := Digit(s[i]);
      if d < 0 { return false, 0; }
      assert DigitsIn(s[..i + 1]) == DigitsIn(s[..i]) + [d];
      ValueSnoc(58, DigitsIn(s[..i]), d);
      n := n * 58 + d;
    }
    assert s[..|s|] == s;
  }

  /** The bytes of a number: the second loop of `decode`. */
  method BytesOf(total: nat) returns (out: seq<nat>)
    ensures out == Digits(256, total)
  {
    var n := total;
    out := [];
    while n != 0
      invariant Digits(256, n) + out == Digits(256, total)
    {
      QuotientSmaller(n, 256);
      out := [n % 256] + out;
      n := n / 256;
    }
  }

  /** `decode`, with its errors. */
  method Decode(s: string) returns (r: Result<seq<nat>>)
    ensures r.Ok? <==> s != "" && |s| <= 40 && InAlphabet(s)
    ensures r.Ok? ==> r.value == Decoded(s)
    ensures !r.Ok? ==> r == InvalidKey
  {
    if s == "" || |s| > 40 { return InvalidKey; }
    var valid, total := NumberOf(s);
    if !valid { return InvalidKey; }
    var out := BytesOf(total);
    var k := 0;
    while k < |s| && s[k] == '1'
      invariant k <= |s| && forall j :: 0 <= j < k ==> DigitsIn(s)[j] == 0
      invariant out == Zeros(k) + Digits(256, total)
    {
      OneIsZero(s[k]);
      out := [0] + out;
      k := k + 1;
    }
    if k < |s| { OneIsZero(s[k]); }
    LeadingIs(DigitsIn(s), k);
    return Ok(out);
  }

  /** `size`: the length that decoding would give, without decoding. */
  method Size(s: string) returns (bytes: int)
    ensures bytes == -1 <==> s == "" || |s| > 30000 || !InAlphabet(s)
    ensures bytes != -1 ==> bytes == |Decoded(s)|
  {
    if s == "" || |s| > 30000 { return -1; }
    var valid, total := NumberOf(s);
    if !valid { return -1; }
    var n := total;
    bytes := 0;
    while n != 0
      invariant bytes >= 0 && |Digits(256, n)| + bytes == |Digits(256, total)|
    {
      QuotientSmaller(n, 256);
      bytes := bytes + 1;
      n := n / 256;
    }
    var k := 0;
    while k < |s| && s[k] == '1'
      invariant k <= |s| && forall j :: 0 <= j < k ==> DigitsIn(s)[j] == 0
      invariant bytes == k + |Digits(256, total)|
    {
      OneIsZero(s[k]);
      bytes := bytes + 1;
      k := k + 1;
    }
    if k < |s| { OneIsZero(s[k]); }
    LeadingIs(DigitsIn(s), k);
  }

  function AsBytes(ds: seq<nat>): (v: seq<Byte>)
    requires DigitsOf(256, ds)
    ensures v == ds
  {
    seq(|ds|, i requires 0 <= i < |ds| => ds[i] as Byte)
  }

  predicate KeyString(s: string) { s != "" && |s| <= 40 && InAlphabet(s) && |Decoded(s)| == 16 }

  const SEAL := "https://envshare.dev/unseal#"

  /** The check on what a key or id decodes to: the comparison with the re-encoded value never decides it. */
  method IsCanonical(s: string, decoded: seq<nat>) returns (ok: bool)
    requires s != "" && InAlphabet(s) && decoded == Decoded(s)
    ensures DigitsOf(256, decoded) && (ok <==> |decoded| == 16)
  {
    EncodeUndoesDecode(s);
    var again := B58(AsBytes(decoded));
    ok := |decoded| == 16 && again == s;
  }

  /** `buildEnvshareLink`. The two comparisons with the re-encoded value never decide: what is left of the
    checks is that key and id decode to sixteen bytes, that the digest agrees, and the length of the id. An id with a
    foreign letter is answered like a wrong key. */
  method BuildEnvshareLink(digestAgrees: seq<nat> -> bool, id: string, key: string) returns (r: Result<string>)
    ensures r.Ok? <==> KeyString(key) && digestAgrees(Decoded(key)) && 16 <= |id| <= 32 && KeyString(id)
    ensures r == InvalidKey <==> !(KeyString(key) && digestAgrees(Decoded(key))) ||
                                 (16 <= |id| <= 32 && !InAlphabet(id))
    ensures r == ResultUnavailable <==> KeyString(key) && digestAgrees(Decoded(key)) &&
                                        (!(16 <= |id| <= 32) || (InAlphabet(id) && |Decoded(id)| != 16))
    ensures r.Ok? ==> DigitsOf(256, Decoded(id)) && DigitsOf(256, Decoded(key)) &&
                      r.value == SEAL + Encoded(AsBytes([2] + Decoded(id) + Decoded(key)))
  {
    var k := Decode(key);
    if !k.Ok? { return InvalidKey; }
    var canonicalKey := IsCanonical(key, k.value);
    if !canonicalKey || !digestAgrees(k.value) { return InvalidKey; }
    if |id| < 16 || |id| > 32 { return ResultUnavailable; }
    var i := Decode(id);
    if !i.Ok? { return InvalidKey; }
    var canonicalId := IsCanonical(id, i.value);
    if !canonicalId { return ResultUnavailable; }
    var link := B58(AsBytes([2] + i.value + k.value));
    return Ok(SEAL + link);
  }

  /** A link determines the id and the key it was built from. */
  lemma LinkDeterminesParts(id: seq<Byte>, key: seq<Byte>, id': seq<Byte>, key': seq<Byte>)
    requires |id| == |id'| == |key| == |key'| == 16
    requires SEAL + Encoded([2] + id + key) == SEAL + Encoded([2] + id' + key')
    ensures id == id' && key == key'
  {
    var e, e' := Encoded([2] + id + key), Encoded([2] + id' + key');
    assert (SEAL + e)[|SEAL|..] == e && (SEAL + e')[|SEAL|..] == e';
    EncodedDistinct([2] + id + key, [2] + id' + key');
    assert ([2] + id + key)[1..17] == id && ([2] + id' + key')[1..17] == id';
    assert ([2] + id + key)[17..] == key && ([2] + id' + key')[17..] == key';
  }
}
