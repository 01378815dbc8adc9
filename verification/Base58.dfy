/** The base-58 key codec: encoder, decoder, the size check that does not decode, and the delivery link. */
module Base58 {
  import opened Common
  import opened Positional

  const ABC := "123456789" + "ABCDEFGH" + "JKLMN" + "PQRSTUVWXYZ" + "abcdefghijk" + "mnopqrstuvwxyz"

  datatype Result<T> = Ok(value: T) | InvalidKey | ResultUnavailable

  /** `ABC.indexOf(c)`, from position `i` on; -1 when there is none. */
  function DigitFrom(c: char, i: nat): (d: int)
    ensures d == -1 || (i <= d < |ABC| && ABC[d] == c)
    ensures d == -1 ==> forall j :: i <= j < |ABC| ==> ABC[j] != c
    decreases |ABC| - i
  {
    if i >= |ABC| then -1 else if ABC[i] == c then i else DigitFrom(c, i + 1)
  }

  function Digit(c: char): int { DigitFrom(c, 0) }

  predicate InAlphabet(s: string) { forall i :: 0 <= i < |s| ==> Digit(s[i]) >= 0 }

  function DigitsIn(s: string): (ds: seq<nat>)
    requires InAlphabet(s)
    ensures |ds| == |s| && DigitsOf(58, ds)
  {
    seq(|s|, i requires 0 <= i < |s| => Digit(s[i]))
  }

  function Letters(ds: seq<nat>): (s: string)
    requires DigitsOf(58, ds)
  {
    seq(|ds|, i requires 0 <= i < |ds| => ABC[ds[i]])
  }

  /** What `b58` computes. */
  function Encoded(v: seq<Byte>): string {
    DigitsDenote(58, Value(256, v));
    if v == [] then "1" else Letters(Recode(256, 58, v))
  }

  /** What `decode` computes on the strings it accepts. */
  function Decoded(s: string): seq<nat>
    requires InAlphabet(s)
  {
    Recode(58, 256, DigitsIn(s))
  }

  // ---- the alphabet ----

  /** The character of each position, run by run. */
  function Letter(d: nat): char
    requires d < 58
  {
    if d < 9 then ('1' as int + d) as char
    else if d < 17 then ('A' as int + (d - 9)) as char
    else if d < 22 then ('J' as int + (d - 17)) as char
    else if d < 33 then ('P' as int + (d - 22)) as char
    else if d < 44 then ('a' as int + (d - 33)) as char
    else ('m' as int + (d - 44)) as char
  }

  lemma AlphabetAt(d: nat)
    requires d < 58
    ensures |ABC| == 58 && ABC[d] == Letter(d)
  {
  }

  lemma DigitOfLetter(d: nat)
    requires d < 58
    ensures Digit(ABC[d]) == d
  {
    AlphabetAt(d);
    var e := Digit(ABC[d]);
    if 0 <= e { AlphabetAt(e); }
  }

  lemma LettersOfDigits(s: string)
    requires InAlphabet(s)
    ensures Letters(DigitsIn(s)) == s
  {
  }

  lemma DigitsOfLetters(ds: seq<nat>)
    requires DigitsOf(58, ds)
    ensures InAlphabet(Letters(ds)) && DigitsIn(Letters(ds)) == ds
  {
    forall i | 0 <= i < |ds| ensures Digit(Letters(ds)[i]) == ds[i] { DigitOfLetter(ds[i]); }
  }

  // ---- the codec is a bijection ----

  lemma RecodeEmpty(a: Base, b: Base)
    ensures Recode(a, b, []) == []
  {
  }

  /** Decoding undoes encoding, on every nonempty byte sequence. */
  lemma DecodeUndoesEncode(v: seq<Byte>)
    requires v != []
    ensures InAlphabet(Encoded(v)) && Encoded(v) != "" && Decoded(Encoded(v)) == v
  {
    assert DigitsOf(256, v);
    RecodeRoundTrip(256, 58, v);
    DigitsOfLetters(Recode(256, 58, v));
    RecodeEmpty(58, 256);
  }

  /** Encoding undoes decoding, on every nonempty string of letters: so a string that decodes is canonical. */
  lemma EncodeUndoesDecode(s: string)
    requires InAlphabet(s) && s != ""
    ensures DigitsOf(256, Decoded(s)) && Decoded(s) != [] && Encoded(Decoded(s)) == s
  {
    RecodeRoundTrip(58, 256, DigitsIn(s));
    LettersOfDigits(s);
    RecodeEmpty(256, 58);
  }

  /** The one collision: the empty sequence is encoded like a single zero byte. */
  lemma EmptyEncodesLikeZero()
    ensures Encoded([]) == Encoded([0]) && InAlphabet(Encoded([])) && Decoded(Encoded([])) == [0]
  {
    var zero: seq<Byte> := [0];
    assert zero[..0] == [] && zero[1..] == [];
    assert Value(256, zero) == 0 && LeadingZeros(zero) == 1;
    assert Recode(256, 58, zero) == [0];
    assert Letters([0]) == "1" by { AlphabetAt(0); }
    DecodeUndoesEncode(zero);
  }

  lemma EncodedDistinct(u: seq<Byte>, v: seq<Byte>)
    requires u != [] && v != [] && Encoded(u) == Encoded(v)
    ensures u == v
  {
    DecodeUndoesEncode(u);
    DecodeUndoesEncode(v);
  }

  /** The letters denote the number that the bytes denote, in base 58 with `1` for zero, and keep each leading zero. */
  lemma EncodedDenotes(v: seq<Byte>)
    requires v != []
    ensures InAlphabet(Encoded(v))
    ensures Value(58, DigitsIn(Encoded(v))) == Value(256, v) && LeadingZeros(DigitsIn(Encoded(v))) == LeadingZeros(v)
  {
    assert DigitsOf(256, v);
    var n := Value(256, v);
    DigitsDenote(58, n);
    DecodeUndoesEncode(v);
    RecodeRoundTrip(256, 58, v);
    DigitsOfLetters(Recode(256, 58, v));
    ZerosAddNothing(58, LeadingZeros(v), Digits(58, n));
    ZerosAreLeading(LeadingZeros(v), Digits(58, n));
  }

  // ---- lengths ----

  lemma {:induction false} FewEnoughLetters(k: nat)
    requires k <= 16
    ensures Pow(256, k) <= Pow(58, k + 6)
    decreases 16 - k
  {
    if k == 16 {
      assert Pow(58, 4) == 11316496;
      assert Pow(58, 8) == 11316496 * 11316496;
      assert Pow(58, 12) == 11316496 * 11316496 * 11316496;
      assert Pow(58, 16) == 11316496 * 11316496 * 11316496 * 11316496;
      assert Pow(58, 20) == 11316496 * 11316496 * 11316496 * 11316496 * 11316496;
      assert Pow(58, 22) == 11316496 * 11316496 * 11316496 * 11316496 * 11316496 * 3364;
      assert Pow(256, 4) == 0x1_0000_0000;
      assert Pow(256, 8) == 0x1_0000_0000_0000_0000;
      assert Pow(256, 12) == 0x1_0000_0000_0000_0000_0000_0000;
      assert Pow(256, 16) == 0x1_0000_0000_0000_0000_0000_0000_0000_0000;
    } else {
      FewEnoughLetters(k + 1);
    }
  }

  /** The letters of a value that starts with a nonzero byte: no fewer than its bytes... */
  lemma NoFewerLetters(rest: seq<nat>)
    requires DigitsOf(256, rest) && rest != [] && rest[0] != 0
    ensures |rest| <= |Digits(58, Value(256, rest))|
  {
    var n := Value(256, rest);
    var letters := Digits(58, n);
    ValueAbove(256, rest);
    DigitsDenote(58, n);
    ValueBelow(58, letters);
    if |letters| < |rest| {
      PowGrows(58, |letters|, |rest| - 1);
      PowMonotone(58, 256, |rest| - 1);
    }
  }

  /** ... and for up to sixteen bytes at most six more. */
  lemma PowOrder(b: Base, i: nat, j: nat)
    requires Pow(b, i) < Pow(b, j)
    ensures i < j
  {
    if j <= i { PowGrows(b, j, i); }
  }

  lemma FewLetters(n: nat, k: nat)
    requires k <= 16 && n < Pow(256, k)
    ensures |Digits(58, n)| <= k + 6
  {
    var letters := Digits(58, n);
    DigitsDenote(58, n);
    if letters != [] {
      ValueAbove(58, letters);
      FewEnoughLetters(k);
      PowOrder(58, |letters| - 1, k + 6);
    }
  }

  lemma FewMoreLetters(rest: seq<nat>)
    requires DigitsOf(256, rest) && |rest| <= 16
    ensures |Digits(58, Value(256, rest))| <= |rest| + 6
  {
    ValueBelow(256, rest);
    FewLetters(Value(256, rest), |rest|);
  }

  /** A byte sequence is never longer than its encoding, and sixteen bytes take at most twenty-two letters. */
  lemma EncodedLength(v: seq<Byte>)
    requires v != []
    ensures |v| <= |Encoded(v)|
    ensures |v| == 16 ==> |Encoded(v)| <= 22
  {
    assert DigitsOf(256, v);
    SplitZeros(v);
    var z := LeadingZeros(v);
    var rest: seq<nat> := v[z..];
    ZerosAddNothing(256, z, rest);
    DigitsDenote(58, Value(256, v));
    if rest != [] { NoFewerLetters(rest); }
    if |v| == 16 { FewMoreLetters(rest); }
  }
}
