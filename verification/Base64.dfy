/** Base64 and base64url (sections 4 and 5 of RFC 4648) on byte sequences. */
module Base64 {
  import opened Text

  type Byte = x: int | 0 <= x < 256
  type Bytes = seq<Byte>
  type Sextet = x: int | 0 <= x < 64

  /** `base64` pads to a multiple of four; `base64url` has its own last two digits and no padding. */
  datatype Alphabet = Standard | Url

  function Digit(a: Alphabet, v: Sextet): char {
    if v < 26 then 'A' + v as char
    else if v < 52 then 'a' + (v - 26) as char
    else if v < 62 then '0' + (v - 52) as char
    else if v == 62 then (if a == Url then '-' else '+')
    else (if a == Url then '_' else '/')
  }

  /** The value of a digit of either alphabet: Node's decoders accept both. */
  function Value(c: char): Option<Sextet> {
    if 'A' <= c <= 'Z' then Some((c - 'A') as int)
    else if 'a' <= c <= 'z' then Some((c - 'a') as int + 26)
    else if '0' <= c <= '9' then Some((c - '0') as int + 52)
    else if c == '+' || c == '-' then Some(62)
    else if c == '/' || c == '_' then Some(63)
    else None
  }

  lemma DigitValue(a: Alphabet, v: Sextet)
    ensures Value(Digit(a, v)) == Some(v)
    ensures Digit(a, v) != '=' && Digit(a, v) != '.' && !IsSpace(Digit(a, v))
    ensures a == Standard ==> Digit(a, v) != '-' && Digit(a, v) != '_'
  {
  }

  /** Bytes regrouped six bits at a time, the last group filled up with zero bits. */
  function Sextets(b: Bytes): seq<Sextet> {
    if |b| == 0 then []
    else if |b| == 1 then [b[0] / 4, b[0] % 4 * 16]
    else if |b| == 2 then [b[0] / 4, b[0] % 4 * 16 + b[1] / 16, b[1] % 16 * 4]
    else FourSextets(b[0], b[1], b[2]) + Sextets(b[3..])
  }

  function FourSextets(x: Byte, y: Byte, z: Byte): (v: seq<Sextet>)
    ensures |v| == 4
  {
    [x / 4, x % 4 * 16 + y / 16, y % 16 * 4 + z / 64, z % 64]
  }

  function FirstByte(x: Sextet, y: Sextet): Byte {
    var high: int := x;
    high * 4 + y / 16
  }

  function SecondByte(x: Sextet, y: Sextet): Byte {
    var high: int := x % 16;
    high * 16 + y / 4
  }

  function ThirdByte(x: Sextet, y: Sextet): Byte {
    var high: int := x % 4;
    high * 64 + y
  }

  /** Six-bit groups regrouped into bytes, left-over bits dropped. */
  function FromSextets(v: seq<Sextet>): Bytes {
    if |v| < 2 then []
    else if |v| == 2 then [FirstByte(v[0], v[1])]
    else if |v| == 3 then [FirstByte(v[0], v[1]), SecondByte(v[1], v[2])]
    else [FirstByte(v[0], v[1]), SecondByte(v[1], v[2]), ThirdByte(v[2], v[3])] + FromSextets(v[4..])
  }

  lemma ByteBack(a: Byte, b: Byte, c: Byte)
    ensures FirstByte(a / 4, a % 4 * 16 + b / 16) == a
    ensures SecondByte(a % 4 * 16 + b / 16, b % 16 * 4 + c / 64) == b
    ensures ThirdByte(b % 16 * 4 + c / 64, c % 64) == c
  {
  }

  lemma GroupBack(v: seq<Sextet>)
    requires |v| >= 4
    ensures FromSextets(v)
            == [FirstByte(v[0], v[1]), SecondByte(v[1], v[2]), ThirdByte(v[2], v[3])] + FromSextets(v[4..])
  {
  }

  lemma {:induction false} RegroupedBack(b: Bytes)
    ensures FromSextets(Sextets(b)) == b
  {
    if |b| >= 3 {
      RegroupedBack(b[3..]);
      ByteBack(b[0], b[1], b[2]);
      GroupBack(Sextets(b));
      assert Sextets(b)[4..] == Sextets(b[3..]);
      assert b == [b[0], b[1], b[2]] + b[3..];
    } else if |b| == 2 {
      ByteBack(b[0], b[1], 0);
    } else if |b| == 1 {
      ByteBack(b[0], 0, 0);
    }
  }

  /** Four sextets for every three bytes, and one more than the bytes left over. */
  function SextetCount(n: nat): nat {
    n / 3 * 4 + if n % 3 == 0 then 0 else n % 3 + 1
  }

  lemma SextetCountStep(n: nat)
    requires n >= 3
    ensures SextetCount(n) == SextetCount(n - 3) + 4
  {
  }

  lemma {:induction false} SextetsLength(b: Bytes)
    ensures |Sextets(b)| == SextetCount(|b|)
  {
    if |b| >= 3 {
      SextetsLength(b[3..]);
      SextetCountStep(|b|);
    }
  }

  function Digits(a: Alphabet, v: seq<Sextet>): string {
    if v == [] then [] else [Digit(a, v[0])] + Digits(a, v[1..])
  }

  function Padding(a: Alphabet, n: nat): string {
    if a == Url || n % 3 == 0 then "" else if n % 3 == 1 then "==" else "="
  }

  function Encode(a: Alphabet, b: Bytes): string {
    Digits(a, Sextets(b)) + Padding(a, |b|)
  }

  /** The digits of a text in order; every other character is skipped. */
  function Values(s: string): seq<Sextet> {
    if s == [] then []
    else (match Value(s[0]) case Some(v) => [v] case None => []) + Values(s[1..])
  }

  /** Node's `Buffer.from(text, "base64")`. */
  function NodeDecode(s: string): Bytes {
    FromSextets(Values(s))
  }

  predicate IsStandardDigit(c: char) {
    Value(c).Some? && c != '-' && c != '_'
  }

  /** `base64 -d`: whole groups of four, padding only at the end, no other character. */
  function StrictDecode(s: string): Option<Bytes> {
    var pad := if EndsWith(s, "==") then 2 else if EndsWith(s, "=") then 1 else 0;
    var body := s[..|s| - pad];
    if |s| % 4 == 0 && (forall c :: c in body ==> IsStandardDigit(c)) then Some(FromSextets(Values(body))) else None
  }

  lemma {:induction false} DigitsLength(a: Alphabet, v: seq<Sextet>)
    ensures |Digits(a, v)| == |v|
  {
    if v != [] {
      DigitsLength(a, v[1..]);
    }
  }

  lemma {:induction false} DigitsRead(a: Alphabet, v: seq<Sextet>)
    ensures Values(Digits(a, v)) == v
  {
    if v != [] {
      DigitsRead(a, v[1..]);
      DigitValue(a, v[0]);
      assert Digits(a, v)[1..] == Digits(a, v[1..]);
      assert v == [v[0]] + v[1..];
    }
  }

  /** What the characters of an encoded text can be. */
  predicate IsDigitOf(a: Alphabet, c: char) {
    Value(c).Some? && c != '=' && c != '.' && (a == Standard ==> IsStandardDigit(c))
  }

  lemma {:induction false} DigitsAreDigits(a: Alphabet, v: seq<Sextet>)
    ensures forall c :: c in Digits(a, v) ==> IsDigitOf(a, c)
  {
    if v != [] {
      DigitsAreDigits(a, v[1..]);
      DigitValue(a, v[0]);
    }
  }

  lemma {:induction false} PaddingSkipped(s: string, n: nat)
    ensures Values(s + seq(n, i => '=')) == Values(s)
    decreases |s|, n
  {
    var pad := seq(n, i => '=');
    if s != [] {
      PaddingSkipped(s[1..], n);
      assert (s + pad)[1..] == s[1..] + pad;
    } else if n > 0 {
      PaddingSkipped(s, n - 1);
      assert (s + pad)[1..] == s + seq(n - 1, i => '=');
    }
  }

  /** The lenient decoder recovers the bytes from either encoding. */
  lemma NodeDecodesEncoded(a: Alphabet, b: Bytes)
    ensures NodeDecode(Encode(a, b)) == b
  {
    DigitsRead(a, Sextets(b));
    var n := |Padding(a, |b|)|;
    assert Padding(a, |b|) == seq(n, i => '=');
    PaddingSkipped(Digits(a, Sextets(b)), n);
    RegroupedBack(b);
  }

  /** The encoded length: `Math.ceil(byteLength / 3) * 4`. */
  function Base64EncodedLength(n: nat): nat {
    (n + 2) / 3 * 4
  }

  lemma PaddedCount(n: nat)
    ensures SextetCount(n) + |Padding(Standard, n)| == Base64EncodedLength(n)
  {
    assert n == n / 3 * 3 + n % 3;
  }

  lemma EncodedLengthExact(b: Bytes)
    ensures |Encode(Standard, b)| == Base64EncodedLength(|b|)
  {
    SextetsLength(b);
    DigitsLength(Standard, Sextets(b));
    PaddedCount(|b|);
  }

  lemma PaddingFound(digits: string, n: nat)
    requires n <= 2 && forall c :: c in digits ==> IsDigitOf(Standard, c)
    ensures EndsWith(digits + "=="[..n], "==") <==> n == 2
    ensures n != 2 ==> (EndsWith(digits + "=="[..n], "=") <==> n == 1)
  {
    var s := digits + "=="[..n];
    if n < 2 && |s| >= 2 {
      assert s[|s| - 2] in digits && s[|s| - 2..][0] == s[|s| - 2];
    }
    if n == 0 && |s| >= 1 {
      assert s[|s| - 1] in digits && s[|s| - 1..][0] == s[|s| - 1];
    }
    assert n == 2 ==> s[|s| - 2..] == "==";
    assert n == 1 ==> s[|s| - 1..] == "=";
  }

  lemma StrictDecodePadded(digits: string, n: nat, v: seq<Sextet>)
    requires n <= 2 && (|digits| + n) % 4 == 0 && Values(digits) == v
    requires forall c :: c in digits ==> IsDigitOf(Standard, c)
    ensures StrictDecode(digits + "=="[..n]) == Some(FromSextets(v))
  {
    hide FromSextets, Values;
    PaddingFound(digits, n);
    assert (digits + "=="[..n])[..|digits|] == digits;
  }

  lemma PaddingText(n: nat)
    ensures |Padding(Standard, n)| <= 2 && Padding(Standard, n) == "=="[..|Padding(Standard, n)|]
  {
  }

  lemma EncodedLengthWhole(n: nat)
    ensures Base64EncodedLength(n) % 4 == 0
  {
  }

  /** The strict decoder accepts every padded encoding and recovers the bytes. */
  lemma StrictDecodesEncoded(b: Bytes)
    ensures StrictDecode(Encode(Standard, b)) == Some(b)
  {
    var v := Sextets(b);
    PaddingText(|b|);
    EncodedLengthExact(b);
    EncodedLengthWhole(|b|);
    DigitsRead(Standard, v);
    DigitsAreDigits(Standard, v);
    StrictDecodePadded(Digits(Standard, v), |Padding(Standard, |b|)|, v);
    RegroupedBack(b);
  }

  lemma {:induction false} SextetsConcat(a: Bytes, b: Bytes)
    requires |a| % 3 == 0
    ensures Sextets(a + b) == Sextets(a) + Sextets(b)
  {
    hide FourSextets;
    if a == [] {
      assert a + b == b;
    } else {
      SextetsConcat(a[3..], b);
      assert (a + b)[3..] == a[3..] + b;
      ConcatAssoc(FourSextets(a[0], a[1], a[2]), Sextets(a[3..]), Sextets(b));
    }
  }

  lemma {:induction false} DigitsConcat(a: Alphabet, v: seq<Sextet>, w: seq<Sextet>)
    ensures Digits(a, v + w) == Digits(a, v) + Digits(a, w)
  {
    if v == [] {
      assert v + w == w;
    } else {
      DigitsConcat(a, v[1..], w);
      assert (v + w)[1..] == v[1..] + w;
      ConcatAssoc([Digit(a, v[0])], Digits(a, v[1..]), Digits(a, w));
    }
  }

  /** Bytes cut at a multiple of three encode piece by piece. */
  lemma EncodeConcat(a: Bytes, b: Bytes)
    requires |a| % 3 == 0
    ensures Encode(Standard, a + b) == Encode(Standard, a) + Encode(Standard, b)
  {
    SextetsConcat(a, b);
    DigitsConcat(Standard, Sextets(a), Sextets(b));
    PaddingOfTail(|a|, |b|);
    var left, right := Digits(Standard, Sextets(a)), Digits(Standard, Sextets(b));
    ConcatAssoc(left, right, Padding(Standard, |b|));
    assert left + "" == left;
  }

  lemma PaddingOfTail(m: nat, n: nat)
    requires m % 3 == 0
    ensures Padding(Standard, m) == "" && Padding(Standard, m + n) == Padding(Standard, n)
  {
    assert (m + n) % 3 == n % 3;
  }

  // ---------- encodings cut short ----------

  lemma {:induction false} ValuesPrefix(s: string, n: nat)
    requires n <= |s|
    ensures Values(s[..n]) <= Values(s)
  {
    if n > 0 {
      ValuesPrefix(s[1..], n - 1);
      assert s[..n][1..] == s[1..][..n - 1];
    }
  }

  lemma {:induction false} FromSextetsPrefix(v: seq<Sextet>, n: nat)
    requires n <= |v|
    ensures FromSextets(v[..n]) <= FromSextets(v)
  {
    if n >= 4 {
      FromSextetsPrefix(v[4..], n - 4);
      assert v[..n][4..] == v[4..][..n - 4];
      GroupBack(v[..n]);
      GroupBack(v);
    }
  }

  /** Whatever is cut off the end of an encoding, the lenient decoder yields the beginning of the bytes. */
  lemma CutDecodesToPrefix(a: Alphabet, b: Bytes, text: string)
    requires text <= Encode(a, b)
    ensures NodeDecode(text) <= b
  {
    var whole := Encode(a, b);
    NodeDecodesEncoded(a, b);
    hide Encode;
    assert text == whole[..|text|];
    ValuesPrefix(whole, |text|);
    var n := |Values(text)|;
    assert Values(text) == Values(whole)[..n];
    FromSextetsPrefix(Values(whole), n);
  }

  /** A digit less is a byte less. */
  lemma {:induction false} FewerSextets(b: Bytes, n: nat)
    requires n < |Sextets(b)|
    ensures |FromSextets(Sextets(b)[..n])| < |b|
  {
    if |b| >= 3 && n >= 4 {
      FewerSextets(b[3..], n - 4);
      assert Sextets(b)[..n][4..] == Sextets(b[3..])[..n - 4];
      GroupBack(Sextets(b)[..n]);
    }
  }

  /** The whole of the bytes comes out exactly when every digit is there; the padding may be missing. */
  lemma WholeNeedsEveryDigit(a: Alphabet, b: Bytes, text: string)
    requires text <= Encode(a, b)
    ensures NodeDecode(text) == b <==> Digits(a, Sextets(b)) <= text
  {
    DigitsLength(a, Sextets(b));
    if |text| < |Sextets(b)| {
      assert text == Digits(a, Sextets(b))[..|text|];
      DigitsOfPrefix(a, Sextets(b), |text|);
      FewerSextets(b, |text|);
    } else {
      assert text[..|Sextets(b)|] == Digits(a, Sextets(b));
      EveryDigitSuffices(a, b, text);
      CutDecodesToPrefix(a, b, text);
    }
  }

  /** A text that begins with all digits of an encoding decodes to at least its bytes. */
  lemma EveryDigitSuffices(a: Alphabet, b: Bytes, text: string)
    requires Digits(a, Sextets(b)) <= text
    ensures b <= NodeDecode(text)
  {
    DigitsRead(a, Sextets(b));
    RegroupedBack(b);
    hide Digits, FromSextets, Sextets;
    var n := |Digits(a, Sextets(b))|;
    assert text[..n] == Digits(a, Sextets(b));
    ValuesPrefix(text, n);
    hide Values;
    var m := |Sextets(b)|;
    assert Values(text)[..m] == Sextets(b);
    FromSextetsPrefix(Values(text), m);
  }

  lemma {:induction false} DigitsOfPrefix(a: Alphabet, v: seq<Sextet>, n: nat)
    requires n <= |v|
    ensures |Digits(a, v)| == |v| && Digits(a, v)[..n] == Digits(a, v[..n])
    ensures Values(Digits(a, v)[..n]) == v[..n]
  {
    DigitsLength(a, v);
    DigitsRead(a, v[..n]);
    if n > 0 {
      DigitsOfPrefix(a, v[1..], n - 1);
      assert v[..n][1..] == v[1..][..n - 1];
    }
  }
}
