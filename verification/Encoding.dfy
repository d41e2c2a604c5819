/** Byte strings and their base64url text: `web_sdk/src/utils/encoding.ts`, the alphabet of
    section 5 of RFC 4648. */
module Encoding {
  type byte = x: int | 0 <= x < 256
  type Bytes = seq<byte>

  datatype Decoded = Decoded(bytes: Bytes) | BadText

  // ---- The platform's btoa and atob ----

  type sextet = x: int | 0 <= x < 64

  function Digit(n: sextet): (c: char)
    ensures IsDigit(c) && Value(c) == n
  {
    if n < 26 then (n + 65) as char
    else if n < 52 then (n + 71) as char
    else if n < 62 then (n - 4) as char
    else if n == 62 then '+'
    else '/'
  }

  predicate IsDigit(c: char) {
    'A' <= c <= 'Z' || 'a' <= c <= 'z' || '0' <= c <= '9' || c == '+' || c == '/'
  }

  function Value(c: char): sextet
    requires IsDigit(c)
  {
    if 'A' <= c <= 'Z' then c as int - 65
    else if 'a' <= c <= 'z' then c as int - 71
    else if '0' <= c <= '9' then c as int + 4
    else if c == '+' then 62
    else 63
  }

  /** Three bytes make four sextets; one or two bytes at the end make two or three. */
  function Sextets(b: Bytes): seq<sextet> {
    if |b| == 0 then []
    else if |b| == 1 then [b[0] / 4, b[0] % 4 * 16]
    else if |b| == 2 then [b[0] / 4, b[0] % 4 * 16 + b[1] / 16, b[1] % 16 * 4]
    else [b[0] / 4, b[0] % 4 * 16 + b[1] / 16, b[1] % 16 * 4 + b[2] / 64, b[2] % 64] + Sextets(b[3..])
  }

  function First(p: int, q: int): byte
    requires 0 <= p < 64 && 0 <= q < 64
  {
    p * 4 + q / 16
  }

  function Second(q: int, r: int): byte
    requires 0 <= q < 64 && 0 <= r < 64
  {
    q % 16 * 16 + r / 4
  }

  function Third(r: int, s: int): byte
    requires 0 <= r < 64 && 0 <= s < 64
  {
    r % 4 * 64 + s
  }

  /** The surplus bits of the last sextet are dropped. */
  function FromSextets(v: seq<sextet>): Bytes {
    if |v| < 2 then []
    else if |v| == 2 then [First(v[0], v[1])]
    else if |v| == 3 then [First(v[0], v[1]), Second(v[1], v[2])]
    else [First(v[0], v[1]), Second(v[1], v[2]), Third(v[2], v[3])] + FromSextets(v[4..])
  }

  function Padding(n: nat): string {
    if n % 3 == 0 then "" else if n % 3 == 1 then "==" else "="
  }

  function Digits(b: Bytes): string {
    var v := Sextets(b);
    seq(|v|, i requires 0 <= i < |v| => Digit(v[i]))
  }

  function Btoa(b: Bytes): string {
    Digits(b) + Padding(|b|)
  }

  predicate IsSpace(c: char) {
    c == ' ' || c == '\t' || c == '\n' || c == '\r' || c as int == 12
  }

  function DropSpaces(s: string): string {
    if s == "" then ""
    else if IsSpace(s[0]) then DropSpaces(s[1..])
    else [s[0]] + DropSpaces(s[1..])
  }

  function DropLast(s: string): string {
    if s != "" && s[|s| - 1] == '=' then s[..|s| - 1] else s
  }

  predicate AllDigits(s: string) {
    forall i | 0 <= i < |s| :: IsDigit(s[i])
  }

  function Values(s: string): seq<sextet>
    requires AllDigits(s)
  {
    seq(|s|, i requires 0 <= i < |s| => Value(s[i]))
  }

  /** The "forgiving" decoder of browsers and Node. */
  function Atob(text: string): Decoded {
    var s := DropSpaces(text);
    var t := if |s| % 4 == 0 then DropLast(DropLast(s)) else s;
    if |t| % 4 == 1 || !AllDigits(t) then BadText
    else Decoded(FromSextets(Values(t)))
  }

  // ---- base64url ----

  function ToUrl(s: string): (r: string)
    ensures |r| == |s|
  {
    seq(|s|, i requires 0 <= i < |s| => if s[i] == '+' then '-' else if s[i] == '/' then '_' else s[i])
  }

  function FromUrl(s: string): (r: string)
    ensures |r| == |s|
  {
    seq(|s|, i requires 0 <= i < |s| => if s[i] == '-' then '+' else if s[i] == '_' then '/' else s[i])
  }

  function TrimEquals(s: string): string {
    if s != "" && s[|s| - 1] == '=' then TrimEquals(s[..|s| - 1]) else s
  }

  /** How many characters a text of this length lacks to a multiple of four. */
  function Missing(n: nat): nat {
    (4 - n % 4) % 4
  }

  lemma {:induction false} MissingStep(n: nat)
    requires n % 4 != 0
    ensures Missing(n + 1) < Missing(n)
  {
  }

  function Pad(s: string): string
    decreases Missing(|s|)
  {
    if |s| % 4 == 0 then s else (MissingStep(|s|); Pad(s + "="))
  }

  lemma {:induction false} PadStep(s: string)
    requires |s| % 4 != 0
    ensures Pad(s) == Pad(s + "=") && Missing(|s + "="|) < Missing(|s|)
  {
    MissingStep(|s|);
  }

  lemma {:induction false} PadDone(s: string)
    requires |s| % 4 == 0
    ensures Pad(s) == s
  {
  }

  function Encode(b: Bytes): string {
    TrimEquals(ToUrl(Btoa(b)))
  }

  function Decode(s: string): Decoded {
    Atob(Pad(FromUrl(s)))
  }

  /** The loop that copies the bytes to a string of characters, then btoa and the
      replacements. */
  method Base64urlEncode(bytes: Bytes) returns (r: string)
    ensures r == Encode(bytes)
  {
    var binary: string := "";
    for i := 0 to |bytes|
      invariant |binary| == i
      invariant forall j | 0 <= j < i :: binary[j] as int == bytes[j]
    {
      binary := binary + [bytes[i] as char];
    }
    var read := seq(|binary|, i requires 0 <= i < |binary| => binary[i] as int % 256);
    assert read == bytes;
    r := TrimEquals(ToUrl(Btoa(read)));
  }

  /** The padding loop. */
  method PadLoop(text: string) returns (base64: string)
    ensures base64 == Pad(text)
  {
    hide Pad;
    base64 := text;
    while |base64| % 4 != 0
      invariant Pad(base64) == Pad(text)
      decreases Missing(|base64|)
    {
      PadStep(base64);
      base64 := base64 + "=";
    }
    PadDone(base64);
  }

  /** Padding, `atob`, and the loop that fills the byte array. */
  method Base64urlDecode(text: string) returns (r: Decoded)
    ensures r == Decode(text)
  {
    hide Atob, Pad;
    var base64 := PadLoop(FromUrl(text));
    var binary := Atob(base64);
    if binary.BadText? {
      return BadText;
    }
    var bytes := new byte[|binary.bytes|](_ => 0);
    for i := 0 to bytes.Length
      invariant bytes[..i] == binary.bytes[..i]
    {
      bytes[i] := binary.bytes[i];
    }
    assert bytes[..] == binary.bytes;
    r := Decoded(bytes[..]);
  }

  // ---- Round trip ----

  lemma {:induction false} GroupRoundTrip(x: byte, y: byte, z: byte)
    ensures First(x / 4, x % 4 * 16 + y / 16) == x
    ensures Second(x % 4 * 16 + y / 16, y % 16 * 4 + z / 64) == y
    ensures Third(y % 16 * 4 + z / 64, z % 64) == z
  {
  }

  lemma {:induction false} SextetsRoundTrip(b: Bytes)
    ensures FromSextets(Sextets(b)) == b
  {
    if |b| >= 3 {
      SextetsRoundTrip(b[3..]);
      assert Sextets(b)[4..] == Sextets(b[3..]);
      GroupRoundTrip(b[0], b[1], b[2]);
      assert b == [b[0], b[1], b[2]] + b[3..];
    } else if |b| == 2 {
      GroupRoundTrip(b[0], b[1], 0);
    } else if |b| == 1 {
      GroupRoundTrip(b[0], 0, 0);
    }
  }

  lemma {:induction false} SextetsLength(b: Bytes)
    ensures |Sextets(b)| % 4 == (if |b| % 3 == 0 then 0 else |b| % 3 + 1)
  {
    if |b| >= 3 {
      SextetsLength(b[3..]);
    }
  }

  lemma {:induction false} DigitsRoundTrip(b: Bytes)
    ensures AllDigits(Digits(b)) && FromSextets(Values(Digits(b))) == b
    ensures |Digits(b)| % 4 == (if |b| % 3 == 0 then 0 else |b| % 3 + 1)
  {
    SextetsRoundTrip(b);
    SextetsLength(b);
    assert Values(Digits(b)) == Sextets(b);
  }

  lemma {:induction false} NoSpaces(s: string)
    requires forall i | 0 <= i < |s| :: IsDigit(s[i]) || s[i] == '='
    ensures DropSpaces(s) == s
  {
    if s != "" {
      NoSpaces(s[1..]);
      assert s == [s[0]] + s[1..];
    }
  }

  lemma {:induction false} TrimStep(s: string)
    ensures TrimEquals(s + "=") == TrimEquals(s)
  {
    assert (s + "=")[..|s|] == s;
  }

  /** Trimming takes off the padding and nothing else. */
  lemma {:induction false} TrimPadding(s: string, n: nat)
    requires forall i | 0 <= i < |s| :: s[i] != '='
    ensures TrimEquals(s + Padding(n)) == s
  {
    assert TrimEquals(s) == s;
    hide TrimEquals;
    TrimStep(s);
    TrimStep(s + "=");
    assert (s + "=") + "=" == s + "==";
    assert s + "" == s;
  }

  lemma {:induction false} PadOnce(s: string)
    requires |s| % 4 == 3
    ensures Pad(s) == s + "="
  {
  }

  lemma {:induction false} PadTwice(s: string)
    requires |s| % 4 == 2
    ensures Pad(s) == s + "=="
  {
    var t := s + "=";
    assert |t| == |s| + 1;
    PadOnce(t);
    assert t + "=" == s + "==";
  }

  lemma {:induction false} PadSteps(s: string, n: nat)
    requires |s| % 4 == (if n % 3 == 0 then 0 else n % 3 + 1)
    ensures Pad(s) == s + Padding(n)
  {
    if |s| % 4 == 0 {
      assert s + "" == s;
    } else if |s| % 4 == 3 {
      PadOnce(s);
    } else {
      PadTwice(s);
    }
  }

  /** The encoding is the digits in the url alphabet. */
  lemma {:induction false} EncodeIsDigits(b: Bytes)
    ensures Encode(b) == ToUrl(Digits(b))
  {
    DigitsRoundTrip(b);
    var d := Digits(b);
    assert ToUrl(d + Padding(|b|)) == ToUrl(d) + Padding(|b|);
    TrimPadding(ToUrl(d), |b|);
  }

  lemma {:induction false} UrlDigits(d: string)
    requires AllDigits(d)
    ensures FromUrl(ToUrl(d)) == d
    ensures forall i | 0 <= i < |d| :: ToUrl(d)[i] !in "+/=:"
  {
  }

  /** Section 5 of RFC 4648: the character of each sextet in the url alphabet. */
  function UrlDigit(n: sextet): char {
    if n < 26 then (n + 'A' as int) as char
    else if n < 52 then (n - 26 + 'a' as int) as char
    else if n < 62 then (n - 52 + '0' as int) as char
    else if n == 62 then '-'
    else '_'
  }

  /** An encoding spells its sextets in the url alphabet, without padding. */
  lemma {:induction false} EncodeSpells(b: Bytes, i: nat)
    ensures |Encode(b)| == |Sextets(b)|
    ensures i < |Encode(b)| ==> Encode(b)[i] == UrlDigit(Sextets(b)[i])
  {
    EncodeIsDigits(b);
  }

  function At(digits: seq<int>, i: nat): int {
    if i < |digits| then digits[i] else 0
  }

  /** The number that three bytes from `i` on spell, missing ones being 0. */
  function ThreeBytes(b: seq<int>, i: nat): int {
    At(b, i) * 65536 + At(b, i + 1) * 256 + At(b, i + 2)
  }

  /** The number that four sextets from `i` on spell, missing ones being 0. */
  function FourSextets(v: seq<int>, i: nat): int {
    At(v, i) * 262144 + At(v, i + 1) * 4096 + At(v, i + 2) * 64 + At(v, i + 3)
  }

  lemma {:induction false} FirstGroup(b: Bytes)
    ensures FourSextets(Sextets(b), 0) == ThreeBytes(b, 0)
  {
  }

  /** Dropping what comes first shifts every group. */
  lemma {:induction false} ShiftGroup(s: seq<int>, front: seq<int>, rest: seq<int>, i: nat)
    requires s == front + rest
    ensures ThreeBytes(s, |front| + i) == ThreeBytes(rest, i)
    ensures FourSextets(s, |front| + i) == FourSextets(rest, i)
  {
  }

  lemma {:induction false} SextetsFront(b: Bytes)
    ensures |b| < 3 ==> |Sextets(b)| <= 4
    ensures |b| >= 3 ==> |Sextets(b)| >= 4 && Sextets(b) == Sextets(b)[..4] + Sextets(b[3..])
  {
  }

  /** The sextets are the bits of the bytes in order: each group of three bytes and of four sextets
      is the same number in base 256 and in base 64, the last group filled up with zeros. */
  lemma {:induction false} SextetsAreBits(b: Bytes, g: nat)
    ensures FourSextets(Sextets(b), 4 * g) == ThreeBytes(b, 3 * g)
  {
    hide Sextets;
    SextetsFront(b);
    if g == 0 {
      FirstGroup(b);
    } else if |b| >= 3 {
      hide At, ThreeBytes, FourSextets;
      SextetsAreBits(b[3..], g - 1);
      ShiftGroup(Sextets(b), Sextets(b)[..4], Sextets(b[3..]), 4 * (g - 1));
      ShiftGroup(b, b[..3], b[3..], 3 * (g - 1));
    }
  }

  /** An encoding never holds a character that could be taken for padding or for the
      separator of a store name. */
  lemma {:induction false} EncodeShape(b: Bytes)
    ensures forall i | 0 <= i < |Encode(b)| :: Encode(b)[i] !in "+/=:"
    ensures |Encode(b)| % 4 != 1
    ensures FromUrl(Encode(b)) == Digits(b)
  {
    EncodeIsDigits(b);
    DigitsRoundTrip(b);
    UrlDigits(Digits(b));
  }

  /** On an encoding the padding loop stops after at most two steps, with what `btoa` gave. */
  lemma {:induction false} PadRestores(b: Bytes)
    ensures Pad(FromUrl(Encode(b))) == Btoa(b)
    ensures |Btoa(b)| <= |Encode(b)| + 2
  {
    DigitsRoundTrip(b);
    EncodeShape(b);
    PadSteps(Digits(b), |b|);
  }

  lemma {:induction false} DropPadding(d: string, n: nat)
    requires AllDigits(d)
    ensures DropLast(DropLast(d + Padding(n))) == d
  {
  }

  lemma {:induction false} PaddedLength(m: nat, n: nat)
    requires m % 4 == (if n % 3 == 0 then 0 else n % 3 + 1)
    ensures (m + |Padding(n)|) % 4 == 0
  {
  }

  lemma {:induction false} BtoaLength(b: Bytes)
    ensures |Btoa(b)| % 4 == 0
  {
    DigitsRoundTrip(b);
    hide Digits, Padding;
    PaddedLength(|Digits(b)|, |b|);
  }

  /** Decoding undoes encoding, for byte strings of any length. */
  lemma {:induction false} RoundTrip(b: Bytes)
    ensures Decode(Encode(b)) == Decoded(b)
  {
    PadRestores(b);
    DigitsRoundTrip(b);
    NoSpaces(Btoa(b));
    DropPadding(Digits(b), |b|);
    BtoaLength(b);
  }

  lemma {:induction false} EncodeInjective(a: Bytes, b: Bytes)
    requires Encode(a) == Encode(b)
    ensures a == b
  {
    RoundTrip(a);
    RoundTrip(b);
  }
}
