/**
The Base64 codec of the Pub/Sub plugin (PubSubUtil.cpp). Encoding and decoding
are the shifting loops of the source, on 32-bit words; what they are proved
against is the definition of RFC 4648, sections 4 and 5: the bytes are one
string of bits, cut into groups of six to encode and of eight to decode.
*/
module Base64 {
  import opened Wrappers

  type Byte = bv8

  const INVALID := "Pub/Sub plugin: message data is not valid base64"

  // ----- RFC 4648 on bit strings -----

  /** Bits, most significant first. */
  datatype Bits = End | Bit(first: bool, rest: Bits)

  datatype Six = Six(b0: bool, b1: bool, b2: bool, b3: bool, b4: bool, b5: bool)

  datatype Eight = Eight(b0: bool, b1: bool, b2: bool, b3: bool, b4: bool, b5: bool, b6: bool, b7: bool)

  function SixThen(v: Six, others: Bits): Bits {
    Bit(v.b0, Bit(v.b1, Bit(v.b2, Bit(v.b3, Bit(v.b4, Bit(v.b5, others))))))
  }

  function EightThen(x: Eight, others: Bits): Bits {
    Bit(x.b0, Bit(x.b1, Bit(x.b2, Bit(x.b3, Bit(x.b4, Bit(x.b5, Bit(x.b6, Bit(x.b7, others))))))))
  }

  function EightsThen(data: seq<Eight>, others: Bits): Bits {
    if data == [] then others else EightThen(data[0], EightsThen(data[1..], others))
  }

  function SixesThen(values: seq<Six>, others: Bits): Bits {
    if values == [] then others else SixThen(values[0], SixesThen(values[1..], others))
  }

  /** Groups of six, the last one filled up with zeros. */
  function CutSixes(bits: Bits): seq<Six> {
    match bits
    case End => []
    case Bit(b0, End) => [Six(b0, false, false, false, false, false)]
    case Bit(b0, Bit(b1, End)) => [Six(b0, b1, false, false, false, false)]
    case Bit(b0, Bit(b1, Bit(b2, End))) => [Six(b0, b1, b2, false, false, false)]
    case Bit(b0, Bit(b1, Bit(b2, Bit(b3, End)))) => [Six(b0, b1, b2, b3, false, false)]
    case Bit(b0, Bit(b1, Bit(b2, Bit(b3, Bit(b4, End))))) => [Six(b0, b1, b2, b3, b4, false)]
    case Bit(b0, Bit(b1, Bit(b2, Bit(b3, Bit(b4, Bit(b5, others)))))) =>
      [Six(b0, b1, b2, b3, b4, b5)] + CutSixes(others)
  }

  /** Groups of eight; what is left at the end is dropped. */
  function CutEights(bits: Bits): seq<Eight> {
    match bits
    case Bit(b0, Bit(b1, Bit(b2, Bit(b3, Bit(b4, Bit(b5, Bit(b6, Bit(b7, others)))))))) =>
      [Eight(b0, b1, b2, b3, b4, b5, b6, b7)] + CutEights(others)
    case _ => []
  }

  // ----- machine words and their bits -----

  function EightOf(x: Byte): Eight {
    Eight(x & 0x80 != 0, x & 0x40 != 0, x & 0x20 != 0, x & 0x10 != 0,
          x & 0x08 != 0, x & 0x04 != 0, x & 0x02 != 0, x & 0x01 != 0)
  }

  function ByteOf(x: Eight): Byte {
    (if x.b0 then 0x80 else 0) | (if x.b1 then 0x40 else 0) | (if x.b2 then 0x20 else 0) |
    (if x.b3 then 0x10 else 0) | (if x.b4 then 0x08 else 0) | (if x.b5 then 0x04 else 0) |
    (if x.b6 then 0x02 else 0) | (if x.b7 then 0x01 else 0)
  }

  function SixOf(v: bv32): Six {
    Six(v & 0x20 != 0, v & 0x10 != 0, v & 0x08 != 0, v & 0x04 != 0, v & 0x02 != 0, v & 0x01 != 0)
  }

  function Eights(data: seq<Byte>): (r: seq<Eight>)
    ensures |r| == |data|
  {
    seq(|data|, (j: nat) requires j < |data| => EightOf(data[j]))
  }

  function Bytes(data: seq<Eight>): (r: seq<Byte>)
    ensures |r| == |data|
  {
    seq(|data|, (j: nat) requires j < |data| => ByteOf(data[j]))
  }

  // ----- characters -----

  /** n consecutive characters of ASCII. */
  function Run(first: char, n: nat): string
    requires first as int + n < 128
  {
    seq(n, (i: nat) requires i < n => (first as int + i) as char)
  }

  const TABLE: string := Run('A', 26) + Run('a', 26) + Run('0', 10) + "+/"

  /** The number six bits stand for. */
  function Number(v: Six): (n: nat)
    ensures n < 64
  {
    (if v.b0 then 32 else 0) + (if v.b1 then 16 else 0) + (if v.b2 then 8 else 0) +
    (if v.b3 then 4 else 0) + (if v.b4 then 2 else 0) + (if v.b5 then 1 else 0)
  }

  function Letter(v: Six): char {
    TABLE[Number(v)]
  }

  function UrlLetter(c: char): char {
    if c == '+' then '-' else if c == '/' then '_' else c
  }

  /** The value of a letter of either alphabet, -1 for any other character. */
  function Base64Value(c: char): (v: int)
    ensures -1 <= v < 64
  {
    if 'A' <= c <= 'Z' then c as int - 'A' as int
    else if 'a' <= c <= 'z' then c as int - 'a' as int + 26
    else if '0' <= c <= '9' then c as int - '0' as int + 52
    else if c == '+' || c == '-' then 62
    else if c == '/' || c == '_' then 63
    else -1
  }

  predicate IsLetter(c: char) {
    Base64Value(c) >= 0
  }

  function LetterValue(c: char): Six
    requires IsLetter(c)
  {
    SixOf(Base64Value(c) as bv32)
  }

  predicate IsSpace(c: char) {
    c == ' ' || c == '\n' || c == '\r' || c == '\t'
  }

  predicate Acceptable(c: char) {
    c == '=' || IsLetter(c) || IsSpace(c)
  }

  predicate AllLetters(s: string) {
    forall i :: 0 <= i < |s| ==> IsLetter(s[i])
  }

  function Letters(values: seq<Six>): (s: string)
    ensures |s| == |values|
  {
    seq(|values|, (j: nat) requires j < |values| => Letter(values[j]))
  }

  function Values(letters: string): (values: seq<Six>)
    requires AllLetters(letters)
    ensures |values| == |letters|
  {
    seq(|letters|, (j: nat) requires j < |letters| => LetterValue(letters[j]))
  }

  function Padding(n: nat): string {
    if n % 3 == 0 then "" else if n % 3 == 1 then "==" else "="
  }

  /** The text without its white space. */
  function Squeezed(s: string): (t: string)
    ensures |t| <= |s|
  {
    if s == "" then ""
    else if IsSpace(s[|s| - 1]) then Squeezed(s[..|s| - 1])
    else Squeezed(s[..|s| - 1]) + [s[|s| - 1]]
  }

  /** The text without the '=' signs at its end. */
  function Trimmed(s: string): (t: string)
    ensures t <= s
  {
    if s != "" && s[|s| - 1] == '=' then Trimmed(s[..|s| - 1]) else s
  }

  // ----- the two alphabets, and decoding -----

  function Sextets(data: seq<Byte>): seq<Six> {
    CutSixes(EightsThen(Eights(data), End))
  }

  /** Section 4: the letters of the six-bit groups, padded to a multiple of four. */
  function Encoded(data: seq<Byte>): string {
    Letters(Sextets(data)) + Padding(|data|)
  }

  /** Section 5: the URL-safe alphabet, unpadded. */
  function UrlEncoded(data: seq<Byte>): string {
    var letters := Letters(Sextets(data));
    seq(|letters|, (j: nat) requires j < |letters| => UrlLetter(letters[j]))
  }

  function DecodedLetters(letters: string): Result<seq<Byte>> {
    if AllLetters(letters) then Ok(Bytes(CutEights(SixesThen(Values(letters), End)))) else Err(INVALID)
  }

  function Decoded(text: string): Result<seq<Byte>> {
    if forall i :: 0 <= i < |text| ==> Acceptable(text[i])
    then DecodedLetters(Trimmed(Squeezed(text)))
    else Err(INVALID)
  }

  // ----- the loops of the source -----

  /** The letter of the word's last six bits. */
  method TableLookup(word: bv32) returns (c: char)
    ensures c == Letter(SixOf(word))
  {
    MaskedNumber(word);
    c := TABLE[(word & 63) as int];
  }

  function FirstSix(a: Eight): Six {
    Six(a.b0, a.b1, a.b2, a.b3, a.b4, a.b5)
  }

  function SecondSix(a: Eight, b: Eight): Six {
    Six(a.b6, a.b7, b.b0, b.b1, b.b2, b.b3)
  }

  function ThirdSix(b: Eight, c: Eight): Six {
    Six(b.b4, b.b5, b.b6, b.b7, c.b0, c.b1)
  }

  function FourthSix(c: Eight): Six {
    Six(c.b2, c.b3, c.b4, c.b5, c.b6, c.b7)
  }

  /** One group: three bytes in one word, shifted and masked into four letters. */
  method CutGroup(a: Byte, b: Byte, c: Byte) returns (c0: char, c1: char, c2: char, c3: char)
    ensures c0 == Letter(FirstSix(EightOf(a))) && c1 == Letter(SecondSix(EightOf(a), EightOf(b)))
    ensures c2 == Letter(ThirdSix(EightOf(b), EightOf(c))) && c3 == Letter(FourthSix(EightOf(c)))
  {
    var value := ((a as bv32) << 16) | ((b as bv32) << 8) | (c as bv32);
    CutWord(a, b, c);
    c0 := TableLookup(value >> 18);
    c1 := TableLookup(value >> 12);
    c2 := TableLookup(value >> 6);
    c3 := TableLookup(value);
  }

  /** The shifts and masks of the source keep the 24 bits in their order. */
  lemma CutWord(a: Byte, b: Byte, c: Byte)
    ensures var value := ((a as bv32) << 16) | ((b as bv32) << 8) | (c as bv32);
            && SixOf(value >> 18) == FirstSix(EightOf(a))
            && SixOf(value >> 12) == SecondSix(EightOf(a), EightOf(b))
            && SixOf(value >> 6) == ThirdSix(EightOf(b), EightOf(c))
            && SixOf(value) == FourthSix(EightOf(c))
  {
  }

  /** A null pointer with a non-zero size, which the source rejects, has no counterpart in a sequence. */
  method Base64Encode(data: seq<Byte>) returns (encoded: string)
    ensures encoded == Encoded(data)
  {
    if |data| == 0 {
      return "";
    }
    encoded := "";
    var index := 0;
    ghost var eights := Eights(data);
    ghost var values: seq<Six> := [];
    while index + 3 <= |data|
      invariant 0 <= index <= |data| && index % 3 == 0
      invariant encoded == Letters(values)
      invariant EightsThen(eights, End) == SixesThen(values, EightsThen(eights[index..], End))
    {
      var c0, c1, c2, c3 := CutGroup(data[index], data[index + 1], data[index + 2]);
      encoded := encoded + [c0, c1, c2, c3];
      values := WholeGroup(values, eights, index);
      index := index + 3;
    }
    LastGroup(values, data, index);
    if index < |data| {
      var c0, c1, c2, _ := CutGroup(data[index], if index + 1 < |data| then data[index + 1] else 0, 0);
      encoded := encoded + if index + 1 < |data| then [c0, c1, c2, '='] else [c0, c1, '=', '='];
    }
  }

  /** One round of the encoding loop. */
  lemma {:induction false} WholeGroup(values: seq<Six>, data: seq<Eight>, index: nat) returns (longer: seq<Six>)
    requires index + 3 <= |data|
    ensures var a, b, c := data[index], data[index + 1], data[index + 2];
            Letters(longer) == Letters(values) + [Letter(FirstSix(a)), Letter(SecondSix(a, b)),
                                                  Letter(ThirdSix(b, c)), Letter(FourthSix(c))]
    ensures SixesThen(values, EightsThen(data[index..], End)) == SixesThen(longer, EightsThen(data[index + 3..], End))
  {
    var a, b, c := data[index], data[index + 1], data[index + 2];
    var others := EightsThen(data[index + 3..], End);
    assert data[index..][1..] == data[index + 1..] && data[index + 1..][1..] == data[index + 2..];
    assert data[index + 2..][1..] == data[index + 3..];
    var v0, v1, v2, v3 := FirstSix(a), SecondSix(a, b), ThirdSix(b, c), FourthSix(c);
    assert EightsThen(data[index + 2..], End) == EightThen(c, others);
    assert EightsThen(data[index + 1..], End) == EightThen(b, EightThen(c, others));
    assert EightsThen(data[index..], End) == SixThen(v0, SixThen(v1, SixThen(v2, SixThen(v3, others))));
    longer := AppendFour(values, v0, v1, v2, v3, others);
  }

  lemma {:induction false} AppendFour(values: seq<Six>, v0: Six, v1: Six, v2: Six, v3: Six, others: Bits) returns (longer: seq<Six>)
    ensures Letters(longer) == Letters(values) + [Letter(v0), Letter(v1), Letter(v2), Letter(v3)]
    ensures SixesThen(values, SixThen(v0, SixThen(v1, SixThen(v2, SixThen(v3, others))))) == SixesThen(longer, others)
  {
    hide SixesThen, SixThen, Letters, Letter;
    longer := values + [v0] + [v1] + [v2] + [v3];
    SixesAppend(values + [v0] + [v1] + [v2], v3, others);
    SixesAppend(values + [v0] + [v1], v2, SixThen(v3, others));
    SixesAppend(values + [v0], v1, SixThen(v2, SixThen(v3, others)));
    SixesAppend(values, v0, SixThen(v1, SixThen(v2, SixThen(v3, others))));
    assert longer == values + [v0, v1, v2, v3];
    LettersConcat(values, [v0, v1, v2, v3]);
    FourLetters(v0, v1, v2, v3);
  }

  lemma FourLetters(v0: Six, v1: Six, v2: Six, v3: Six)
    ensures Letters([v0, v1, v2, v3]) == [Letter(v0), Letter(v1), Letter(v2), Letter(v3)]
  {
    hide Letter;
  }

  lemma {:induction false} LettersConcat(values: seq<Six>, more: seq<Six>)
    ensures Letters(values + more) == Letters(values) + Letters(more)
  {
  }

  const ZERO := Eight(false, false, false, false, false, false, false, false)

  /** The letters of the one or two bytes that are left. */
  function LastLetters(rest: seq<Eight>): string
    requires |rest| < 3
  {
    if |rest| == 0 then ""
    else if |rest| == 1 then [Letter(FirstSix(rest[0])), Letter(SecondSix(rest[0], ZERO)), '=', '=']
    else [Letter(FirstSix(rest[0])), Letter(SecondSix(rest[0], rest[1])), Letter(ThirdSix(rest[1], ZERO)), '=']
  }

  lemma {:induction false} LastGroup(values: seq<Six>, data: seq<Byte>, index: nat)
    requires index <= |data| < index + 3 && index % 3 == 0
    requires EightsThen(Eights(data), End) == SixesThen(values, EightsThen(Eights(data)[index..], End))
    ensures Encoded(data) == Letters(values) + LastLetters(Eights(data)[index..])
  {
    hide Letters, LastLetters, CutSixes, EightsThen, SixesThen;
    var rest := Eights(data)[index..];
    var last := LastSixes(values, Eights(data), rest);
    LettersConcat(values, last);
    LastLettersOf(rest, last);
    assert Letters(values) + Letters(last) + Padding(|rest|) == Letters(values) + (Letters(last) + Padding(|rest|));
  }

  lemma {:induction false} LastSixes(values: seq<Six>, data: seq<Eight>, rest: seq<Eight>) returns (last: seq<Six>)
    requires EightsThen(data, End) == SixesThen(values, EightsThen(rest, End))
    ensures CutSixes(EightsThen(data, End)) == values + last && last == CutSixes(EightsThen(rest, End))
  {
    CutSixesAfter(values, EightsThen(rest, End));
    last := CutSixes(EightsThen(rest, End));
  }

  lemma {:induction false} LastLettersOf(rest: seq<Eight>, last: seq<Six>)
    requires |rest| < 3 && last == CutSixes(EightsThen(rest, End))
    ensures Letters(last) + Padding(|rest|) == LastLetters(rest)
  {
    if |rest| == 1 {
      CutOneByte(rest);
    } else if |rest| == 2 {
      CutTwoBytes(rest);
    }
  }

  lemma {:induction false} CutOneByte(rest: seq<Eight>)
    requires |rest| == 1
    ensures CutSixes(EightsThen(rest, End)) == [FirstSix(rest[0]), SecondSix(rest[0], ZERO)]
  {
    assert EightsThen(rest, End) == EightThen(rest[0], End);
    assert CutSixes(Bit(rest[0].b6, Bit(rest[0].b7, End))) == [SecondSix(rest[0], ZERO)];
  }

  lemma {:induction false} CutTwoBytes(rest: seq<Eight>)
    requires |rest| == 2
    ensures CutSixes(EightsThen(rest, End)) ==
            [FirstSix(rest[0]), SecondSix(rest[0], rest[1]), ThirdSix(rest[1], ZERO)]
  {
    var a, b := rest[0], rest[1];
    assert EightsThen(rest[1..], End) == EightThen(b, End);
    var last := Bit(b.b4, Bit(b.b5, Bit(b.b6, Bit(b.b7, End))));
    assert CutSixes(last) == [ThirdSix(b, ZERO)];
    assert CutSixes(SixThen(SecondSix(a, b), last)) == [SecondSix(a, b)] + CutSixes(last);
    assert EightsThen(rest, End) == SixThen(FirstSix(a), SixThen(SecondSix(a, b), last));
  }

  lemma {:induction false} SixesAppend(values: seq<Six>, v: Six, others: Bits)
    ensures SixesThen(values + [v], others) == SixesThen(values, SixThen(v, others))
  {
    if values != [] {
      assert (values + [v])[1..] == values[1..] + [v];
      SixesAppend(values[1..], v, others);
    }
  }

  lemma {:induction false} EightsAppend(data: seq<Eight>, x: Eight, others: Bits)
    ensures EightsThen(data + [x], others) == EightsThen(data, EightThen(x, others))
  {
    if data != [] {
      assert (data + [x])[1..] == data[1..] + [x];
      EightsAppend(data[1..], x, others);
    }
  }

  lemma {:induction false} CutSixesAfter(values: seq<Six>, others: Bits)
    ensures CutSixes(SixesThen(values, others)) == values + CutSixes(others)
  {
    hide CutSixes, SixThen;
    if values != [] {
      CutOneSix(values[0], SixesThen(values[1..], others));
      CutSixesAfter(values[1..], others);
      assert values == [values[0]] + values[1..];
    } else {
      assert [] + CutSixes(others) == CutSixes(others);
    }
  }

  lemma CutOneSix(v: Six, others: Bits)
    ensures CutSixes(SixThen(v, others)) == [v] + CutSixes(others)
  {
  }

  lemma {:induction false} CutEightsAfter(data: seq<Eight>, others: Bits)
    ensures CutEights(EightsThen(data, others)) == data + CutEights(others)
  {
    if data != [] {
      CutEightsAfter(data[1..], others);
    }
  }

  /** Base64Url of the source: encode, swap two letters in place, drop the padding. */
  method Base64Url(raw: seq<Byte>) returns (encoded: string)
    ensures encoded == UrlEncoded(raw)
  {
    encoded := Base64Encode(raw);
    ghost var letters := Letters(Sextets(raw));
    ghost var plain := encoded;
    LettersAreLetters(Sextets(raw));
    for i := 0 to |encoded|
      invariant |encoded| == |plain|
      invariant forall j :: 0 <= j < i ==> encoded[j] == UrlLetter(plain[j])
      invariant forall j :: i <= j < |encoded| ==> encoded[j] == plain[j]
    {
      if encoded[i] == '+' {
        encoded := encoded[i := '-'];
      } else if encoded[i] == '/' {
        encoded := encoded[i := '_'];
      }
    }
    while encoded != "" && encoded[|encoded| - 1] == '='
      invariant |letters| <= |encoded| <= |plain|
      invariant forall j :: 0 <= j < |letters| ==> encoded[j] == UrlLetter(letters[j])
      invariant forall j :: |letters| <= j < |encoded| ==> encoded[j] == '='
      decreases |encoded|
    {
      encoded := encoded[..|encoded| - 1];
    }
  }

  method Base64Decode(encoded: string) returns (result: Result<seq<Byte>>)
    ensures result == Decoded(encoded)
  {
    var filtered := "";
    for i := 0 to |encoded|
      invariant forall j :: 0 <= j < i ==> Acceptable(encoded[j])
      invariant filtered == Squeezed(encoded[..i])
    {
      var character := encoded[i];
      assert encoded[..i + 1][..i] == encoded[..i];
      if character == '=' || Base64Value(character) >= 0 {
        filtered := filtered + [character];
      } else if character == ' ' || character == '\n' || character == '\r' || character == '\t' {
      } else {
        return Err(INVALID);
      }
    }
    assert encoded[..|encoded|] == encoded;

    while filtered != "" && filtered[|filtered| - 1] == '='
      invariant Trimmed(filtered) == Trimmed(Squeezed(encoded))
      decreases |filtered|
    {
      filtered := filtered[..|filtered| - 1];
    }
    result := DecodeLetters(filtered);
  }

  /** The last loop of Base64Decode. */
  method DecodeLetters(filtered: string) returns (result: Result<seq<Byte>>)
    ensures result == DecodedLetters(filtered)
  {
    var decoded: seq<Byte> := [];
    var accumulator: bv32 := 0;
    var bits := 0;
    ghost var values: seq<Six> := [];
    ghost var pending := Pending0;
    for k := 0 to |filtered|
      invariant |values| == k && forall j :: 0 <= j < k ==> Carries(filtered[j], values[j])
      invariant bits == Count(pending) && LowBits(accumulator, pending)
      invariant Accounted(values, Eights(decoded), pending)
    {
      var character := filtered[k];
      var value := Base64Value(character);
      if value < 0 {
        assert !IsLetter(filtered[k]);
        return Err(INVALID);
      }
      ghost var v := SixOf(value as bv32);
      var more;
      ReadLetter(values, Eights(decoded), pending, v);
      accumulator, bits, more := Accumulate(accumulator, bits, value as bv32, pending);
      EightsConcat(decoded, more);
      decoded := decoded + more;
      pending := After(pending, v);
      values := values + [v];
    }
    Finish(filtered, values, decoded, pending);
    return Ok(decoded);
  }

  ghost predicate Carries(c: char, v: Six) {
    IsLetter(c) && LetterValue(c) == v
  }

  lemma {:induction false} EightsConcat(data: seq<Byte>, more: seq<Byte>)
    ensures Eights(data + more) == Eights(data) + Eights(more)
    ensures more == [] ==> Eights(data + more) == Eights(data)
  {
    assert more == [] ==> data + more == data;
  }

  lemma {:induction false} Finish(filtered: string, values: seq<Six>, decoded: seq<Byte>, p: Pending)
    requires |values| == |filtered| && forall j :: 0 <= j < |values| ==> Carries(filtered[j], values[j])
    requires Accounted(values, Eights(decoded), p)
    ensures DecodedLetters(filtered) == Ok(decoded)
  {
    assert values == Values(filtered);
    CutEightsAfter(Eights(decoded), PendingThen(p, End));
    assert CutEights(PendingThen(p, End)) == [];
    assert Eights(decoded) + [] == Eights(decoded);
    BytesOfEights(decoded);
  }

  /** The bits read and not yet written: none, or the last two, four or six of the last letter. */
  datatype Pending = Pending0 | Pending2(v: Six) | Pending4(v: Six) | Pending6(v: Six)

  function Count(p: Pending): nat {
    match p
    case Pending0 => 0
    case Pending2(_) => 2
    case Pending4(_) => 4
    case Pending6(_) => 6
  }

  function PendingThen(p: Pending, others: Bits): Bits {
    match p
    case Pending0 => others
    case Pending2(v) => Bit(v.b4, Bit(v.b5, others))
    case Pending4(v) => Bit(v.b2, Bit(v.b3, Bit(v.b4, Bit(v.b5, others))))
    case Pending6(v) => SixThen(v, others)
  }

  function After(p: Pending, v: Six): Pending {
    match p
    case Pending0 => Pending6(v)
    case Pending2(_) => Pending0
    case Pending4(_) => Pending2(v)
    case Pending6(_) => Pending4(v)
  }

  /** The byte that the pending bits make with the leading bits of the next letter. */
  function Joined(p: Pending, v: Six): Eight
    requires !p.Pending0?
  {
    match p
    case Pending2(u) => Eight(u.b4, u.b5, v.b0, v.b1, v.b2, v.b3, v.b4, v.b5)
    case Pending4(u) => Eight(u.b2, u.b3, u.b4, u.b5, v.b0, v.b1, v.b2, v.b3)
    case Pending6(u) => Eight(u.b0, u.b1, u.b2, u.b3, u.b4, u.b5, v.b0, v.b1)
  }

  /** The low bits of the accumulator are the pending ones. */
  predicate LowBits(accumulator: bv32, p: Pending) {
    var low := SixOf(accumulator);
    match p
    case Pending0 => true
    case Pending2(v) => low.b4 == v.b4 && low.b5 == v.b5
    case Pending4(v) => low.b2 == v.b2 && low.b3 == v.b3 && low.b4 == v.b4 && low.b5 == v.b5
    case Pending6(v) => low == v
  }

  /** One round of the decoding loop. The accumulator is never masked and wraps; its low bits, the only ones used, do not notice. */
  method Accumulate(accumulator: bv32, bits: nat, value: bv32, ghost p: Pending)
    returns (accumulator': bv32, bits': nat, more: seq<Byte>)
    requires bits == Count(p) && LowBits(accumulator, p) && value < 64
    ensures bits' == Count(After(p, SixOf(value))) && LowBits(accumulator', After(p, SixOf(value)))
    ensures Eights(more) == if p.Pending0? then [] else [Joined(p, SixOf(value))]
  {
    accumulator' := (accumulator << 6) | value;
    bits' := bits + 6;
    more := [];
    ShiftedIn(accumulator, value, p);
    if bits' >= 8 {
      bits' := bits' - 8;
      more := [((accumulator' >> bits') & 0xFF) as bv8];
    }
  }

  lemma ShiftedIn(accumulator: bv32, value: bv32, p: Pending)
    requires LowBits(accumulator, p) && value < 64
    ensures var next := (accumulator << 6) | value;
            && LowBits(next, After(p, SixOf(value)))
            && (p.Pending6? ==> EightOf(((next >> 4) & 0xFF) as bv8) == Joined(p, SixOf(value)))
            && (p.Pending4? ==> EightOf(((next >> 2) & 0xFF) as bv8) == Joined(p, SixOf(value)))
            && (p.Pending2? ==> EightOf((next & 0xFF) as bv8) == Joined(p, SixOf(value)))
  {
    ShiftedBy(accumulator, value);
    ShiftedBy4(accumulator, value);
    ShiftedBy2(accumulator, value);
    ShiftedBy0(accumulator, value);
  }

  lemma ShiftedBy(accumulator: bv32, value: bv32)
    requires value < 64
    ensures SixOf((accumulator << 6) | value) == SixOf(value)
  {
  }

  lemma ShiftedBy4(accumulator: bv32, value: bv32)
    requires value < 64
    ensures var x := ((((accumulator << 6) | value) >> 4) & 0xFF) as bv8;
            && (x & 0x80 != 0) == (accumulator & 0x20 != 0) && (x & 0x40 != 0) == (accumulator & 0x10 != 0)
            && (x & 0x20 != 0) == (accumulator & 0x08 != 0) && (x & 0x10 != 0) == (accumulator & 0x04 != 0)
            && (x & 0x08 != 0) == (accumulator & 0x02 != 0) && (x & 0x04 != 0) == (accumulator & 0x01 != 0)
            && (x & 0x02 != 0) == (value & 0x20 != 0) && (x & 0x01 != 0) == (value & 0x10 != 0)
  {
  }

  lemma ShiftedBy2(accumulator: bv32, value: bv32)
    requires value < 64
    ensures var x := ((((accumulator << 6) | value) >> 2) & 0xFF) as bv8;
            && (x & 0x80 != 0) == (accumulator & 0x08 != 0) && (x & 0x40 != 0) == (accumulator & 0x04 != 0)
            && (x & 0x20 != 0) == (accumulator & 0x02 != 0) && (x & 0x10 != 0) == (accumulator & 0x01 != 0)
            && (x & 0x08 != 0) == (value & 0x20 != 0) && (x & 0x04 != 0) == (value & 0x10 != 0)
            && (x & 0x02 != 0) == (value & 0x08 != 0) && (x & 0x01 != 0) == (value & 0x04 != 0)
  {
  }

  lemma ShiftedBy0(accumulator: bv32, value: bv32)
    requires value < 64
    ensures var x := (((accumulator << 6) | value) & 0xFF) as bv8;
            && (x & 0x80 != 0) == (accumulator & 0x02 != 0) && (x & 0x40 != 0) == (accumulator & 0x01 != 0)
            && (x & 0x20 != 0) == (value & 0x20 != 0) && (x & 0x10 != 0) == (value & 0x10 != 0)
            && (x & 0x08 != 0) == (value & 0x08 != 0) && (x & 0x04 != 0) == (value & 0x04 != 0)
            && (x & 0x02 != 0) == (value & 0x02 != 0) && (x & 0x01 != 0) == (value & 0x01 != 0)
  {
  }

  /** The bits of the letters read are those of the bytes written, and then the pending ones. */
  ghost predicate Accounted(values: seq<Six>, decoded: seq<Eight>, p: Pending) {
    forall others :: SixesThen(values, others) == EightsThen(decoded, PendingThen(p, others))
  }

  lemma {:induction false} ReadLetter(values: seq<Six>, decoded: seq<Eight>, p: Pending, v: Six)
    requires Accounted(values, decoded, p)
    ensures Accounted(values + [v], if p.Pending0? then decoded else decoded + [Joined(p, v)], After(p, v))
  {
    forall others
      ensures SixesThen(values + [v], others) ==
              EightsThen(if p.Pending0? then decoded else decoded + [Joined(p, v)], PendingThen(After(p, v), others))
    {
      SixesAppend(values, v, others);
      if !p.Pending0? {
        EightsAppend(decoded, Joined(p, v), PendingThen(After(p, v), others));
      }
    }
  }

  lemma BytesOfEights(data: seq<Byte>)
    ensures Bytes(Eights(data)) == data
  {
    forall j | 0 <= j < |data|
      ensures ByteOf(EightOf(data[j])) == data[j]
    {
      ByteOfEight(data[j]);
    }
  }

  lemma MaskedNumber(word: bv32)
    ensures (word & 63) as int == Number(SixOf(word))
  {
    var v := (word & 63) as bv6;
    assert (word & 63) as int == v as int;
  }

  lemma ByteOfEight(x: Byte)
    ensures ByteOf(EightOf(x)) == x
  {
  }

  lemma TableInverse(n: nat)
    requires n < 64
    ensures Base64Value(TABLE[n]) == n && Base64Value(UrlLetter(TABLE[n])) == n
  {
    assert |TABLE| == 64;
  }

  lemma LetterInverse(v: Six)
    ensures IsLetter(Letter(v)) && LetterValue(Letter(v)) == v
    ensures IsLetter(UrlLetter(Letter(v))) && LetterValue(UrlLetter(Letter(v))) == v
  {
    TableInverse(Number(v));
    NumberBits(v);
  }

  lemma NumberBits(v: Six)
    ensures SixOf(Number(v) as bv32) == v
  {
    var word: bv32 :=
      (if v.b0 then 0x20 else 0) | (if v.b1 then 0x10 else 0) | (if v.b2 then 0x08 else 0) |
      (if v.b3 then 0x04 else 0) | (if v.b4 then 0x02 else 0) | (if v.b5 then 0x01 else 0);
    assert SixOf(word) == v && word & 63 == word;
    MaskedNumber(word);
  }

  // ----- the round trip -----

  lemma LettersAreLetters(values: seq<Six>)
    ensures var letters := Letters(values);
            && AllLetters(letters) && Values(letters) == values
            && forall j :: 0 <= j < |letters| ==> UrlLetter(letters[j]) != '=' && letters[j] != '='
  {
    forall j | 0 <= j < |values|
      ensures var c := Letters(values)[j];
              && IsLetter(c) && LetterValue(c) == values[j] && IsLetter(UrlLetter(c))
    {
      LetterInverse(values[j]);
    }
  }

  function Append(bits: Bits, others: Bits): Bits {
    if bits.End? then others else Bit(bits.first, Append(bits.rest, others))
  }

  function Size(bits: Bits): nat {
    if bits.End? then 0 else 1 + Size(bits.rest)
  }

  /** Cutting into groups of six only adds bits, fewer than six, at the end. */
  lemma {:induction false} CutSixesKeeps(bits: Bits) returns (filling: Bits)
    ensures SixesThen(CutSixes(bits), End) == Append(bits, filling) && Size(filling) < 6
  {
    match bits
    case End =>
      filling := End;
    case Bit(b0, Bit(b1, Bit(b2, Bit(b3, Bit(b4, Bit(b5, others)))))) =>
      filling := CutSixesKeeps(others);
      var v := Six(b0, b1, b2, b3, b4, b5);
      assert ([v] + CutSixes(others))[1..] == CutSixes(others);
      AppendSix(v, others, filling);
    case _ =>
      filling := FillSix(bits, CutSixes(bits)[0]);
  }

  lemma AppendSix(v: Six, others: Bits, more: Bits)
    ensures Append(SixThen(v, others), more) == SixThen(v, Append(others, more))
  {
    var last := Bit(v.b4, Bit(v.b5, others));
    assert Append(last, more) == Bit(v.b4, Bit(v.b5, Append(others, more)));
    assert Append(Bit(v.b2, Bit(v.b3, last)), more) == Bit(v.b2, Bit(v.b3, Append(last, more)));
  }

  /** What a group of fewer than six bits is filled up with. */
  lemma {:induction false} FillSix(bits: Bits, v: Six) returns (filling: Bits)
    requires bits.Bit? && CutSixes(bits) == [v]
    requires bits.rest.End? || bits.rest.rest.End? || bits.rest.rest.rest.End? || bits.rest.rest.rest.rest.End? ||
             bits.rest.rest.rest.rest.rest.End?
    ensures SixesThen([v], End) == Append(bits, filling) && Size(filling) < 6
  {
    var f1 := Bit(false, End);
    var f2 := Bit(false, f1);
    var f3 := Bit(false, f2);
    var f4 := Bit(false, f3);
    filling := End;
    assert SixesThen([v], End) == SixThen(v, End);
    assert Size(f2) == 2 && Size(f4) == 4;
    match bits
    case Bit(_, End) =>
      filling := Bit(false, f4);
    case Bit(_, Bit(_, End)) =>
      filling := f4;
    case Bit(_, Bit(_, Bit(_, End))) =>
      filling := f3;
      assert Append(bits.rest, filling) == Bit(bits.rest.first, Bit(bits.rest.rest.first, filling));
    case Bit(_, Bit(_, Bit(_, Bit(_, End)))) =>
      filling := f2;
      assert Append(bits.rest.rest, filling) == Bit(bits.rest.rest.first, Bit(bits.rest.rest.rest.first, filling));
    case Bit(_, Bit(_, Bit(_, Bit(_, Bit(_, End))))) =>
      filling := f1;
      assert Append(bits.rest.rest.rest, filling) ==
             Bit(bits.rest.rest.rest.first, Bit(bits.rest.rest.rest.rest.first, filling));
      assert Append(bits.rest, filling) ==
             Bit(bits.rest.first, Bit(bits.rest.rest.first, Append(bits.rest.rest.rest, filling)));
    case _ =>
  }

  lemma {:induction false} AppendEights(data: seq<Eight>, others: Bits)
    ensures Append(EightsThen(data, End), others) == EightsThen(data, others)
  {
    if data != [] {
      AppendEights(data[1..], others);
      AppendEight(data[0], EightsThen(data[1..], End), others);
    }
  }

  lemma AppendEight(x: Eight, others: Bits, more: Bits)
    ensures Append(EightThen(x, others), more) == EightThen(x, Append(others, more))
  {
    var last := Bit(x.b6, Bit(x.b7, others));
    assert Append(last, more) == Bit(x.b6, Bit(x.b7, Append(others, more)));
    AppendSix(Six(x.b0, x.b1, x.b2, x.b3, x.b4, x.b5), last, more);
  }

  lemma {:induction false} SextetsHoldTheBytes(data: seq<Byte>)
    ensures Bytes(CutEights(SixesThen(Sextets(data), End))) == data
  {
    var eights := Eights(data);
    var filling := CutSixesKeeps(EightsThen(eights, End));
    AppendEights(eights, filling);
    CutEightsAfter(eights, filling);
    ShortOfAByte(filling);
    assert eights + [] == eights;
    BytesOfEights(data);
  }

  lemma {:induction false} ShortOfAByte(bits: Bits)
    ensures CutEights(bits) != [] ==> Size(bits) >= 6
  {
    match bits
    case Bit(_, Bit(_, Bit(_, Bit(_, Bit(_, Bit(_, _)))))) =>
      assert Size(bits) == 2 + Size(bits.rest.rest) && Size(bits.rest.rest) == 2 + Size(bits.rest.rest.rest.rest);
    case _ =>
  }

  lemma {:induction false} SqueezedOfLetters(s: string)
    requires forall i :: 0 <= i < |s| ==> IsLetter(s[i]) || s[i] == '='
    ensures Squeezed(s) == s
  {
    if s != "" {
      SqueezedOfLetters(s[..|s| - 1]);
    }
  }

  /** Squeezing keeps every other character, in its place among the others. */
  lemma {:induction false} SqueezedKeeps(text: string, i: nat)
    requires i < |text| && !IsSpace(text[i])
    ensures |Squeezed(text[..i])| < |Squeezed(text)| && Squeezed(text)[|Squeezed(text[..i])|] == text[i]
  {
    var front := text[..|text| - 1];
    if i < |front| {
      assert front[..i] == text[..i];
      SqueezedKeeps(front, i);
    }
  }

  lemma {:induction false} TrimmedPadding(letters: string, pad: string)
    requires AllLetters(letters) && (pad == "" || pad == "=" || pad == "==")
    ensures Trimmed(letters + pad) == letters
    decreases |pad|
  {
    if pad == "" {
      assert letters + pad == letters;
      assert letters != "" ==> IsLetter(letters[|letters| - 1]);
    } else {
      TrimmedPadding(letters, pad[1..]);
      TrimOne(letters + pad[1..]);
      assert letters + pad == letters + pad[1..] + "=";
    }
  }

  lemma TrimOne(s: string)
    ensures Trimmed(s + "=") == Trimmed(s)
  {
    assert (s + "=")[..|s|] == s;
  }

  /** The bytes come back from any text that is, white space apart, their letters in either alphabet and a padding. */
  lemma {:induction false} DecodesTo(text: string, letters: string, pad: string, data: seq<Byte>)
    requires Squeezed(text) == letters + pad && (pad == "" || pad == "=" || pad == "==")
    requires AllLetters(letters) && Values(letters) == Sextets(data)
    ensures Decoded(text) == Ok(data)
  {
    TrimmedPadding(letters, pad);
    forall i | 0 <= i < |text|
      ensures Acceptable(text[i])
    {
      if !IsSpace(text[i]) {
        SqueezedKeeps(text, i);
      }
    }
    SextetsHoldTheBytes(data);
  }

  /** Decoding undoes encoding, wherever white space has been put into the text. */
  lemma RoundTripThroughWhitespace(data: seq<Byte>, text: string)
    requires Squeezed(text) == Encoded(data)
    ensures Decoded(text) == Ok(data)
  {
    LettersAreLetters(Sextets(data));
    DecodesTo(text, Letters(Sextets(data)), Padding(|data|), data);
  }

  lemma RoundTrip(data: seq<Byte>)
    ensures Decoded(Encoded(data)) == Ok(data)
  {
    LettersAreLetters(Sextets(data));
    SqueezedOfLetters(Encoded(data));
    RoundTripThroughWhitespace(data, Encoded(data));
  }

  /** The same for the padding left out, and for the URL-safe alphabet. */
  lemma RoundTripUnpaddedAndUrl(data: seq<Byte>)
    ensures Decoded(Letters(Sextets(data))) == Ok(data)
    ensures Decoded(UrlEncoded(data)) == Ok(data)
  {
    var values := Sextets(data);
    var letters, url := Letters(values), UrlEncoded(data);
    LettersAreLetters(values);
    SqueezedOfLetters(letters);
    assert letters + "" == letters;
    DecodesTo(letters, letters, "", data);
    forall j | 0 <= j < |url|
      ensures IsLetter(url[j]) && LetterValue(url[j]) == values[j]
    {
      LetterInverse(values[j]);
    }
    assert Values(url) == values;
    SqueezedOfLetters(url);
    assert url + "" == url;
    DecodesTo(url, url, "", data);
  }

  /** No two byte sequences share an encoding. */
  lemma {:induction false} EncodingInjective(a: seq<Byte>, b: seq<Byte>)
    ensures Encoded(a) == Encoded(b) || UrlEncoded(a) == UrlEncoded(b) ==> a == b
  {
    RoundTrip(a);
    RoundTrip(b);
    RoundTripUnpaddedAndUrl(a);
    RoundTripUnpaddedAndUrl(b);
  }

  lemma {:induction false} SizeOfEights(data: seq<Eight>)
    ensures Size(EightsThen(data, End)) == 8 * |data|
  {
    if data != [] {
      SizeOfEights(data[1..]);
      var x, others := data[0], EightsThen(data[1..], End);
      var last := Bit(x.b6, Bit(x.b7, others));
      var half := Bit(x.b4, Bit(x.b5, last));
      assert Size(last) == 2 + Size(others) && Size(half) == 2 + Size(last);
      assert Size(Bit(x.b2, Bit(x.b3, half))) == 2 + Size(half);
    }
  }

  lemma {:induction false} CountOfSixes(bits: Bits)
    ensures |CutSixes(bits)| == (Size(bits) + 5) / 6
  {
    match bits
    case Bit(b0, Bit(b1, Bit(b2, Bit(b3, Bit(b4, Bit(b5, others)))))) =>
      CountOfSixes(others);
      assert Size(bits) == 2 + Size(bits.rest.rest) == 4 + Size(bits.rest.rest.rest.rest);
    case _ =>
  }

  lemma PaddingLength(n: nat)
    ensures |Padding(n)| == (3 - n % 3) % 3
  {
  }

  lemma EncodedLength(data: seq<Byte>)
    ensures |Encoded(data)| == 4 * ((|data| + 2) / 3)
  {
    hide CutSixes, EightsThen, Eights, Size, Letters, Padding;
    PaddingLength(|data|);
    SizeOfEights(Eights(data));
    CountOfSixes(EightsThen(Eights(data), End));
  }

  lemma {:induction false} LettersWithoutPadding(text: string)
    requires forall i :: 0 <= i < |text| ==> Acceptable(text[i])
    ensures AllLetters(Squeezed(text)) <==> '=' !in text
  {
    if text != "" {
      var front, c := text[..|text| - 1], text[|text| - 1];
      LettersWithoutPadding(front);
      assert text == front + [c];
      if !IsSpace(c) {
        assert Squeezed(text)[..|Squeezed(text)| - 1] == Squeezed(front);
      }
    }
  }

  ghost predicate PaddingInside(text: string) {
    exists i, j :: 0 <= i < j < |text| && text[i] == '=' && IsLetter(text[j])
  }

  /** After trimming, an '=' is left exactly when a letter follows one. */
  lemma {:induction false} LettersUnlessPaddingInside(text: string)
    requires forall i :: 0 <= i < |text| ==> Acceptable(text[i])
    ensures AllLetters(Trimmed(Squeezed(text))) <==> !PaddingInside(text)
  {
    hide Squeezed, Trimmed, IsLetter, AllLetters, PaddingInside, IsSpace;
    if text == "" {
      NothingToTrim();
    } else {
      var front, c := text[..|text| - 1], text[|text| - 1];
      assert text == front + [c];
      LettersUnlessPaddingInside(front);
      if IsLetter(c) {
        LettersWithoutPadding(text);
        EndsWithLetter(front, c);
      } else {
        EndsWithoutLetter(front, c);
      }
    }
  }

  lemma NothingToTrim()
    ensures AllLetters(Trimmed(Squeezed(""))) && !PaddingInside("")
  {
  }

  lemma {:induction false} EndsWithLetter(front: string, c: char)
    requires IsLetter(c)
    ensures Trimmed(Squeezed(front + [c])) == Squeezed(front + [c])
    ensures PaddingInside(front + [c]) <==> '=' in front + [c]
  {
    var text := front + [c];
    assert text[..|front|] == front;
    if '=' in text {
      var i :| 0 <= i < |text| && text[i] == '=';
      assert i < |front| && text[|front|] == c;
    }
  }

  lemma {:induction false} EndsWithoutLetter(front: string, c: char)
    requires !IsLetter(c) && Acceptable(c)
    ensures Trimmed(Squeezed(front + [c])) == Trimmed(Squeezed(front))
    ensures PaddingInside(front + [c]) <==> PaddingInside(front)
  {
    var text := front + [c];
    assert text[..|front|] == front;
    if c == '=' {
      TrimOne(Squeezed(front));
    }
    if PaddingInside(front) {
      var i, j :| 0 <= i < j < |front| && front[i] == '=' && IsLetter(front[j]);
      assert text[i] == '=' && IsLetter(text[j]);
    }
    if PaddingInside(text) {
      var i, j :| 0 <= i < j < |text| && text[i] == '=' && IsLetter(text[j]);
      assert front[i] == '=' && IsLetter(front[j]);
    }
  }

  /** Decoding fails exactly on a foreign character, or on '=' with a letter somewhere after it. */
  lemma {:induction false} FailsExactlyOn(text: string)
    ensures Decoded(text).Err? <==>
            || (exists i :: 0 <= i < |text| && !('A' <= text[i] <= 'Z' || 'a' <= text[i] <= 'z' || '0' <= text[i] <= '9' ||
                                                 text[i] in "+/-_= \n\r\t"))
            || exists i, j :: 0 <= i < j < |text| && text[i] == '=' && text[j] !in "= \n\r\t"
  {
    forall i | 0 <= i < |text| {
      Foreign(text[i]);
    }
    hide *;
    FailsOn(text);
  }

  lemma Foreign(c: char)
    ensures Acceptable(c) <==> 'A' <= c <= 'Z' || 'a' <= c <= 'z' || '0' <= c <= '9' || c in "+/-_= \n\r\t"
    ensures Acceptable(c) ==> (IsLetter(c) <==> c !in "= \n\r\t")
  {
  }

  lemma {:induction false} FailsOn(text: string)
    ensures Decoded(text).Err? <==>
            || (exists i :: 0 <= i < |text| && !Acceptable(text[i]))
            || exists i, j :: 0 <= i < j < |text| && text[i] == '=' && IsLetter(text[j])
  {
    if forall i :: 0 <= i < |text| ==> Acceptable(text[i]) {
      LettersUnlessPaddingInside(text);
    }
  }

  lemma {:induction false} TrimmedRest(s: string)
    ensures forall i :: |Trimmed(s)| <= i < |s| ==> s[i] == '='
    ensures Trimmed(s) != "" ==> Trimmed(s)[|Trimmed(s)| - 1] != '='
  {
    if s != "" && s[|s| - 1] == '=' {
      TrimmedRest(s[..|s| - 1]);
    }
  }

  lemma {:induction false} FewBits(values: seq<Six>)
    ensures CutEights(SixesThen(values, End)) == [] <==> |values| < 2
  {
    if |values| >= 2 {
      assert SixesThen(values, End) == SixThen(values[0], SixThen(values[1], SixesThen(values[1..][1..], End)));
    } else if |values| == 1 {
      assert SixesThen(values, End) == SixThen(values[0], End);
    }
  }

  /** Letters with '=' signs only at the end are decoded, and to nothing at all when there are fewer than two letters. */
  lemma {:induction false} DecodesToNothing(text: string)
    requires forall i :: 0 <= i < |text| ==>
               if text[i] == '=' then forall j :: i <= j < |text| ==> text[j] == '=' else IsLetter(text[i])
    ensures Decoded(text).Ok? && (Decoded(text).value == [] <==> |text| < 2 || text[1] == '=')
  {
    SqueezedOfLetters(text);
    TrimmedRest(text);
    var letters := Trimmed(text);
    hide Trimmed, Squeezed, IsLetter, IsSpace, CutEights, SixesThen;
    assert AllLetters(letters);
    FewBits(Values(letters));
  }

  // ----- the encoding in numbers -----

  /** The table of RFC 4648: capital letters, small letters, digits, '+' and '/'. */
  lemma TheAlphabet(n: nat)
    requires n < 64
    ensures TABLE[n] as int ==
            if n < 26 then 65 + n else if n < 52 then 97 + n - 26 else if n < 62 then 48 + n - 52 else if n == 62 then 43 else 47
  {
    assert |TABLE| == 64;
  }

  /** The letter of the last six bits of a word. */
  function Lookup(word: bv32): char {
    MaskedNumber(word);
    TABLE[(word & 63) as int]
  }

  lemma LookedUp(word: bv32)
    ensures Lookup(word) == Letter(SixOf(word))
  {
    MaskedNumber(word);
  }

  /** Three bytes are a word of 24 bits, and each six of them an index into the table. */
  lemma GroupLetters(a: Byte, b: Byte, c: Byte, word: bv32, first: bv32, second: bv32, third: bv32)
    requires word == ((a as bv32) << 16) | ((b as bv32) << 8) | (c as bv32)
    requires first == word >> 18 && second == word >> 12 && third == word >> 6
    ensures Letter(FirstSix(EightOf(a))) == Lookup(first) && Letter(SecondSix(EightOf(a), EightOf(b))) == Lookup(second)
    ensures Letter(ThirdSix(EightOf(b), EightOf(c))) == Lookup(third) && Letter(FourthSix(EightOf(c))) == Lookup(word)
  {
    hide *;
    CutWord(a, b, c);
    LookedUp(first);
    LookedUp(second);
    LookedUp(third);
    LookedUp(word);
  }

  /** The encoding of whole groups, and of the one or two bytes at the end, which are filled up with zeros. */
  lemma {:induction false} EncodedByGroups(data: seq<Byte>, a: Byte, b: Byte, c: Byte, word: bv32)
    requires a == if |data| > 0 then data[0] else 0
    requires b == if |data| > 1 then data[1] else 0
    requires c == if |data| > 2 then data[2] else 0
    requires word == ((a as bv32) << 16) | ((b as bv32) << 8) | (c as bv32)
    ensures var c0, c1, c2, c3 := Lookup(word >> 18), Lookup(word >> 12), Lookup(word >> 6), Lookup(word);
            Encoded(data) ==
            if |data| == 0 then ""
            else if |data| == 1 then [c0, c1, '=', '=']
            else if |data| == 2 then [c0, c1, c2, '=']
            else [c0, c1, c2, c3] + Encoded(data[3..])
  {
    hide *;
    GroupLetters(a, b, c, word, word >> 18, word >> 12, word >> 6);
    SplitGroups(data, a, b, c);
  }

  lemma {:induction false} SplitGroups(data: seq<Byte>, a: Byte, b: Byte, c: Byte)
    requires a == if |data| > 0 then data[0] else 0
    requires b == if |data| > 1 then data[1] else 0
    requires c == if |data| > 2 then data[2] else 0
    ensures var c0, c1 := Letter(FirstSix(EightOf(a))), Letter(SecondSix(EightOf(a), EightOf(b)));
            var c2, c3 := Letter(ThirdSix(EightOf(b), EightOf(c))), Letter(FourthSix(EightOf(c)));
            Encoded(data) ==
            if |data| == 0 then ""
            else if |data| == 1 then [c0, c1, '=', '=']
            else if |data| == 2 then [c0, c1, c2, '=']
            else [c0, c1, c2, c3] + Encoded(data[3..])
  {
    if |data| < 3 {
      ShortGroup(data);
      assert EightOf(0) == ZERO;
    } else {
      FirstGroup(data);
    }
  }

  lemma {:induction false} ShortGroup(data: seq<Byte>)
    requires |data| < 3
    ensures Encoded(data) == LastLetters(Eights(data))
  {
    hide *;
    var eights := Eights(data);
    NoSixes(EightsThen(eights, End));
    assert eights[0..] == eights;
    LastGroup([], data, 0);
    assert "" + LastLetters(eights) == LastLetters(eights);
  }

  lemma {:induction false} FirstGroup(data: seq<Byte>)
    requires |data| >= 3
    ensures var a, b, c := EightOf(data[0]), EightOf(data[1]), EightOf(data[2]);
            Encoded(data) == [Letter(FirstSix(a)), Letter(SecondSix(a, b)), Letter(ThirdSix(b, c)), Letter(FourthSix(c))] +
                             Encoded(data[3..])
  {
    var eights, rest := Eights(data), data[3..];
    assert eights[3..] == Eights(rest) && eights[0..] == eights;
    hide EightOf, Letters, Letter, FirstSix, SecondSix, ThirdSix, FourthSix, CutSixes, EightsThen, SixesThen;
    NoSixes(EightsThen(eights, End));
    var group := WholeGroup([], eights, 0);
    CutSixesAfter(group, EightsThen(eights[3..], End));
    LettersConcat(group, Sextets(rest));
    assert Letters(group) + Letters(Sextets(rest)) + Padding(|data|) == Letters(group) + (Letters(Sextets(rest)) + Padding(|rest|));
  }

  lemma NoSixes(bits: Bits)
    ensures SixesThen([], bits) == bits && Letters([]) == ""
  {
  }

  /** The URL-safe form is the encoding without its padding, with '-' for '+' and '_' for '/'. */
  lemma UrlForm(data: seq<Byte>)
    ensures var plain, url := Encoded(data), UrlEncoded(data);
            && |url| <= |plain| && (forall j :: |url| <= j < |plain| ==> plain[j] == '=')
            && forall j :: 0 <= j < |url| ==>
                 plain[j] != '=' && url[j] == if plain[j] == '+' then '-' else if plain[j] == '/' then '_' else plain[j]
  {
    LettersAreLetters(Sextets(data));
    hide Sextets, Letters;
  }
}
