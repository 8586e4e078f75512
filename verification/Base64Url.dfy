/** Unpadded base64url, section 5 of RFC 4648. */
module Base64Url {
  import opened Common

  /** The character of a six-bit value. */
  function CharOf(value: nat): (c: char)
    requires value < 64
    ensures ValueOf(c) == Some(value)
  {
    if value < 26 then
      'A' + value as char
    else if value < 52 then
      'a' + (value - 26) as char
    else if value < 62 then
      '0' + (value - 52) as char
    else if value == 62 then
      '-'
    else
      '_'
  }

  function ValueOf(c: char): (value: Option<nat>)
    ensures value.Some? ==> value.value < 64
  {
    if 'A' <= c <= 'Z' then
      Some(c as int - 'A' as int)
    else if 'a' <= c <= 'z' then
      Some(c as int - 'a' as int + 26)
    else if '0' <= c <= '9' then
      Some(c as int - '0' as int + 52)
    else if c == '-' then
      Some(62)
    else if c == '_' then
      Some(63)
    else
      None
  }

  predicate IsEncoded(text: string) {
    forall i :: 0 <= i < |text| ==> ValueOf(text[i]).Some?
  }

  /** Four six-bit values, or the three bytes they make up. */
  datatype Sextets = Sextets(first: nat, second: nat, third: nat, fourth: nat) {
    predicate Valid() {
      first < 64 && second < 64 && third < 64 && fourth < 64
    }

    function Bytes(): seq<Byte>
      requires Valid()
    {
      [first * 4 + second / 16, second % 16 * 16 + third / 4, third % 4 * 64 + fourth]
    }

    function Text(): string
      requires Valid()
    {
      [CharOf(first), CharOf(second), CharOf(third), CharOf(fourth)]
    }
  }

  function SextetsOf(a: Byte, b: Byte, c: Byte): (sextets: Sextets)
    ensures sextets.Valid()
  {
    Sextets(a / 4, a % 4 * 16 + b / 16, b % 16 * 4 + c / 64, c % 64)
  }

  lemma SextetsMakeUpTheBytes(a: Byte, b: Byte, c: Byte)
    ensures SextetsOf(a, b, c).Bytes() == [a, b, c]
  {}

  lemma ZeroIsA(a: Byte, b: Byte)
    ensures SextetsOf(a, b, 0).fourth == 0 && SextetsOf(a, 0, 0).third == 0
  {}

  function EncodeGroup(a: Byte, b: Byte, c: Byte): string {
    SextetsOf(a, b, c).Text()
  }

  /** The three bytes of four characters. */
  function DecodeGroup(text: string): seq<Byte> {
    if |text| == 4 && IsEncoded(text) then
      Sextets(ValueOf(text[0]).value, ValueOf(text[1]).value, ValueOf(text[2]).value, ValueOf(text[3]).value).Bytes()
    else
      []
  }

  /** How groups of three bytes and four characters stand for each other. */
  datatype Grouping = Grouping(encode: (Byte, Byte, Byte) -> string, decode: string -> seq<Byte>) {

    /** Four characters stand for these bytes; the ones that hold nothing are `A`. */
    predicate StandsFor(a: Byte, b: Byte, c: Byte) {
      var group := encode(a, b, c);
      && |group| == 4 && IsEncoded(group) && decode(group) == [a, b, c]
      && (c == 0 ==> group[3] == 'A')
      && (b == 0 && c == 0 ==> group[2] == 'A')
    }

    ghost predicate IsFaithful() {
      forall a: Byte, b: Byte, c: Byte :: StandsFor(a, b, c)
    }

    /** `base64.urlsafe_b64encode(bytes)` without its padding: the last group loses the characters that hold nothing. */
    function Encode(bytes: seq<Byte>): string {
      if |bytes| == 0 then
        ""
      else if |bytes| == 1 then
        Take(encode(bytes[0], 0, 0), 2)
      else if |bytes| == 2 then
        Take(encode(bytes[0], bytes[1], 0), 3)
      else
        encode(bytes[0], bytes[1], bytes[2]) + Encode(bytes[3..])
    }

    /** Padding and decoding a text of the alphabet: a single character over is an error, spare bits are dropped. */
    function Decode(text: string): Option<seq<Byte>> {
      if text == "" then
        Some([])
      else if |text| == 1 then
        None
      else if |text| == 2 then
        Some(Take(decode(text + "AA"), 1))
      else if |text| == 3 then
        Some(Take(decode(text + "A"), 2))
      else
        match Decode(text[4..])
        case None => None
        case Some(rest) => Some(decode(text[..4]) + rest)
    }

    lemma {:induction false} EncodesIntoTheAlphabet(bytes: seq<Byte>)
      requires IsFaithful()
      ensures IsEncoded(Encode(bytes))
    {
      if |bytes| > 2 {
        EncodesIntoTheAlphabet(bytes[3..]);
        assert StandsFor(bytes[0], bytes[1], bytes[2]);
      } else if |bytes| > 0 {
        assert StandsFor(bytes[0], if |bytes| == 2 then bytes[1] else 0, 0);
      }
    }

    /** Decoding undoes encoding, on all byte strings. */
    lemma {:induction false} RoundTrip(bytes: seq<Byte>)
      requires IsFaithful()
      ensures Decode(Encode(bytes)) == Some(bytes)
    {
      if |bytes| == 1 {
        var group := encode(bytes[0], 0, 0);
        assert StandsFor(bytes[0], 0, 0);
        assert group[..2] + "AA" == group && Encode(bytes) == group[..2];
        assert [bytes[0], 0, 0][..1] == bytes;
      } else if |bytes| == 2 {
        var group := encode(bytes[0], bytes[1], 0);
        assert StandsFor(bytes[0], bytes[1], 0);
        assert group[..3] + "A" == group && Encode(bytes) == group[..3];
        assert [bytes[0], bytes[1], 0][..2] == bytes;
      } else if |bytes| > 2 {
        RoundTrip(bytes[3..]);
        var group, rest := encode(bytes[0], bytes[1], bytes[2]), Encode(bytes[3..]);
        assert StandsFor(bytes[0], bytes[1], bytes[2]);
        assert (group + rest)[..4] == group && (group + rest)[4..] == rest;
        assert bytes == [bytes[0], bytes[1], bytes[2]] + bytes[3..];
      }
    }
  }

  function Take<T>(items: seq<T>, n: nat): seq<T> {
    if n <= |items| then items[..n] else items
  }

  const GROUPING := Grouping(EncodeGroup, DecodeGroup)

  lemma TextRoundTrip(sextets: Sextets)
    requires sextets.Valid()
    ensures IsEncoded(sextets.Text()) && DecodeGroup(sextets.Text()) == sextets.Bytes()
  {}

  lemma GroupRoundTrip(a: Byte, b: Byte, c: Byte)
    ensures GROUPING.StandsFor(a, b, c)
  {
    TextRoundTrip(SextetsOf(a, b, c));
    SextetsMakeUpTheBytes(a, b, c);
    ZeroIsA(a, b);
  }

  lemma GroupingIsFaithful()
    ensures GROUPING.IsFaithful()
  {
    forall a: Byte, b: Byte, c: Byte
      ensures GROUPING.StandsFor(a, b, c)
    {
      GroupRoundTrip(a, b, c);
    }
  }

  function Encode(bytes: seq<Byte>): (text: string)
    ensures IsEncoded(text)
  {
    GroupingIsFaithful();
    GROUPING.EncodesIntoTheAlphabet(bytes);
    GROUPING.Encode(bytes)
  }

  function Decode(text: string): Option<seq<Byte>> {
    GROUPING.Decode(text)
  }

  /** Decoding undoes encoding, on all byte strings. */
  lemma RoundTrip(bytes: seq<Byte>)
    ensures Decode(Encode(bytes)) == Some(bytes)
  {
    GroupingIsFaithful();
    GROUPING.RoundTrip(bytes);
  }

  /** Encoded text is free of dots. */
  lemma NoDots(text: string)
    requires IsEncoded(text)
    ensures '.' !in text
  {}

  /** Different byte strings have different encodings. */
  lemma EncodingIsInjective(one: seq<Byte>, other: seq<Byte>)
    requires Encode(one) == Encode(other)
    ensures one == other
  {
    RoundTrip(one);
    RoundTrip(other);
  }

  /** Nothing is encoded as the empty text but nothing. */
  lemma NotEmpty(bytes: seq<Byte>)
    requires bytes != []
    ensures Encode(bytes) != ""
  {}
}
