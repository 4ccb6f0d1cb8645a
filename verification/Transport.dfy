/**
How the Pub/Sub and the SQS plugin put payloads and addresses on the wire. In SQS the letters are made by the
AWS SDK, which is taken to follow section 4 of RFC 4648 as Base64 does.
*/
module Transport {
  import opened Wrappers
  import Base64

  type Payload = seq<Base64.Byte>

  datatype Transport = PubSub | Sqs

  const MAX_PAYLOAD_BYTES := 10 * 1024 * 1024
  const MAX_ENCODED_BODY_BYTES := 1024 * 1024
  const PREFIX := "graftcode-base64:"

  /** The body that is sent, or the exception for one that is too long. */
  function Encode(transport: Transport, data: Payload): Result<string> {
    match transport
    case PubSub =>
      if |data| > MAX_PAYLOAD_BYTES then Err("Pub/Sub plugin: payload exceeds the 10 MiB Pub/Sub limit")
      else Ok(Base64.Encoded(data))
    case Sqs =>
      var encoded := PREFIX + Base64.Encoded(data);
      if |encoded| > MAX_ENCODED_BODY_BYTES then Err("SQS plugin: encoded payload exceeds the 1 MiB SQS limit")
      else Ok(encoded)
  }

  function Decode(transport: Transport, body: string): Result<Payload> {
    match transport
    case PubSub => Base64.Decoded(body)
    case Sqs =>
      if !(PREFIX <= body) then Err("SQS plugin: message body has an unsupported encoding")
      else
        var encoded := body[|PREFIX|..];
        if !IsValidBase64(encoded) then Err("SQS plugin: message body is not valid base64")
        else
          var data := Base64.Decoded(encoded);
          if encoded != "" && (data.Err? || data.value == []) then Err("SQS plugin: failed to decode message body")
          else data
  }

  predicate IsAlpha(c: char) {
    'A' <= c <= 'Z' || 'a' <= c <= 'z'
  }

  predicate IsAlnum(c: char) {
    IsAlpha(c) || '0' <= c <= '9'
  }

  /** Whole groups of four, with '=' signs only at the end. */
  predicate IsValidBase64(value: string) {
    && |value| % 4 == 0
    && forall i :: 0 <= i < |value| ==>
         if value[i] == '=' then forall j :: i <= j < |value| ==> value[j] == '='
         else IsAlnum(value[i]) || value[i] in "+/"
  }

  predicate IsValidResourceId(value: string) {
    && 3 <= |value| <= 255 && IsAlpha(value[0])
    && forall i :: 0 <= i < |value| ==> IsAlnum(value[i]) || value[i] in "-_."
  }

  /** The reply address that a server in RPC mode accepts. */
  predicate AddressAccepted(transport: Transport, replyTo: string) {
    match transport
    case PubSub => IsValidResourceId(replyTo)
    case Sqs => replyTo != ""
  }

  /** Whatever is accepted for sending arrives as the same bytes. */
  lemma WireRoundTrip(transport: Transport, data: Payload)
    requires Encode(transport, data).Ok?
    ensures Decode(transport, Encode(transport, data).value) == Ok(data)
  {
    hide Base64.Encoded, Base64.Decoded, IsValidBase64;
    Base64.RoundTrip(data);
    if transport == Sqs {
      EncodedIsValid(data);
      assert (PREFIX + Base64.Encoded(data))[|PREFIX|..] == Base64.Encoded(data);
      NothingFromNothing(data);
    }
  }

  /** Pub/Sub takes payloads of up to 10 MiB; an SQS body of 1 MiB holds the prefix and the letters of 786417 bytes. */
  lemma SendableExactly(transport: Transport, data: Payload)
    ensures Encode(transport, data).Ok? <==> |data| <= if transport.PubSub? then 10485760 else 786417
    ensures Encode(transport, data).Ok? ==>
              Encode(transport, data).value == (if transport.PubSub? then "" else "graftcode-base64:") + Base64.Encoded(data)
  {
    hide Base64.Encoded;
    Base64.EncodedLength(data);
    assert "" + Base64.Encoded(data) == Base64.Encoded(data);
  }

  /**
  A body that the SQS plugin accepts is the prefix and whole groups of letters with '=' signs only at the end, and has
  two letters at least if it has any character.
  */
  lemma SqsDecodesExactly(body: string)
    ensures Decode(Sqs, body).Ok? <==>
              && "graftcode-base64:" <= body && (|body| - 17) % 4 == 0
              && (forall i :: 17 <= i < |body| ==>
                    if body[i] == '=' then forall j :: i <= j < |body| ==> body[j] == '='
                    else 'A' <= body[i] <= 'Z' || 'a' <= body[i] <= 'z' || '0' <= body[i] <= '9' || body[i] in "+/")
              && (|body| == 17 || body[18] != '=')
  {
    hide Base64.Decoded;
    if PREFIX <= body {
      var text := body[|PREFIX|..];
      ShapeOfText(body, text);
      if IsValidBase64(text) {
        AlnumIsLetter(text);
        Base64.DecodesToNothing(text);
      }
    }
  }

  lemma ShapeOfText(body: string, text: string)
    requires |body| >= 17 && text == body[17..]
    ensures IsValidBase64(text) <==>
              && (|body| - 17) % 4 == 0
              && forall i :: 17 <= i < |body| ==>
                   if body[i] == '=' then forall j :: i <= j < |body| ==> body[j] == '='
                   else 'A' <= body[i] <= 'Z' || 'a' <= body[i] <= 'z' || '0' <= body[i] <= '9' || body[i] in "+/"
  {
    forall i {:trigger body[i]} | 17 <= i < |body| ensures body[i] == text[i - 17] {}
    forall i {:trigger text[i]} | 0 <= i < |text| ensures text[i] == body[i + 17] {}
  }

  lemma AlnumIsLetter(text: string)
    requires IsValidBase64(text)
    ensures forall i :: 0 <= i < |text| ==>
              if text[i] == '=' then forall j :: i <= j < |text| ==> text[j] == '=' else Base64.IsLetter(text[i])
  {
  }

  lemma NothingFromNothing(data: Payload)
    ensures Base64.Encoded(data) != "" ==> data != []
  {
    Base64.EncodedLength(data);
  }

  lemma EncodedIsValid(data: Payload)
    ensures IsValidBase64(Base64.Encoded(data))
  {
    Base64.EncodedLength(data);
    var letters, padding := Base64.Letters(Base64.Sextets(data)), Base64.Padding(|data|);
    assert Base64.Encoded(data) == letters + padding;
    hide Base64.Encoded, Base64.Letters, Base64.Sextets, Base64.Padding, IsAlnum;
    forall i | 0 <= i < |letters|
      ensures letters[i] != '=' && (IsAlnum(letters[i]) || letters[i] in "+/")
    {
      InAlphabet(Base64.Sextets(data), i);
    }
    OnlyPadding(|data|);
  }

  lemma InAlphabet(values: seq<Base64.Six>, i: nat)
    requires i < |values|
    ensures var c := Base64.Letters(values)[i]; c != '=' && (IsAlnum(c) || c in "+/")
  {
  }

  lemma OnlyPadding(n: nat)
    ensures forall i :: 0 <= i < |Base64.Padding(n)| ==> Base64.Padding(n)[i] == '='
  {
  }

  // ----- the two scans of the source -----

  method ScanBase64(value: string) returns (valid: bool)
    ensures valid == IsValidBase64(value)
    ensures valid <==>
              && |value| % 4 == 0
              && forall i :: 0 <= i < |value| ==>
                   if value[i] == '=' then forall j :: i <= j < |value| ==> value[j] == '='
                   else 'A' <= value[i] <= 'Z' || 'a' <= value[i] <= 'z' || '0' <= value[i] <= '9' || value[i] in "+/"
  {
    if value == "" {
      return true;
    }
    if |value| % 4 != 0 {
      return false;
    }
    var padding := false;
    for i := 0 to |value|
      invariant padding == exists j :: 0 <= j < i && value[j] == '='
      invariant forall j :: 0 <= j < i ==>
                  if value[j] == '=' then forall k :: j <= k < i ==> value[k] == '='
                  else IsAlnum(value[j]) || value[j] in "+/"
    {
      if value[i] == '=' {
        padding := true;
        continue;
      }
      if padding {
        return false;
      }
      if !(IsAlnum(value[i]) || value[i] == '+' || value[i] == '/') {
        return false;
      }
    }
    return true;
  }

  method ScanResourceId(value: string) returns (valid: bool)
    ensures valid == IsValidResourceId(value)
    ensures valid <==>
              && 3 <= |value| <= 255 && ('A' <= value[0] <= 'Z' || 'a' <= value[0] <= 'z')
              && forall i :: 0 <= i < |value| ==>
                   'A' <= value[i] <= 'Z' || 'a' <= value[i] <= 'z' || '0' <= value[i] <= '9' || value[i] in "-_."
  {
    if |value| < 3 || |value| > 255 {
      return false;
    }
    if !IsAlpha(value[0]) {
      return false;
    }
    for i := 0 to |value|
      invariant forall j :: 0 <= j < i ==> IsAlnum(value[j]) || value[j] in "-_."
    {
      if IsAlnum(value[i]) || value[i] == '-' || value[i] == '_' || value[i] == '.' {
        continue;
      }
      return false;
    }
    return true;
  }
}
