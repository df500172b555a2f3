/** What counts as a PIN's text: UTF-8, NFC-normalised, NUL-free when it is to be stored
    (src/ctap2_client_pin.rs). `nfc` stands for the Unicode normalisation tables. */
module PinText {
  import opened Bytes
  import opened Results
  import Utf8

  const MAX_PIN_BYTES: nat := 63

  /** The octets a PIN entry is authenticated with. */
  function NormalizePin(nfc: string -> string, pin: bytes): bytes {
    match Utf8.Decode(pin)
    case Some(text) => Utf8.Encode(nfc(text))
    case None => pin
  }

  function ValidateNewPin(nfc: string -> string, pin: bytes, minLength: nat): Result<string> {
    match Utf8.Decode(pin)
    case None => Err(Pin(InvalidEncoding))
    case Some(text) =>
      var normalized := nfc(text);
      if '\0' in normalized then Err(Pin(InvalidEncoding))
      else if |Utf8.Encode(normalized)| > MAX_PIN_BYTES then Err(Pin(TooLong))
      else if |normalized| < minLength then Err(Pin(TooShort(minLength)))
      else Ok(normalized)
  }

  /** An accepted new PIN is stored as the very octets a later entry of it is checked with,
      fits the 64-octet block with at least one octet of padding, and contains no padding octet. */
  lemma AcceptedPinIsTheEnteredPin(nfc: string -> string, raw: bytes, minLength: nat)
    requires ValidateNewPin(nfc, raw, minLength).Ok?
    ensures var pin := Utf8.Encode(ValidateNewPin(nfc, raw, minLength).value);
            && pin == NormalizePin(nfc, raw)
            && |pin| <= MAX_PIN_BYTES
            && 0 !in pin
            && Utf8.Decode(pin) == Some(ValidateNewPin(nfc, raw, minLength).value)
            && minLength <= |ValidateNewPin(nfc, raw, minLength).value|
  {
    var text := ValidateNewPin(nfc, raw, minLength).value;
    Utf8.NulOctets(text);
    Utf8.RoundTrip(text);
  }

  /** A typed PIN is authenticated with as its normalised text; octets that are no text, as they are. */
  lemma NormalizedEntry(nfc: string -> string, text: string)
    ensures NormalizePin(nfc, Utf8.Encode(text)) == Utf8.Encode(nfc(text))
  {
    Utf8.RoundTrip(text);
  }

  lemma NoTextIsKept(nfc: string -> string, pin: bytes)
    requires Utf8.Decode(pin).None?
    ensures NormalizePin(nfc, pin) == pin
    ensures forall minLength: nat :: ValidateNewPin(nfc, pin, minLength) == Err(Pin(InvalidEncoding))
  {
  }

  /** The verdict on a typed new PIN, by its normalised text: no NUL, at most 63 octets, and as many
      characters as asked for, looked at in this order. */
  lemma VerdictOnNewPin(nfc: string -> string, text: string, minLength: nat)
    ensures var n := nfc(text);
            ValidateNewPin(nfc, Utf8.Encode(text), minLength) ==
              if exists i | 0 <= i < |n| :: n[i] == '\0' then Err(Pin(InvalidEncoding))
              else if |Utf8.Encode(n)| >= 64 then Err(Pin(TooLong))
              else if minLength > |n| then Err(Pin(TooShort(minLength)))
              else Ok(n)
  {
    hide Utf8.Encode, Utf8.Decode;
    Utf8.RoundTrip(text);
  }
}
