/** What every CTAP2 message has in common (src/preview_sign_protocol.rs): a command octet before
    its parameters, a status octet before its answer. */
module Ctap2 {
  import opened Bytes
  import opened Results
  import opened Cbor

  /** No slice is longer than `isize::MAX`. */
  predicate InMemory(b: bytes) {
    |b| < 0x8000_0000_0000_0000
  }

  function EncodeCommand(command: byte, params: seq<Entry>): bytes {
    [command] + Encode(Map(params))
  }

  function SplitStatus(response: bytes): Result<bytes> {
    if |response| == 0 || response[0] != 0 then Err(Crypto) else Ok(response[1..])
  }

  function ReadMap(body: bytes): Result<seq<Entry>> {
    match FromReader(body)
    case None => Err(Crypto)
    case Some(v) => Required(v.AsMap())
  }

  /** A body is what follows a zero status octet; nothing else has one. */
  lemma SuccessIsZero(response: bytes)
    ensures SplitStatus(response).Ok? <==> |response| >= 1 && response[0] == 0x00
    ensures SplitStatus(response).Ok? ==> response == [0x00] + SplitStatus(response).value
    ensures SplitStatus(response).Err? ==> SplitStatus(response).error == Crypto
  {
  }
}
