# Model of a wallet's WSCD manager

A wallet signs with keys held in several secure cryptographic devices: a FIDO2 authenticator, the
Android Keystore, a remote HSM, or a software store. The manager routes each operation to the plugin
that holds the key, generates keys of a required assurance level, and reports which authentication
factors a signature was made with. This project models the parts of it that carry an algorithm, a
protocol or a shared state, and proves what they promise over all inputs, all runs and all
interleavings.

| files | what they model |
|---|---|
| `results`, `bytes`, `utf8`, `keys` | errors, big-endian integers and octet-wise exclusive or, UTF-8, identifiers |
| `cbor`, `rfc8949`, `ctap2`, `preview_sign`, `preview_sign_responses`, `wire` | the previewSign wire codec: CBOR in the deterministic form of RFC 8949, CTAP2 requests, attested authenticator data, synthetic responses |
| `curve`, `cose`, `arkg` | an abstract cyclic group of the P-256 order, COSE keys, ARKG public-key derivation and the authenticator's half of it |
| `cbc`, `pin_text`, `client_pin`, `client_pin_trace`, `client_pin_honest` | the ClientPin exchange of section 6.5 of CTAP 2.1, against an arbitrary and against an honest authenticator |
| `factors`, `fido2_sign`, `ceremony`, `r2ps` | TS12 factor reporting, one whole fido2 signature, the WebAuthn ceremony's agreement, concurrent OPAQUE signing on one client |
| `jwk`, `lifecycle`, `softkey`, `softkey_steps`, `sorting`, `fido2_state`, `fido2_runs` | key identifiers, lifecycle ownership, the software store over runs and under interleaving, the fido2 records and store over runs |
| `keystore`, `manager`, `manager_level`, `manager_conservation` | hardware keys that outlive failures, routing, level-driven generation, conservation over runs |

How it is built. Where the source updates state, a class has the same fields and its methods have the
same steps; each method is proved equal to a function of the old state, and the theorems are about
that function. Code made of expressions is a function. Hashes, HMAC, HKDF, the AES block and Unicode
normalisation are function-valued parameters with only the laws that are needed: output lengths, a
block inverse, group laws, and of normalisation none. `Curve.LawsAreConsistent` exhibits a group with
all the laws asked for. The authenticators that the theorems compare against are written from their
specifications, with constants and derivations of their own, and what goes over the wire is stated
in literal labels and values. Devices, transports and users are functions of what was sent so far, or
of how many calls came before, so a theorem over all of them covers every behaviour.

Assumptions stated as preconditions: the published group order is prime (`Curve.PrimeOrder`); byte
strings are shorter than 2^63 octets, as Rust's are; aliases and key identifiers newly drawn are new;
two keys never share a thumbprint (`Keystore.DistinctThumbprints`); a deletion that a device
confirms has happened.

## Model

| member | source | states |
|---|---|---|
| Utf8.RoundTrip | src/preview_sign_protocol.rs:615-619 | every text survives being written as UTF-8 and read back |
| Utf8.RoundTripBack | src/preview_sign_protocol.rs:633-690 | accepted octets are exactly the encoding of the text they read as, so over-long forms and surrogates are refused |
| Cbor.HeadRoundTrip | src/preview_sign_protocol.rs:615-619 | a head is read back with its type and argument whatever follows |
| Cbor.HeadIsShortest | src/preview_sign_protocol.rs:615-619 | no acceptable head for the same type and argument is shorter than the one written |
| Rfc8949Examples.Integers | src/preview_sign_protocol.rs:615-619 | integers encode as published in Appendix A of RFC 8949 |
| Rfc8949Examples.OtherTexts | src/preview_sign_protocol.rs:615-619 | so do its texts of two, three and four octets a character |
| Rfc8949Examples.Arrays | src/preview_sign_protocol.rs:615-619 | and its arrays |
| Rfc8949Examples.Maps | src/preview_sign_protocol.rs:615-619 | and its maps |
| Ctap2.SuccessIsZero | src/preview_sign_protocol.rs:925-941 | a body is what follows a zero status octet, and nothing else has one |
| Cbor.SelfDelimiting | src/preview_sign_protocol.rs:973-981 | an encoded value followed by anything decodes to that value and leaves exactly what follows, at any depth the reader allows |
| Cbor.PrefixFree | src/preview_sign_protocol.rs:973-981 | no encoding is a prefix of another, and no two values share one |
| Cbor.LeavesASuffix | src/preview_sign_protocol.rs:970-983 | whatever octets are decoded, what is left is a proper suffix of them |
| Cbor.ReadsBack | src/preview_sign_protocol.rs:609-619 | a value written to a buffer of its own is read back |
| Cbor.LookupAt | src/preview_sign_protocol.rs:402-418 | looking a key up finds the entry that is the first with this key |
| PreviewSign.BuildMakeCredentialRequest | src/preview_sign_protocol.rs:519-566 | pushing parameters one by one yields the specified command, with the PIN parameters only when there is a token |
| PreviewSign.BuildGetAssertionRequest | src/preview_sign_protocol.rs:571-607 | likewise for signing |
| PreviewSign.MakeCredentialRequestRoundTrip | src/preview_sign_protocol.rs:519-690 | the request parser returns exactly the relying party, user, hash and algorithm list the builder was given, with or without PIN parameters, and the other parser refuses the command |
| PreviewSign.GetAssertionRequestRoundTrip | src/preview_sign_protocol.rs:571-753 | the same for signing requests, optional ARKG arguments included |
| PreviewSign.MakeCredentialIsCanonical | src/preview_sign_protocol.rs:492-566 | every map at every depth of the command lists its keys in the canonical order of section 8 of CTAP 2.1 |
| PreviewSign.GetAssertionIsCanonical | src/preview_sign_protocol.rs:503-607 | the same for signing requests |
| Wire.MakeCredentialCommandReads | src/preview_sign_protocol.rs:492-566 | every built command, decoded, holds under literal labels exactly the hash, the party, the user, the ten outer algorithms in order, the key's algorithms with flags 5, and the proof with its protocol or neither |
| Wire.GetAssertionCommandReads | src/preview_sign_protocol.rs:503-607 | likewise the party, the challenge, the one allowed credential, handle, message and optional arguments, and the proof or neither |
| PreviewSignResponses.BuildAttestedAuthData | src/preview_sign_protocol.rs:755-778 | the buffer built by appending is header, aaguid, two-octet id length, id, key and extensions, with the flags that say so |
| PreviewSignResponses.ParseAttestedCredentialData | src/preview_sign_protocol.rs:943-987 | the offset-and-cursor walk, in bounds on every octet string, computes the functional reading of it |
| PreviewSignResponses.ExtractSignedAlgorithm | src/preview_sign_protocol.rs:994-1026 | the second walk, in bounds on every octet string, starts reading extensions at the same end of the block |
| PreviewSignResponses.LaidOutIsAttested | src/preview_sign_protocol.rs:943-987 | any octets laid out as header, length-prefixed id, one CBOR item and a rest are accepted, with the block ending right before the rest |
| PreviewSignResponses.AttestedIsLaidOut | src/preview_sign_protocol.rs:943-987 | only octets so laid out are accepted |
| PreviewSignResponses.BuiltAuthDataReadsBack | src/preview_sign_protocol.rs:755-1026 | from built data both walks recover id, key and algorithm whatever extension map follows |
| PreviewSignResponses.MakeCredentialResponseReads | src/preview_sign_protocol.rs:816-1104 | a synthetic response reads as its outer id and algorithm and the generated key its object holds |
| PreviewSignResponses.MakeCredentialRoundTripWithoutObject | src/preview_sign_protocol.rs:816-1104 | a result without attestation object keeps its ids, algorithm and COSE key if and only if both ids fit the 16-bit field and the key is in encoder form; in place of the empty object the one made up for it comes back |
| PreviewSignResponses.MakeCredentialRoundTripWithObject | src/preview_sign_protocol.rs:816-1104 | a result with an attestation object keeps it octet for octet if and only if the id fits and the object holds a readable key, whose handle and key are then reported |
| PreviewSignResponses.HardwareResponseReads | src/preview_sign_protocol.rs:1041-1104 | a response with the key's object among its unsigned outputs parses exactly when it and the authenticator data hold readable credentials, whatever the flat label holds; the object comes back octet for octet with its own handle and key, under the signed algorithm, else the key's, else -7 |
| PreviewSignResponses.FlatResponseReads | src/preview_sign_protocol.rs:1059-1104 | without unsigned outputs the same of the object under the flat label |
| PreviewSignResponses.GeneratedKeyReads | src/preview_sign_protocol.rs:1071-1084 | the key's object is read by the authenticator data under its label 2 |
| Wire.MakeCredentialResponseHolds | src/preview_sign_protocol.rs:801-869 | a synthetic response, decoded, holds format none, the outer credential with its signed algorithm, an empty statement, and the key's own or made-up object |
| Wire.AttestedOctets | src/preview_sign_protocol.rs:755-778 | attested authenticator data octet by octet, flags and length included |
| Wire.AssertionOctets | src/preview_sign_protocol.rs:871-896 | an assertion's data octet by octet: the UV bit is set exactly for a verified user |
| Wire.GetAssertionResponseReads | src/preview_sign_protocol.rs:871-901 | the response is a zero octet and a map with that data under label 2 |
| Wire.AssertionExtensionsReadExactly | src/preview_sign_protocol.rs:173-205 | extensions are read exactly when there is more than a header, their bit is set and no credential is attested |
| Wire.SignatureReads | src/preview_sign_protocol.rs:173-230 | the signature is octets under label 6 of previewSign in them |
| Wire.UnattestedAlgorithmReads | src/preview_sign_protocol.rs:994-1026 | without an attested credential the signed algorithm is read right after the header |
| PreviewSignResponses.EncodeGetAssertionResponse | src/preview_sign_protocol.rs:871-901 | building extensions step by step yields the specified response |
| PreviewSignResponses.GetAssertionRoundTrip | src/preview_sign_protocol.rs:871-1153 | signature, UV flag and any knowledge or inherence factor survive; a possession factor never does |
| Curve.Group.MulAdds | src/arkg.rs:181-246 | multiplication by a sum is the sum of multiples |
| Curve.Group.MulMultiplies | src/arkg.rs:181-246 | repeated multiplication is multiplication by the product |
| Curve.Group.MulCommutes | src/arkg.rs:181-228 | both orders of multiplying by two secrets give one point |
| Curve.Group.MulReduces | src/arkg.rs:236-246 | a scalar may be reduced modulo the group order |
| Curve.PointRoundTrip | src/arkg.rs:248-255 | an uncompressed point reads back |
| Curve.PointRoundTripBack | src/ctap2_client_pin.rs:560-565 | nothing but the uncompressed form of a point of the curve is read as one |
| Curve.OrderInFigures | src/arkg.rs:263-280 | the order is the published one, in figures |
| Curve.LawsAreConsistent | src/arkg.rs:181-246 | the residues modulo the order satisfy every law asked of the curve |
| Cose.KeyRoundTrip | src/ctap2_client_pin.rs:539-583 | a COSE key is canonical and reads back as its point |
| Cose.ReadExactly | src/ctap2_client_pin.rs:539-567 | a key is read exactly when labels -2 and -3 hold 32 octets each that make a point of the curve |
| Wire.CoseKeyReads | src/ctap2_client_pin.rs:572-584 | the platform's key by label: kty, algorithm, curve and coordinates |
| Bytes.XorBytesBits | src/arkg.rs:316-326 | a bit of the combination is set exactly when the two bits differ |
| Arkg.ExpandMessageXmd | src/arkg.rs:285-334 | the in-place loop yields exactly the requested length, whose runs of 32 octets satisfy section 5.3.1 of RFC 9380: each is the start of a hash over the first hash combined with the run before it, its counter and the tag; the counter never leaves one octet |
| Arkg.ExpansionIsUnique | src/arkg.rs:285-334 | those equations have one solution |
| Arkg.MsgPrimeIsInjective | src/arkg.rs:285-306 | message, tag and length are recoverable from what is hashed first |
| Arkg.HashToScalarField | src/arkg.rs:263-280 | always 32 octets, whose value is the expanded 48-octet integer modulo the order |
| Arkg.DstsAreShort | src/arkg.rs:138-149 | every tag reached from derivation has at most 104 octets, so no assertion fires |
| Arkg.ContextIsInjective | src/arkg.rs:138-147 | two contexts never give the same KEM or blinding context |
| Arkg.ScalarsAgree | src/arkg.rs:263-280 | the scalar is the one an authenticator computes from two blocks by RFC 9380 alone |
| Arkg.KemCorrect | src/arkg.rs:181-228 | the ciphertext is a tag and a point from which the authenticator recovers the same secret with a tag that verifies; it fails only for a zero ephemeral scalar |
| Arkg.BlindingCorrect | src/arkg.rs:236-246 | blinding the public key is the public half of blinding the secret, and is the identity exactly when the sum is zero |
| Arkg.DerivationMatchesAuthenticator | src/arkg.rs:126-246 | for all secrets, randomness and contexts the derived public key is that of the private key the authenticator re-derives from the returned handle; derivation fails for an over-long context, a zero ephemeral scalar or an identity result, and nothing else |
| Arkg.SignArgsReadBack | src/arkg.rs:164-173 | the signing arguments are a canonical map from which algorithm, handle and context read back |
| Arkg.SeedReadsBack | src/arkg.rs:65-110 | a seed is read whole, each key in its place, if and only if the algorithm is the registered one or its older spelling |
| Cbc.EncryptInPlace | src/ctap2_client_pin.rs:638-659 | the in-place block loop computes recursive CBC |
| Cbc.DecryptInPlace | src/ctap2_client_pin.rs:665-685 | likewise, keeping each ciphertext block for the next |
| Cbc.EncryptChains | src/ctap2_client_pin.rs:638-662 | block by block: each ciphertext block enciphers the plaintext block combined with the ciphertext block before it, the first with the IV |
| Cbc.DecryptUnchains | src/ctap2_client_pin.rs:665-685 | and each plaintext block is the deciphered block combined with the ciphertext block before it |
| Cbc.CbcRoundTrip | src/ctap2_client_pin.rs:638-685 | deciphering undoes enciphering for every key, IV and aligned plaintext |
| Cbc.EncryptBuffer | src/ctap2_client_pin.rs:638-659 | protocol one starts from a zero IV, protocol two sends a random one first |
| Cbc.DecryptBuffer | src/ctap2_client_pin.rs:665-685 | likewise for deciphering, with the errors of the source |
| Cbc.ProtocolRoundTrip | src/ctap2_client_pin.rs:638-685 | in both protocols what one side enciphers the other deciphers, with ciphertexts of n and n+16 octets |
| Cbc.DecryptRefuses | src/ctap2_client_pin.rs:665-685 | exactly the ciphertexts that are too short or unaligned are refused |
| PinText.AcceptedPinIsTheEnteredPin | src/ctap2_client_pin.rs:325-353 | an accepted new PIN is the octets a later entry is checked with, fits the padded block, has no padding octet, and is long enough |
| PinText.VerdictOnNewPin | src/ctap2_client_pin.rs:337-353 | the verdict on a typed new PIN: NUL, more than 63 octets, too few characters, in this order, or its normalised text |
| PinText.NormalizedEntry | src/ctap2_client_pin.rs:325-330 | a typed PIN is authenticated with as its normalised text |
| PinText.NoTextIsKept | src/ctap2_client_pin.rs:325-342 | octets that are no text are used as they are, and refused as a new PIN |
| ClientPin.StatusesAreTyped | src/ctap2_client_pin.rs:489-499 | which status octet is which PIN failure, and that no other is one |
| ClientPin.PinInfoReads | src/ctap2_client_pin.rs:223-268 | whether a PIN is set, and the least length, by literal labels, with their defaults |
| ClientPin.FirstKnownProtocol | src/ctap2_client_pin.rs:223-268 | the first listed protocol that is known is taken |
| ClientPin.ComputeSetPinFields | src/ctap2_client_pin.rs:440-480 | copying into a zeroed array and enciphering in place yields the specified fields |
| ClientPin.Platform.DoReadPinInfo | src/ctap2_client_pin.rs:217-274 | sends getInfo and reads state, length and protocol as specified |
| ClientPin.Platform.DoGetKeyAgreement | src/ctap2_client_pin.rs:501-531 | sends one key-agreement command and reads a point of the curve |
| ClientPin.Platform.DoTokenWithPin | src/ctap2_client_pin.rs:355-393 | the commands sent and the result are those of the specification function |
| ClientPin.Platform.DoSetPin | src/ctap2_client_pin.rs:397-431 | likewise for setting a PIN |
| ClientPin.Platform.AcquirePinUvAuthToken | src/ctap2_client_pin.rs:285-321 | likewise for the whole exchange, prompts included |
| ClientPinTrace.TraceSafety | src/ctap2_client_pin.rs:285-499 | against any authenticator: one prompt at most, of the right kind; the PIN set at most once and only after reading that none is; a token asked for at most once and after a set only if it was accepted; its own key agreement before each; nothing after getInfo when the PIN is refused here |
| ClientPinTrace.AcquireEndsWithToken | src/ctap2_client_pin.rs:285-391 | a token is had by asking for it last, with the permissions and relying party given |
| ClientPinHonest.DerivationsAgree | src/ctap2_client_pin.rs:605-632 | both keys are those sections 6.5.6 and 6.5.7 of CTAP 2.1 have the authenticator derive |
| ClientPinHonest.SetStoresAndOpens | src/ctap2_client_pin.rs:285-485 | an honest authenticator ends up with exactly the normalised octets, and both ends hold one token, in both protocols |
| ClientPinHonest.EnteringAuthenticatesExactly | src/ctap2_client_pin.rs:285-393 | entering opens a session exactly when the entry hashes like the stored PIN, with the source's error otherwise |
| ClientPinHonest.SetPinIsUsable | src/ctap2_client_pin.rs:285-485 | a PIN set here can always be used here, whatever key pair, token and IV are in play later |
| Factors.SatisfiesTwoCategories | src/factors.rs:177-186 | true exactly when two listed factors differ in category |
| Factors.New | src/factors.rs:133-160 | the loop computes the counted factors and the shortfall |
| Factors.AssessedFactors | src/factors.rs:133-160 | nothing is invented, lost or repeated; there is no shortfall exactly when two categories are present |
| Factors.ClassOfTypedText | src/factors.rs:274-294 | a typed text gets exactly the class its characters and length put it in, and only the empty text gets none |
| Factors.UnclassifiedExactly | src/factors.rs:274-294 | a secret has no class exactly when it encodes no text but the empty one |
| Factors.RecordingAuth.RequestPin | src/factors.rs:337-357 | the answer is passed on untouched and exactly the class of each returned PIN is remembered |
| Factors.SpansTwoCategoriesExactly | src/factors.rs:390-420 | two categories exactly when this sign measured a PIN, or observed verification that a plugin or, failing that, the host names |
| Factors.ReportedWithPin | src/factors.rs:390-420 | a measured PIN is reported beside the held key, an unclassified one as the shortfall |
| Factors.ReportedWithoutPin | src/factors.rs:390-420 | otherwise the plugin's factor before the host's, only where verification was seen, or the reason there is none |
| Factors.HeldKeys | src/plugins/fido2_sign.rs:670-687 | which possession method each plugin reports |
| Factors.Derive | src/factors.rs:390-420 | the collected factors, assessed |
| ClientPin.Platform.RequestPin | src/factors.rs:337-357 | a prompt made while signing passes the answer on and leaves the recorder with the classes of exactly the PINs returned so far |
| Fido2Sign.DoGetAssertion | src/preview_sign_protocol.rs:1211-1247 | the commands, prompts and result of one assertion: no PIN exchange on a transport that verifies the user, else a token first and its proof over the challenge |
| Fido2Sign.DoSignWithFactors | src/plugins/fido2_sign.rs:643-689 | the whole sign, with a recorder of its own, is the specified run |
| Fido2Sign.ParsedFactorIsVerification | src/preview_sign_protocol.rs:1134-1153 | no response yields a possession factor or one outside the vocabulary |
| Fido2Sign.FactorsAreMeasuredInThisSign | src/plugins/fido2_sign.rs:366-689 | for every transport, user, key and request, a sign that succeeds reports two categories exactly when its own response has the UV flag and either its one prompt returned a PIN that has a class, or, on a transport that verifies the user, nothing was prompted and the response or the host names the method; a knowledge factor over a PIN is that PIN's class |
| Fido2Sign.RefusedUnsent | src/plugins/fido2_sign.rs:652-660 | a fresh request on a transport that verifies the user, or an unacceptable host factor, sends nothing and asks nothing |
| Fido2Sign.AuthenticatorReadsTheKey | src/plugins/fido2_sign.rs:385-463 | the last command reads as the stored key's credential, handle and arguments over the hash or key binding message, for this sign's challenge |
| Fido2Sign.SignatureIsTheReplys | src/plugins/fido2_sign.rs:467-478 | the signature returned is the reply's own: as it came and 64 octets for 48-octet coordinates, what the DER parser makes of it otherwise |
| Fido2Sign.TokenIsScoped | src/preview_sign_protocol.rs:1219-1231 | the token asked for on the way is for assertions, and for this relying party |
| Fido2Sign.ReportsExactly | src/plugins/fido2_sign.rs:661-689 | the report factor by factor: the external key, and beside it what reply, prompt and request allow, or why there is nothing |
| Fido2Sign.HonestAuthenticatorGetsItsProof | src/preview_sign_protocol.rs:1211-1247 | an authenticator that follows the protocol, given its PIN, is sent a proof over the challenge that its own token verifies |
| Ceremony.CeremonyAdapter.RecordAssertion | src/plugins/r2ps.rs:110-127 | counters and the three-valued state stay those of the assertions recorded |
| Ceremony.CeremonyAdapter.AllAssertionsUserVerified | src/plugins/r2ps.rs:130-134 | true exactly when there was an assertion and every one was user-verified |
| Ceremony.CeremonyAdapter.AgreedVerifiedFactor | src/plugins/r2ps.rs:144-156 | reports f exactly when there was an assertion, every one was user-verified and every one classifies to f |
| Ceremony.AgreedExactlyWhenAllAgree | src/plugins/r2ps.rs:118-127 | the folded state remembers agreement exactly |
| Ceremony.ReadsTheEncodedFlag | src/plugins/r2ps.rs:171-175 | the flag read is bit 2 of octet 32, the one an assertion's encoder sets for a verified user |
| Ceremony.OrderIsIrrelevant | src/plugins/r2ps.rs:110-156 | the report does not depend on the order of the assertions |
| Ceremony.WebAuthnSignSpansTwoCategoriesExactly | src/plugins/r2ps.rs:568-589 | a WebAuthn sign reports two categories exactly when all assertions were verified and they, or the host, name one method |
| R2ps.EveryRunKeepsInv | src/plugins/r2ps.rs:336-629 | every interleaving keeps the invariant that ties each call's progress to its own entries in the server's log |
| R2ps.KnowledgeIsTheCallsOwn | src/plugins/r2ps.rs:336-629 | in every interleaving a reported knowledge factor is the class of the PIN this call's own prompt returned, and the signature was made under the session that PIN established; two categories are reported exactly when that PIN has a class |
| R2ps.FreshSignAuthenticates | src/plugins/r2ps.rs:336-612 | a fresh sign returns a signature only after its own prompt and its own authentication |
| R2ps.SignBegins | src/plugins/r2ps.rs:336-351 | a sign is refused unprompted on bad options or mode, prompted when fresh or without a session, and not prompted when a session is cached |
| R2ps.RefusedPromptEnds | src/plugins/r2ps.rs:350 | a refused prompt ends its call |
| R2ps.FailedAuthenticationEnds | src/plugins/r2ps.rs:600-607 | so does a failed authentication: nothing is signed under the session it was to replace |
| R2ps.ReportsExactly | src/plugins/r2ps.rs:617-627 | a returned signature is reported with the remote key and the class of the call's own PIN, or the reason there is none |
| R2ps.LogIsSerial | src/plugins/r2ps.rs:590-612 | each call's requests reach the server in one piece, every signature under the session established last, and a returned signature's block is it and the authentication right before it |
| Jwk.LiteralReadsBack | src/plugins/mod.rs:203-207 | a JSON string literal, escapes included, ends at its own closing quote and reads back |
| Jwk.JwkThumbprint | src/plugins/mod.rs:174-213 | the string grown member by member is the canonical form, whose hash is returned |
| Jwk.CanonicalOfEcKey | src/plugins/mod.rs:181-209 | the exact canonical text of an elliptic-curve key, whatever else the JWK holds |
| Jwk.CanonicalOfOkpKey | src/plugins/mod.rs:181-209 | of an octet key pair |
| Jwk.CanonicalOfRsaKey | src/plugins/mod.rs:181-209 | of an RSA key |
| Jwk.CanonicalOfOctKey | src/plugins/mod.rs:181-209 | of a symmetric key |
| Jwk.Escapes | src/plugins/mod.rs:203-207 | the escapes a string literal is written with |
| Jwk.CanonicalExactlyWhenComplete | src/plugins/mod.rs:178-197 | exactly the four key types with all required members as strings have a canonical form |
| Jwk.CanonicalIsFaithful | src/plugins/mod.rs:174-214 | two JWKs share it if and only if they agree on type and required members |
| Softkey.SoftkeyPlugin.FromContainer | src/plugins/softkey.rs:92-118 | both container shapes restore, later records winning |
| Softkey.SoftkeyPlugin.ExportContainer | src/plugins/softkey.rs:133-141 | in whatever order the map is walked, the container restores to exactly this store, contexts included |
| Softkey.SoftkeyPlugin.GenerateKey | src/plugins/softkey.rs:197-265 | the new state adds the drawn key; the BLS algorithm is refused and changes nothing |
| Softkey.SoftkeyPlugin.DeleteKey | src/plugins/softkey.rs:345-354 | removes one key and leaves contexts as they are |
| Softkey.SoftkeyPlugin.RegisterLifecycle | src/plugins/softkey.rs:457-479 | the state after generating, purging stale keys and overwriting the context |
| Softkey.SoftkeyPlugin.ActivateLifecycle | src/plugins/mod.rs:62-74 | only the context's state and time change; unknown contexts are an error |
| Softkey.SoftkeyPlugin.RotateLifecycle | src/plugins/softkey.rs:496-518 | the key is stored even when the context is unknown; the context's own state is untouched |
| Softkey.SoftkeyPlugin.DestroyLifecycle | src/plugins/softkey.rs:520-553 | the loop removes the listed keys and clears the list |
| Softkey.RestoreUndoesExport | src/plugins/softkey.rs:92-141 | export then restore is the identity, contexts included, whatever order keys are listed in |
| Softkey.LastRecordWins | src/plugins/softkey.rs:108-114 | of several records for one identifier the last listed is restored |
| Softkey.RestoredContexts | src/plugins/softkey.rs:98-106 | contexts come from the newer shape alone; what is neither shape is an error |
| Softkey.GenerateLeaves | src/plugins/softkey.rs:197-265 | one record with its own algorithm and secret, and no context, changes |
| Softkey.DeleteLeaves | src/plugins/softkey.rs:345-354 | one record goes, and no context changes |
| Softkey.RegisterLeaves | src/plugins/softkey.rs:457-479 | an ES256 key and a registered context that lists it alone; other contexts as they were |
| Softkey.ActivateLeaves | src/plugins/mod.rs:62-74 | a known context is active from now with its keys; other contexts and the store as they were |
| Softkey.RotateLeaves | src/plugins/softkey.rs:496-518 | an ES256 key is stored and listed last, the context in the state it was in |
| Softkey.DestroyLeaves | src/plugins/softkey.rs:520-553 | a known context is destroyed and lists nothing; other contexts as they were |
| Softkey.EveryRunConserves | src/plugins/softkey.rs:345-553 | over every run of generation, import, registration, activation, rotation, destruction, deletion and restart no key is listed twice, and the store is exactly the owned keys and the unowned ones less those deleted directly |
| Softkey.DestroyRemovesExactlyItsOwn | src/plugins/softkey.rs:520-553 | after any run, destroying a context removes its keys and no other context's and no unowned one |
| Softkey.ReRegisterLeaksNothing | src/plugins/mod.rs:119-143 | after any run, registering again leaves the context with the new key alone and removes exactly its old keys |
| SoftkeySteps.EveryScheduleKeepsInv | src/plugins/softkey.rs:457-553 | every interleaving of the calls' critical sections keeps the invariant that ties store and lists to what was drawn, attached, removed and cleared |
| SoftkeySteps.OrphansExactly | src/plugins/softkey.rs:457-553 | in every interleaving an enrolled key is stored with no context listing it if and only if it came to its context between a destruction's copying and clearing of the list, and nothing removed or deleted it |
| SoftkeySteps.WithoutOverlapNothingIsOrphaned | src/plugins/softkey.rs:457-553 | when nothing is attached to a context during its own destruction, every stored key is listed or was never attached |
| SoftkeySteps.RotateIntoDestroyOrphans | src/plugins/softkey.rs:496-553 | a rotation that attaches its key just before a destruction clears the list leaves the key stored and on no list |
| Sorting.SortAscends | src/plugins/fido2_sign.rs:242 | sorting records with distinct keys makes them strictly ascending |
| Sorting.AscendingIsUnique | src/plugins/fido2_sign.rs:242 | only one arrangement of the same elements ascends strictly |
| Fido2State.Fido2SignPlugin.FromState | src/plugins/fido2_sign.rs:159-208 | the width check and the first-wins loop compute the specified restore, refusing the whole blob for one bad record |
| Fido2State.RestoredLookupIsFirstMatch | src/plugins/fido2_sign.rs:194-264 | for every accepted blob, lookup finds what searching the list for the first match would |
| Fido2State.AcceptedExactly | src/plugins/fido2_sign.rs:169-188 | accepted are the blobs whose coordinates are 32 or 48 octets, both alike; 48 means the BLS curve |
| Fido2State.RegisterLeaves | src/plugins/fido2_sign.rs:822-851 | only raw signing is enrolled: the key is stored and a registered context lists it alone |
| Fido2State.RotateLeaves | src/plugins/fido2_sign.rs:868-889 | the key is stored and listed last, and the context is registered again |
| Fido2State.ActivateAndDestroyLeave | src/plugins/fido2_sign.rs:853-934 | the states that activation and destruction leave |
| Fido2State.Fido2SignPlugin.ExportState | src/plugins/fido2_sign.rs:236-248 | the blob lists every key once, strictly ascending, and restores to exactly this state if and only if every key has the width of one of the two curves |
| Fido2State.Fido2SignPlugin.ListKeys | src/plugins/fido2_sign.rs:713-727 | every stored key's summary once, strictly ascending, and nothing else |
| Fido2State.Fido2SignPlugin.DeleteKey | src/plugins/fido2_sign.rs:759-768 | removes the key if it is there and says so |
| Fido2State.Fido2SignPlugin.StoreGeneratedKey | src/plugins/fido2_sign.rs:328-339 | files the key under its identifier and changes nothing else |
| Fido2State.Fido2SignPlugin.RegisterLifecycle | src/plugins/fido2_sign.rs:822-851 | only raw signing is enrolled; the loop purges the context's old keys, and the context then has the new one |
| Fido2State.Fido2SignPlugin.RotateLifecycle | src/plugins/fido2_sign.rs:868-889 | the key is stored even when the context is unknown; a known one goes back to registered |
| Fido2State.Fido2SignPlugin.DestroyLifecycle | src/plugins/fido2_sign.rs:891-934 | clears the whole store and the context's list; unknown contexts are an error |
| Fido2Runs.DestroySparesOthersExactly | src/plugins/fido2_sign.rs:822-934 | after any run, destroying a context takes no key but its own along if and only if no other context lists a stored key and none was generated outside the contexts |
| Fido2Runs.DestroyTakesAnothersKey | src/plugins/fido2_sign.rs:891-934 | two registrations, each context holding a stored key, are enough for destroying one to remove the key the other still lists |
| Fido2Runs.EveryRunKeepsFiled | src/plugins/fido2_sign.rs:159-934 | every run from any accepted blob keeps every key filed under its own identifier |
| Fido2Runs.EveryRunAccounts | src/plugins/fido2_sign.rs:822-934 | over every run no key is listed twice, and a stored key belongs to a context or was generated outside all |
| Fido2Runs.ExportAfterAnyRun | src/plugins/fido2_sign.rs:159-727 | at every point of every run exports are deterministic and complete, listings follow them, and they restore if and only if all widths are valid |
| Fido2State.ExportIsDeterministic | src/plugins/fido2_sign.rs:236-248 | every key once, strictly ascending by time and identifier, and the same however the map is walked |
| Fido2State.ListingFollowsExport | src/plugins/fido2_sign.rs:236-727 | the listing names the exported keys in the exported order |
| Fido2State.RestoreUndoesExport | src/plugins/fido2_sign.rs:159-248 | export then restore is the identity if and only if every stored key's coordinates have one of the two widths; otherwise it is refused |
| Keystore.TryGenerateAccounts | src/plugins/android_keystore.rs:208-284 | a failed generation under a new alias leaves nothing behind unless it reports so |
| Keystore.BestEffortExactly | src/plugins/android_keystore.rs:208-254 | a key is made exactly when StrongBox makes it, or there is none, its attempt was cleaned up and the TEE makes it; its level is the one confirmed for that attempt |
| Keystore.GenerateKeyAccounts | src/plugins/android_keystore.rs:208-391 | a success adds one live key and one record under a new identifier; a failure changes no record and leaves the device as it was, or reports an unconfirmed cleanup and leaves at most one key |
| Keystore.GenerateKeyTracks | src/plugins/android_keystore.rs:312-391 | the keys out of reach grow by at most one, and only with that report |
| Keystore.DeleteKeyAccounts | src/plugins/android_keystore.rs:500-516 | a record goes only together with its key; every other key keeps record and life |
| AndroidKeystore.AndroidKeystorePlugin.BestEffortGenerate | src/plugins/android_keystore.rs:208-254 | StrongBox, then the TEE only after a confirmed cleanup, as specified |
| AndroidKeystore.AndroidKeystorePlugin.DeleteAfterFailedGenerate | src/plugins/android_keystore.rs:272-284 | the original error, or an unconfirmed cleanup when deleting failed |
| AndroidKeystore.AndroidKeystorePlugin.FinishGenerateKey | src/plugins/android_keystore.rs:362-391 | the record is made only once chain and public key were read |
| AndroidKeystore.AndroidKeystorePlugin.GenerateKeyWithChallenge | src/plugins/android_keystore.rs:312-353 | the device calls and the new state are those of the specification function |
| AndroidKeystore.AndroidKeystorePlugin.DeleteKey | src/plugins/android_keystore.rs:500-516 | the device first, the record only after its confirmation |
| AndroidKeystore.AndroidKeystorePlugin.Certification | src/plugins/android_keystore.rs:523-540 | unknown keys are an error; anything above unattested needs a chain of two certificates and is the recorded level |
| Keystore.GeneratedKeyIsCertifiedAsConfirmed | src/plugins/android_keystore.rs:312-540 | a new key is attested exactly when its chain has two certificates and the device confirmed StrongBox or the TEE for the very attempt that made it, and then at that level |
| Keystore.GeneratedRecord | src/plugins/android_keystore.rs:312-391 | what is refused reaches no device; what is made is recorded with its alias, chain, challenge and level |
| WscdManager.WscdManager.GenerateKeyOn | src/manager.rs:141-167 | binds the new key, or refuses one bound to another plugin |
| WscdManager.WscdManager.GenerateKey | src/manager.rs:113-122 | generates on the plugin the configuration resolves to |
| WscdManager.WscdManager.DeleteKey | src/manager.rs:396-401 | the binding goes only when the plugin confirmed the deletion |
| WscdManager.WscdManager.SecurityProperties | src/manager.rs:454-457 | asks the plugin the key resolves to |
| WscdManager.WscdManager.GenerateKeyForLevel | src/manager.rs:210-321 | the candidate loop, with its continues and early returns, computes the recursive specification and the same calls |
| WscdManager.WscdManager.BindKeys | src/manager.rs:86-105 | binds in order up to the first key another plugin has |
| ManagerLevel.TryOutcome | src/manager.rs:224-315 | one candidate ends kept, passed over or stopping, with the calls and the stored and bound keys each implies |
| ManagerLevel.LevelDrivenGeneration | src/manager.rs:210-321 | candidates are asked in order; on success the last plugin asked made the key and confirmed a sufficient level, no earlier answer did, every earlier key was deleted by its own plugin, and, the identifiers being new, exactly one key was added and bound; if all registered candidates fall short, no binding was added, all are as before if and only if no plugin reissued an identifier bound to it, the identifiers being new so are the stored keys, and the error is the last candidate's own |
| ManagerLevel.ReissuedKeyIsLost | src/manager.rs:292-315 | a plugin that reissues one of its own bound identifiers and falls short has the old key deleted and unbound |
| ManagerLevel.RankIsServing | src/manager.rs:328-334 | dedicated hardware serves every requirement, a shared environment all but that one, and an unattested key none |
| ManagerLevel.RoutesInOrder | src/manager.rs:42-68 | a key's binding routes before the operation's default, that before the global one, and an unregistered plugin is an error |
| ManagerLevel.AndroidRefusesOtherAlgorithms | src/manager.rs:141-168 | another algorithm than ES256 never reaches the Android device |
| ManagerLevel.NothingAfterAStop | src/manager.rs:235-270 | a cancellation, a PIN failure, an unconfirmed cleanup or a failed deletion is the last thing the call hears |
| ManagerConservation.BindKeysExactly | src/manager.rs:86-105 | succeeds exactly when no listed key has another plugin, then routes every operation on them; never re-routes a bound key |
| ManagerConservation.GenerateKeyOnConserves | src/manager.rs:141-167 | keeps every tracked key, re-routes none, and accounts for what may be left behind |
| ManagerConservation.DeleteKeyConserves | src/manager.rs:396-401 | loses track of no key and touches only the one named |
| ManagerConservation.TryAllConserves | src/manager.rs:210-321 | the failed attempts of a level-driven generation remove no key tracked before it |
| ManagerConservation.NoUntrackedKeys | src/manager.rs:141-401 | over every run, each call that reports an unconfirmed cleanup accounts for at most one hardware key out of reach, no other call adds one, and every other live key is recorded and, collisions apart, bound |
| ManagerConservation.TrackedUntilDeleted | src/manager.rs:141-401 | a tracked key stays tracked, whatever fails around it, until a call deletes that very key |

## Left out

- The FFI and browser bindings (`src/ffi.rs`, `src/wasm_ffi.rs`, `src/wasm_fido2.rs`): they mirror types and call what is modelled here.
- The inside of SHA-256, HMAC, HKDF, AES, P-256 arithmetic, DER and Unicode normalisation: parameters with laws.
- The primality of the P-256 order: a precondition, since it is a fact of number theory the code relies on as well.
- Compressed SEC1 points: only the uncompressed form that the code writes is read.
- CBOR floats, tags, `undefined`, other simple values and indefinite lengths: nothing here writes them, and the reader of the model refuses them; the reader's nesting limit of 256 is modelled.
- PreviewSignResponses.ParseAttestedCredentialData: reads the key item in that subset, so a key item with a float or a tag in it, which the library reads, is refused here.
- PreviewSignResponses.ExtractSignedAlgorithm: skips the key item and reads the extensions in the same subset.
- PreviewSignResponses.AttestedIsLaidOut: says what the reader of the subset accepts.
- The text of JSON: containers and state blobs are modelled by what they read as, or as malformed; only the canonical JWK is modelled as text.
- PIN retry counters and lock-out on the authenticator: the honest authenticator answers a wrong PIN with the status for it and counts nothing; the exchange with PIN-retry queries is not part of this model.
- The R2PS server and its envelopes: the server is the log of what it was asked, and a signature needs a session; whether a refused or unrelated request keeps or loses the session is left open.
- R2PS concurrency is a step model, not a class: Dafny methods do not interleave. Its `lifecycle` map is single-branch bookkeeping and is not modelled.
- The purge inside a registration is one step of the interleaving model: it runs under the contexts' lock, and what else takes the store's lock meanwhile touches other keys or removes the same ones.
- The fido2 plugin's calls under interleaving: its lifecycle runs are modelled one call after the other; the software store, whose destruction copies, removes and clears in three critical sections, has the interleaving model.
- `migrate_key`: it inserts a binding without the collision check, and repeats generation otherwise.
- Plugins other than the Android Keystore appear in the manager's theorems as answers and a store of keys; the Secure Enclave plugin repeats a simpler form of the Keystore's.
- `sort_by` of the standard library is a stable insertion sort on sequences: the theorems about it need only that it sorts.
- ManagerLevel.LevelDrivenGeneration: its clauses on stored keys, and on the binding added by a success, hold for generated identifiers that were not bound or stored before; `ManagerLevel.ReissuedKeyIsLost` shows one that was.
- README.md:68 of the repository says the software store has no lifecycle; the code has one (src/plugins/softkey.rs:446-553), and the code is followed.
- Curve arithmetic and DER parsing of signatures, attestation-chain inspection, UVM bit tables, authenticator info, configuration defaults, progress callbacks, message texts and poisoned locks.
