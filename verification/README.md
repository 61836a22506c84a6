# NBitcoin Taproot address, modelled in Dafny

This project models NBitcoin's `TaprootAddress`: a segwit version 1 address whose
Bech32 text carries a 32-byte x-only public key. The model covers:

- the `Validate` check, with its error taxonomy;
- the three constructors (from text, from trusted key bytes, from a public key) and the `NotNull` helper;
- both `VerifyMessage` overloads;
- `GeneratePaymentScript`;
- the `PubKey` and `Type` getters.

Exceptions become `Result` values. C#'s catch-clause semantics are modelled explicitly:
exception classes form a base-class chain, and the first matching clause handles the
exception. A null reference is `None`. The collaborators the class calls but does not
implement are function-valued fields of datatypes. So every property below holds for
every behaviour of:

- the network's Bech32 encoders (decode and encode);
- `ECXOnlyPubKey.TryCreate`;
- `new PubKey(ECXOnlyPubKey)`;
- `PubKey.RecoverFromMessage`.

Files:
- `wrappers.dfy`: `Option` (nullable references) and `Result` (returning or throwing).
- `exceptions.dfy`: the exception class hierarchy (`IsA`), catch clauses, and first-match selection (`SelectClause`).
- `collaborators.dfy`: bytes, Bech32 address kinds, encoders, networks, keys and the key primitives.
- `taproot_address.dfy`: the class itself.
- `properties.dfy`: lemmas relating the operations.
- `pubkey_constructor.dfy`: the public-key constructor finding below.

## Model

| member | source | states |
|---|---|---|
| `Exceptions.SelectClause` | NBitcoin/TaprootAddress.cs:46-56 | the clause chosen for a thrown exception is the first clause whose class the exception's class is or derives from; none is chosen only when no clause matches |
| `TaprootAddresses.ValidateCatchClausesSelect` | NBitcoin/TaprootAddress.cs:55-56 | in Validate's catch clauses, a checksum exception goes to the rethrow clause, any other FormatException goes to the swallowing clause, and every other exception escapes uncaught |
| `TaprootAddresses.Validate` | NBitcoin/TaprootAddress.cs:37-63 | a null text is rejected before a null network, both as argument-null errors. A missing Taproot encoder gives the not-supported error. Otherwise: success exactly when the text decodes to witness version 1 with a 32-byte program, and the result is then the input text unchanged. A version or length mismatch gives the generic "Invalid TaprootAddress" error. A checksum exception is propagated verbatim. Any other FormatException becomes the generic error. Any other exception escapes unchanged |
| `TaprootAddressProperties.ValidateCatchClausesDoNotShadow` | NBitcoin/TaprootAddress.cs:55-56 | no clause catches a base class of a later clause's class: the checksum clause comes before the FormatException clause, as C#'s rule against unreachable catch clauses demands |
| `TaprootAddressProperties.SwappedCatchOrderSwallowsChecksumErrors` | NBitcoin/TaprootAddress.cs:55-56 | with the two clauses swapped, every checksum exception would be swallowed, and the swapped order breaks C#'s rule |
| `TaprootAddressProperties.GenericErrorIsNotChecksumError` | NBitcoin/TaprootAddress.cs:55-62 | the generic error is a FormatException but not a checksum exception, so callers can tell the two apart |
| `TaprootAddressProperties.ChecksumErrorsComeFromTheDecoder` | NBitcoin/TaprootAddress.cs:44-62 | a checksum-class error from Validate is exactly the exception the Taproot decoder threw |
| `TaprootAddresses.FromText` | NBitcoin/TaprootAddress.cs:15-28 | validation runs first, and its error is the constructor's error. On a Taproot text, construction succeeds exactly when the key parser accepts the decoded program; otherwise it fails with the generic error. A constructed address keeps the input text and network, and satisfies the invariant: its text decodes to a version 1, 32-byte program whose parsed key is the stored key. The not-supported error is only ever reported by validation |
| `TaprootAddressProperties.FromTextIsValidateThenFromBytes` | NBitcoin/TaprootAddress.cs:15-35 | once validation has passed, the text constructor has the same outcome as the trusted byte constructor applied to the validated program: the second lookup and decode change nothing, and the not-supported branch after validation is never taken |
| `TaprootAddresses.FromBytes` | NBitcoin/TaprootAddress.cs:29-35 | succeeds exactly when the key parser accepts the given bytes, storing the given text, network and the parsed key; otherwise fails with the generic error |
| `TaprootAddresses.NotNull` | NBitcoin/TaprootAddress.cs:71-76 | throws the argument-null error exactly on a null key, and otherwise yields null, so the `??` always evaluates its right operand |
| `TaprootAddresses.FromPubKey` | NBitcoin/TaprootAddress.cs:65-69 | a null key is an argument-null error. Otherwise construction succeeds exactly when the network has a witness-pubkey encoder (the not-supported error when it has none). The address stores exactly the given key and network, and its text is that encoder's output for witness version 0 and the key's bytes |
| `TaprootAddresses.VerifyMessageText` | NBitcoin/TaprootAddress.cs:78-86 | a null message is rejected before a null signature. Otherwise the result is true exactly when the recovered key equals the stored key, and a recovery exception propagates |
| `TaprootAddresses.VerifyMessageBytes` | NBitcoin/TaprootAddress.cs:88-92 | the arguments, null or not, go straight to recovery. The result is true exactly when the recovered key equals the stored key, and a recovery exception propagates |
| `TaprootAddressProperties.VerifiedKeysAgree` | NBitcoin/TaprootAddress.cs:78-86 | two addresses that both accept one message and signature hold the same key, and so the same payment script |
| `TaprootAddresses.GeneratePaymentScript` | NBitcoin/TaprootAddress.cs:104-107 | the script's version opcode stands for witness version 1, and its program is the stored key's bytes |
| `TaprootAddresses.Type` | NBitcoin/TaprootAddress.cs:109-115 | every address reports the Taproot address kind, whichever constructor built it |
| `TaprootAddressProperties.VerifyMessageBytesChecksTextKey` | NBitcoin/TaprootAddress.cs:88-92 | on an address built from text, the byte overload accepts exactly when recovery yields the key parsed from the text's program |
| `TaprootAddressProperties.PaymentScriptMatchesText` | NBitcoin/TaprootAddress.cs:104-107 | for an address built from text, the script's version opcode (OP_1) stands for the text's witness version, and its program is the serialization of the key parsed from the text |
| `TaprootAddressProperties.PaymentScriptDependsOnlyOnKey` | NBitcoin/TaprootAddress.cs:94-107 | two addresses have the same payment script exactly when they hold the same key, whatever their text and network |
| `PubKeyConstructor.AsWrittenTextIsNotTaproot` | NBitcoin/TaprootAddress.cs:65-69 | when the Taproot decoder reads back the witness encoder's text faithfully, the public-key constructor's text decodes to version 0. So it is not a Taproot text, and constructing from it fails with the generic error, although the address reports the Taproot kind |
| `PubKeyConstructor.AsWrittenRoundTripFails` | NBitcoin/TaprootAddress.cs:65-69 | on a network whose address kinds share one faithful codec, the all-zero key's address text does not parse back into an address |
| `PubKeyConstructor.FromPubKeyIntended` | NBitcoin/TaprootAddress.cs:65-69 | the corrected constructor: same null check, text encoded with the Taproot encoder and witness version 1 |
| `PubKeyConstructor.IntendedRoundTrip` | NBitcoin/TaprootAddress.cs:15-28 | under a Taproot codec that decodes what it encodes, for a 32-byte key the parser maps back to itself: the corrected constructor's address is well formed, and its text parses back to the same key and text |
| `PubKeyConstructor.IntendedRoundTripOnToyNetwork` | NBitcoin/TaprootAddress.cs:65-69 | the corrected round trip holds on the concrete toy network for every key the parser maps back to itself |

## Findings

| source | as written | input that shows it | evidently intended | confidence | as-written member | corrected member |
|---|---|---|---|---|---|---|
| NBitcoin/TaprootAddress.cs:66 | the public-key constructor encodes with `Bech32Type.WITNESS_PUBKEY_ADDRESS` and witness version 0 | any non-null key on a network whose witness-pubkey and Taproot encoders share a prefix, such as the all-zero key on `ToyNetwork`: the text decodes to version 0, so `new TaprootAddress(text, network)` throws "Invalid TaprootAddress" | encode with `Bech32Type.TAPROOT_ADDRESS` and witness version 1, so that the text parses back to the key | high (not executed) | `PubKeyConstructor.AsWrittenRoundTripFails` | `PubKeyConstructor.IntendedRoundTrip` |

`TaprootAddresses.FromPubKey` models line 66 as written. `PubKeyConstructor.FromPubKeyIntended` is the corrected constructor. The remaining operations (verification, payment script) work on any constructed address, so they apply to both. The
invariant "the text decodes to version 1 and the key's program" (`TaprootAddresses.WellFormed`)
holds for addresses built from text. It holds for the corrected public-key constructor under the
hypotheses of `IntendedRoundTrip`, and it fails for the constructor as written.

## Left out

- Bech32 and Bech32m checksums and character conversion (BIP 173, BIP 350) live in the encoder. The model treats decode and encode as arbitrary functions: decode returns a version and program or throws.
- x-only key validation (BIP 340) and `new PubKey(ECXOnlyPubKey)` are secp256k1 arithmetic in a foreign library. So is signature recovery. All are arbitrary functions.
- `GetBech32Encoder`, `Bech32NotSupported` and `CreateBech32` are not part of this model. They are assumed to be an encoder lookup, a NotSupportedException naming the address kind, and lookup-then-encode that throws that exception when the encoder is missing. Exception message texts other than parameter names are not modelled.
- FromBytes: takes a non-null key array. C# would turn a null array into an empty span at the call to the key parser, so a null key would behave like the empty sequence; this is not modelled.
- FromBytes, FromPubKey: take a non-null network, and FromBytes a non-null text; the base class `BitcoinAddress`, which receives and checks these arguments, is not part of this model.
- VerifyMessageText, VerifyMessageBytes: the text and byte recovery functions are independent of each other, so the model does not promise that the two overloads agree on corresponding arguments (the text-to-bytes conversion is inside the recovery code, which is not part of this model). Recovery is assumed to return a key or throw, never null. A recovery exception propagates, as in the code. This is weaker than a reading that verification never throws on a bad signature.
- `GeneratePaymentScript` yields the abstract pair (version opcode, program). The script classes are not part of this model, so neither is its byte serialization (`0x51 0x20` followed by the key).
- `PubKey` is modelled by its serialization, so `ToBytes()` and `ToBytes(true)` (which only skips a copy) give the same bytes, and `==` compares them.
- The `BitcoinAddress` base class, the `IBech32Data`/`IPubkeyHashUsable` interfaces, and the `#if HAS_SPAN` / `#nullable` scaffolding have no logic in this class.
- The text constructor's second decode is modelled as written. It returns the same outcome as the first, because decoding is a function of the text (`FromTextIsValidateThenFromBytes`).
