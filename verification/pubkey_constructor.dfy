/**
  The public-key constructor encodes its text with the witness-pubkey address kind
  and witness version 0, although the class is the version 1 Taproot address. Here:
  the consequence for the constructor as written, a concrete network that exhibits
  it, and the constructor with the Taproot kind and version 1, whose text parses
  back to the key it was built from.
 */
module PubKeyConstructor {
  import opened Wrappers
  import opened Exceptions
  import opened Collaborators
  import opened TaprootAddresses

  /**
    When the Taproot decoder reads the witness encoder's text back faithfully (both
    encoders share one prefix), the as-written constructor's text is rejected by
    `Validate` with the generic error, although the address reports the Taproot kind.
   */
  lemma AsWrittenTextIsNotTaproot(pubKey: PubKey, network: Network, keys: KeyPrimitives)
    requires GetBech32Encoder(network, WitnessPubKey).Some? && GetBech32Encoder(network, Taproot).Some?
    requires GetBech32Encoder(network, Taproot).value.decode(
               GetBech32Encoder(network, WitnessPubKey).value.encode(0, pubKey.bytes))
             == Decoded(0, pubKey.bytes)
    ensures FromPubKey(Some(pubKey), network).Success?
    ensures Type(FromPubKey(Some(pubKey), network).value) == Taproot
    ensures !IsTaprootText(network, FromPubKey(Some(pubKey), network).value.text)
    ensures var reparsed := FromText(Some(FromPubKey(Some(pubKey), network).value.text), Some(network), keys);
            reparsed.Failure? && reparsed.error == InvalidTaprootAddress
  {
  }

  /** A toy Bech32-like codec: the version as one character, then one character per byte. */
  function ToyEncode(witVersion: byte, program: seq<byte>): (text: string)
    ensures |text| == 1 + |program|
  {
    [witVersion as int as char] + seq(|program|, i requires 0 <= i < |program| => program[i] as int as char)
  }

  function ToyDecode(text: string): DecodeOutcome
  {
    if |text| == 0 then DecodeThrew(Exc(Bech32FormatExceptionClass, "empty"))
    else
      var chars := text[1..];
      Decoded((text[0] as int % 256) as byte,
              seq(|chars|, i requires 0 <= i < |chars| => (chars[i] as int % 256) as byte))
  }

  /** The toy codec decodes what it encodes. */
  lemma ToyRoundTrip(witVersion: byte, program: seq<byte>)
    ensures ToyDecode(ToyEncode(witVersion, program)) == Decoded(witVersion, program)
  {
  }

  const ToyEncoder := Bech32Encoder(ToyDecode, ToyEncode)

  /** A network whose every address kind shares the toy codec, as mainnet's share the `bc` prefix. */
  const ToyNetwork := Network("toy", t => Some(ToyEncoder))

  /** An all-zero 32-byte key serialization. */
  const ZeroKey := PubKey(seq(32, i => 0 as byte))

  /** On the toy network, the as-written constructor's text does not parse back into an address. */
  lemma AsWrittenRoundTripFails(keys: KeyPrimitives)
    ensures FromPubKey(Some(ZeroKey), ToyNetwork).Success?
    ensures FromText(Some(FromPubKey(Some(ZeroKey), ToyNetwork).value.text), Some(ToyNetwork), keys).Failure?
  {
  }

  /** The public-key constructor with the Taproot address kind and witness version 1. */
  function FromPubKeyIntended(pubKey: Option<PubKey>, network: Network): (r: Result<TaprootAddress, Exc>)
    ensures pubKey.None? ==> r.Failure? && r.error == ArgumentNull("pubKey")
    ensures pubKey.Some? ==> (r.Success? <==> GetBech32Encoder(network, Taproot).Some?)
    ensures pubKey.Some? && r.Failure? ==> r.error == Bech32NotSupported(Taproot)
    ensures r.Success? ==>
              && r.value.pubKey == pubKey.value
              && r.value.network == network
              && r.value.text == GetBech32Encoder(network, Taproot).value.encode(1, pubKey.value.bytes)
  {
    match NotNull(pubKey)
    case Failure(e) => Failure(e)
    case Success(_) =>
      match CreateBech32(Taproot, pubKey.value.bytes, 1, network)
      case Failure(e) => Failure(e)
      case Success(text) => Success(TaprootAddress(text, network, pubKey.value))
  }

  /**
    Round trip of the corrected constructor: for a 32-byte key the parser accepts
    and maps back to itself, under a Taproot codec that decodes what it encodes,
    the address is well formed and its text parses back to the same key.
   */
  lemma IntendedRoundTrip(pubKey: PubKey, network: Network, keys: KeyPrimitives)
    requires GetBech32Encoder(network, Taproot).Some?
    requires GetBech32Encoder(network, Taproot).value.decode(
               GetBech32Encoder(network, Taproot).value.encode(1, pubKey.bytes))
             == Decoded(1, pubKey.bytes)
    requires |pubKey.bytes| == 32
    requires keys.tryCreateXOnly(pubKey.bytes).Some?
    requires keys.pubKeyOf(keys.tryCreateXOnly(pubKey.bytes).value) == pubKey
    ensures FromPubKeyIntended(Some(pubKey), network).Success?
    ensures WellFormed(FromPubKeyIntended(Some(pubKey), network).value, keys)
    ensures var reparsed := FromText(Some(FromPubKeyIntended(Some(pubKey), network).value.text), Some(network), keys);
            && reparsed.Success?
            && reparsed.value.pubKey == pubKey
            && reparsed.value.text == FromPubKeyIntended(Some(pubKey), network).value.text
  {
  }

  /** On the toy network, the corrected constructor round-trips every key the parser maps back to itself. */
  lemma IntendedRoundTripOnToyNetwork(pubKey: PubKey, keys: KeyPrimitives)
    requires |pubKey.bytes| == 32
    requires keys.tryCreateXOnly(pubKey.bytes).Some?
    requires keys.pubKeyOf(keys.tryCreateXOnly(pubKey.bytes).value) == pubKey
    ensures var reparsed := FromText(Some(FromPubKeyIntended(Some(pubKey), ToyNetwork).value.text), Some(ToyNetwork), keys);
            reparsed.Success? && reparsed.value.pubKey == pubKey
  {
    ToyRoundTrip(1, pubKey.bytes);
    IntendedRoundTrip(pubKey, ToyNetwork, keys);
  }
}
