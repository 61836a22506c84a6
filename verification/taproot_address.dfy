/**
  NBitcoin's `TaprootAddress`: a segwit version 1 address whose Bech32 text
  carries a 32-byte x-only public key. The class's constructors, its `Validate`
  check, message verification and payment-script generation, with exceptions
  replaced by `Result` values.
 */
module TaprootAddresses {
  import opened Wrappers
  import opened Exceptions
  import opened Collaborators

  /** A constructed address: the text the base class stores, its network and its key. */
  datatype TaprootAddress = TaprootAddress(text: string, network: Network, pubKey: PubKey)

  /** The `Type` getter: every instance reports the Taproot address kind. */
  function Type(address: TaprootAddress): (t: Bech32Type)
    ensures t == Taproot
  {
    Taproot
  }

  /** `new ArgumentNullException(paramName)` */
  function ArgumentNull(paramName: string): Exc
  {
    Exc(ArgumentNullExceptionClass, paramName)
  }

  /** The one generic error every non-checksum rejection collapses into. */
  const InvalidTaprootAddress := Exc(FormatExceptionClass, "Invalid TaprootAddress")

  /** The text decodes, under the network's Taproot encoder, to a version 1, 32-byte program. */
  predicate IsTaprootText(network: Network, text: string)
  {
    match GetBech32Encoder(network, Taproot)
    case None => false
    case Some(encoder) =>
      var decoded := encoder.decode(text);
      decoded.Decoded? && decoded.witVersion == 1 && |decoded.data| == 32
  }

  /** The 32-byte witness program of a Taproot text. */
  function TaprootProgram(network: Network, text: string): (program: seq<byte>)
    requires IsTaprootText(network, text)
    ensures |program| == 32
  {
    GetBech32Encoder(network, Taproot).value.decode(text).data
  }

  /**
    The invariant of an address built from text: its text is a Taproot text whose
    program the key parser accepts, and the stored key is the key parsed from it.
   */
  predicate WellFormed(address: TaprootAddress, keys: KeyPrimitives)
  {
    && IsTaprootText(address.network, address.text)
    && var parsed := keys.tryCreateXOnly(TaprootProgram(address.network, address.text));
    && parsed.Some?
    && address.pubKey == keys.pubKeyOf(parsed.value)
  }

  /** The catch clauses of `Validate`'s try statement, in source order. */
  const ValidateCatchClauses :=
    [Catch(Bech32FormatExceptionClass, Rethrow), Catch(FormatExceptionClass, Swallow)]

  /** How `Validate`'s catch clauses handle each kind of exception the decoder may throw. */
  lemma ValidateCatchClausesSelect(c: ExcClass)
    ensures IsA(c, Bech32FormatExceptionClass) ==> SelectClause(ValidateCatchClauses, c) == Some(0)
    ensures !IsA(c, Bech32FormatExceptionClass) && IsA(c, FormatExceptionClass) ==>
              SelectClause(ValidateCatchClauses, c) == Some(1)
    ensures !IsA(c, FormatExceptionClass) ==> SelectClause(ValidateCatchClauses, c).None?
  {
    assert IsA(Bech32FormatExceptionClass, FormatExceptionClass);
    if IsA(c, Bech32FormatExceptionClass) && !IsA(c, FormatExceptionClass) {
      IsATransitive(c, Bech32FormatExceptionClass, FormatExceptionClass);
    }
  }

  /** The try block of `Validate`: return the text on a version 1, 32-byte program. */
  function ValidateTryBlock(decoded: DecodeOutcome, bech32: string): Completion
  {
    match decoded
    case Decoded(witVersion, data) =>
      if |data| == 32 && witVersion == 1 then Returned(bech32) else FellThrough
    case DecodeThrew(e) => Threw(e)
  }

  /** `TaprootAddress.Validate(bech32, expectedNetwork)`. */
  function Validate(bech32: Option<string>, expectedNetwork: Option<Network>): (r: Result<string, Exc>)
    // null text is reported before a null network
    ensures bech32.None? ==> r == Failure(ArgumentNull("bech32"))
    ensures bech32.Some? && expectedNetwork.None? ==> r == Failure(ArgumentNull("expectedNetwork"))
    ensures bech32.Some? && expectedNetwork.Some? && GetBech32Encoder(expectedNetwork.value, Taproot).None? ==>
              r == Failure(Bech32NotSupported(Taproot))
    // accepted exactly when the text is a Taproot text, and then returned unchanged
    ensures r.Success? <==> bech32.Some? && expectedNetwork.Some? && IsTaprootText(expectedNetwork.value, bech32.value)
    ensures r.Success? ==> r.value == bech32.value
    // the error taxonomy once the decoder has run
    ensures bech32.Some? && expectedNetwork.Some? && GetBech32Encoder(expectedNetwork.value, Taproot).Some? ==>
              var decoded := GetBech32Encoder(expectedNetwork.value, Taproot).value.decode(bech32.value);
              && (decoded.Decoded? && (decoded.witVersion != 1 || |decoded.data| != 32) ==>
                    r == Failure(InvalidTaprootAddress))
              && (decoded.DecodeThrew? && IsA(decoded.exc.cls, Bech32FormatExceptionClass) ==>
                    r == Failure(decoded.exc))
              && (decoded.DecodeThrew? && IsA(decoded.exc.cls, FormatExceptionClass)
                  && !IsA(decoded.exc.cls, Bech32FormatExceptionClass) ==>
                    r == Failure(InvalidTaprootAddress))
              && (decoded.DecodeThrew? && !IsA(decoded.exc.cls, FormatExceptionClass) ==>
                    r == Failure(decoded.exc))
  {
    if bech32.None? then Failure(ArgumentNull("bech32"))
    else if expectedNetwork.None? then Failure(ArgumentNull("expectedNetwork"))
    else match GetBech32Encoder(expectedNetwork.value, Taproot)
      case None => Failure(Bech32NotSupported(Taproot))
      case Some(encoder) =>
        var decoded := encoder.decode(bech32.value);
        var tryBlock := ValidateTryBlock(decoded, bech32.value);
        ValidateCatchClausesSelect(if decoded.DecodeThrew? then decoded.exc.cls else ExceptionClass);
        match RunCatchClauses(tryBlock, ValidateCatchClauses)
        case Returned(validated) => Success(validated)
        case Threw(e) => Failure(e)
        case FellThrough => Failure(InvalidTaprootAddress)
  }

  /**
    `new TaprootAddress(bech32, expectedNetwork)`: validate, then look the encoder
    up and decode again, then parse the program as an x-only key.
   */
  function FromText(bech32: Option<string>, expectedNetwork: Option<Network>, keys: KeyPrimitives)
    : (r: Result<TaprootAddress, Exc>)
    // validation runs first, and its error is the constructor's error
    ensures Validate(bech32, expectedNetwork).Failure? ==>
              r.Failure? && r.error == Validate(bech32, expectedNetwork).error
    // on a Taproot text, success depends on the key parser alone
    ensures Validate(bech32, expectedNetwork).Success? ==>
              && (r.Success? <==> keys.tryCreateXOnly(TaprootProgram(expectedNetwork.value, bech32.value)).Some?)
              && (r.Failure? ==> r.error == InvalidTaprootAddress)
    ensures r.Success? ==>
              && r.value.text == bech32.value
              && r.value.network == expectedNetwork.value
              && WellFormed(r.value, keys)
    // a missing encoder is only ever reported by Validate
    ensures r.Failure? && r.error == Bech32NotSupported(Taproot) ==> Validate(bech32, expectedNetwork).Failure?
  {
    match Validate(bech32, expectedNetwork)
    case Failure(e) => Failure(e)
    case Success(validated) =>
      var network := expectedNetwork.value;
      match GetBech32Encoder(network, Taproot)
      case None => Failure(Bech32NotSupported(Taproot))
      case Some(encoder) =>
        match encoder.decode(bech32.value)
        case DecodeThrew(e) => Failure(e)
        case Decoded(_, decoded) =>
          match keys.tryCreateXOnly(decoded)
          case Some(k) => Success(TaprootAddress(validated, network, keys.pubKeyOf(k)))
          case None => Failure(InvalidTaprootAddress)
  }

  /** The internal `new TaprootAddress(str, key, network)`: the caller vouches for `str`. */
  function FromBytes(str: string, key: seq<byte>, network: Network, keys: KeyPrimitives)
    : (r: Result<TaprootAddress, Exc>)
    ensures r.Success? <==> keys.tryCreateXOnly(key).Some?
    ensures r.Success? ==>
              && r.value.text == str
              && r.value.network == network
              && r.value.pubKey == keys.pubKeyOf(keys.tryCreateXOnly(key).value)
    ensures r.Failure? ==> r.error == InvalidTaprootAddress
  {
    match keys.tryCreateXOnly(key)
    case Some(k) => Success(TaprootAddress(str, network, keys.pubKeyOf(k)))
    case None => Failure(InvalidTaprootAddress)
  }

  /** `NotNull(pubKey)`: throws on null, and otherwise yields null. */
  function NotNull(pubKey: Option<PubKey>): (r: Result<Option<string>, Exc>)
    ensures r.Success? <==> pubKey.Some?
    ensures r.Success? ==> r.value.None?
    ensures r.Failure? ==> r.error == ArgumentNull("pubKey")
  {
    if pubKey.None? then Failure(ArgumentNull("pubKey")) else Success(None)
  }

  /**
    `new TaprootAddress(pubKey, network)`. The left operand of its `??` is
    `NotNull(pubKey)`, which never yields a string, so the text always comes from
    `CreateBech32`, which this constructor calls with the witness-pubkey address
    kind and witness version 0.
   */
  function FromPubKey(pubKey: Option<PubKey>, network: Network): (r: Result<TaprootAddress, Exc>)
    ensures pubKey.None? ==> r.Failure? && r.error == ArgumentNull("pubKey")
    ensures pubKey.Some? ==> (r.Success? <==> GetBech32Encoder(network, WitnessPubKey).Some?)
    ensures pubKey.Some? && r.Failure? ==> r.error == Bech32NotSupported(WitnessPubKey)
    ensures r.Success? ==>
              && r.value.pubKey == pubKey.value
              && r.value.network == network
              && r.value.text == GetBech32Encoder(network, WitnessPubKey).value.encode(0, pubKey.value.bytes)
  {
    match NotNull(pubKey)
    case Failure(e) => Failure(e)
    case Success(_) =>
      match CreateBech32(WitnessPubKey, pubKey.value.bytes, 0, network)
      case Failure(e) => Failure(e)
      case Success(text) => Success(TaprootAddress(text, network, pubKey.value))
  }

  /** `VerifyMessage(string message, string signature)`. */
  function VerifyMessageText(address: TaprootAddress, message: Option<string>, signature: Option<string>,
                             keys: KeyPrimitives): (r: Result<bool, Exc>)
    ensures message.None? ==> r == Failure(ArgumentNull("message"))
    ensures message.Some? && signature.None? ==> r == Failure(ArgumentNull("signature"))
    ensures message.Some? && signature.Some? ==>
              var recovered := keys.recoverFromText(message.value, signature.value);
              && (r.Success? <==> recovered.Success?)
              && (r.Success? ==> (r.value <==> recovered.value == address.pubKey))
              && (r.Failure? ==> r.error == recovered.error)
  {
    if message.None? then Failure(ArgumentNull("message"))
    else if signature.None? then Failure(ArgumentNull("signature"))
    else match keys.recoverFromText(message.value, signature.value)
      case Failure(e) => Failure(e)
      case Success(key) => Success(key == address.pubKey)
  }

  /** `VerifyMessage(byte[] message, byte[] signature)`: no checks before recovery. */
  function VerifyMessageBytes(address: TaprootAddress, message: Option<seq<byte>>, signature: Option<seq<byte>>,
                              keys: KeyPrimitives): (r: Result<bool, Exc>)
    ensures var recovered := keys.recoverFromBytes(message, signature);
            && (r.Success? <==> recovered.Success?)
            && (r.Success? ==> (r.value <==> recovered.value == address.pubKey))
            && (r.Failure? ==> r.error == recovered.error)
  {
    match keys.recoverFromBytes(message, signature)
    case Failure(e) => Failure(e)
    case Success(key) => Success(key == address.pubKey)
  }

  /** `OpcodeType.OP_1`, the opcode that pushes the number 1. */
  const OP_1: byte := 0x51

  /** A witness-program output script: a version opcode followed by a push of the program. */
  datatype Script = PayToWitness(versionOp: byte, program: seq<byte>)

  /** The witness version a version opcode stands for (OP_0, or OP_1 through OP_16). */
  function WitnessVersionOf(op: byte): Option<byte>
  {
    if op == 0 then Some(0)
    else if 0x51 <= op <= 0x60 then Some(op - 0x50)
    else None
  }

  /** `GeneratePaymentScript()`: the witness template applied to OP_1 and the stored key's bytes. */
  function GeneratePaymentScript(address: TaprootAddress): (s: Script)
    ensures WitnessVersionOf(s.versionOp) == Some(1)
    ensures s.program == address.pubKey.bytes
  {
    PayToWitness(OP_1, address.pubKey.bytes)
  }
}
