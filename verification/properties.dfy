/** Properties relating the Taproot address operations to each other. */
module TaprootAddressProperties {
  import opened Wrappers
  import opened Exceptions
  import opened Collaborators
  import opened TaprootAddresses

  /** C#'s order rule holds for `Validate`: the checksum clause is not shadowed by its base class. */
  lemma ValidateCatchClausesDoNotShadow()
    ensures NoShadowing(ValidateCatchClauses)
  {
  }

  /**
    With the two clauses of `Validate` swapped, every checksum exception would be
    swallowed by the FormatException clause, and the swapped order breaks C#'s rule.
   */
  lemma SwappedCatchOrderSwallowsChecksumErrors(e: Exc)
    requires IsA(e.cls, Bech32FormatExceptionClass)
    ensures RunCatchClauses(Threw(e), [ValidateCatchClauses[1], ValidateCatchClauses[0]]) == FellThrough
    ensures !NoShadowing([ValidateCatchClauses[1], ValidateCatchClauses[0]])
  {
    var swapped := [ValidateCatchClauses[1], ValidateCatchClauses[0]];
    assert IsA(swapped[1].cls, swapped[0].cls);
    IsATransitive(e.cls, Bech32FormatExceptionClass, FormatExceptionClass);
  }

  /** The generic error is not a checksum error, so callers can tell the two apart. */
  lemma GenericErrorIsNotChecksumError()
    ensures !IsA(InvalidTaprootAddress.cls, Bech32FormatExceptionClass)
    ensures IsA(InvalidTaprootAddress.cls, FormatExceptionClass)
  {
  }

  /**
    A checksum-class error out of `Validate` is exactly the exception the Taproot
    decoder threw; it never comes from the generic rejection.
   */
  lemma ChecksumErrorsComeFromTheDecoder(bech32: string, network: Network)
    requires Validate(Some(bech32), Some(network)).Failure?
    requires IsA(Validate(Some(bech32), Some(network)).error.cls, Bech32FormatExceptionClass)
    ensures GetBech32Encoder(network, Taproot).Some?
    ensures GetBech32Encoder(network, Taproot).value.decode(bech32)
            == DecodeThrew(Validate(Some(bech32), Some(network)).error)
  {
  }

  /** The outcomes of two constructions agree on success, text, key and error. */
  predicate SameOutcome(r1: Result<TaprootAddress, Exc>, r2: Result<TaprootAddress, Exc>)
  {
    && (r1.Success? <==> r2.Success?)
    && (r1.Success? && r2.Success? ==> r1.value.text == r2.value.text && r1.value.pubKey == r2.value.pubKey)
    && (r1.Failure? && r2.Failure? ==> r1.error == r2.error)
  }

  /**
    Constructing from text is validation followed by the trusted byte path on the
    validated program: the second encoder lookup and the second decode never change
    the outcome, so the not-supported branch after validation is never taken.
   */
  lemma FromTextIsValidateThenFromBytes(bech32: Option<string>, expectedNetwork: Option<Network>,
                                        keys: KeyPrimitives)
    ensures Validate(bech32, expectedNetwork).Success? ==>
              SameOutcome(FromText(bech32, expectedNetwork, keys),
                          FromBytes(bech32.value, TaprootProgram(expectedNetwork.value, bech32.value),
                                    expectedNetwork.value, keys))
  {
  }

  /**
    The payment script of an address built from text commits to that text: its
    version opcode stands for the text's witness version and its program is the
    serialization of the key parsed from the text's program.
   */
  lemma PaymentScriptMatchesText(address: TaprootAddress, keys: KeyPrimitives)
    requires WellFormed(address, keys)
    ensures WitnessVersionOf(GeneratePaymentScript(address).versionOp)
            == Some(GetBech32Encoder(address.network, Taproot).value.decode(address.text).witVersion)
    ensures GeneratePaymentScript(address).program
            == keys.pubKeyOf(keys.tryCreateXOnly(TaprootProgram(address.network, address.text)).value).bytes
  {
  }

  /** The payment script depends on the stored key alone, not on the text or network. */
  lemma PaymentScriptDependsOnlyOnKey(a: TaprootAddress, b: TaprootAddress)
    ensures GeneratePaymentScript(a) == GeneratePaymentScript(b) <==> a.pubKey == b.pubKey
  {
  }

  /** Addresses that both accept one message and signature hold the same key. */
  lemma VerifiedKeysAgree(a: TaprootAddress, b: TaprootAddress, message: string, signature: string,
                          keys: KeyPrimitives)
    requires VerifyMessageText(a, Some(message), Some(signature), keys) == Success(true)
    requires VerifyMessageText(b, Some(message), Some(signature), keys) == Success(true)
    ensures a.pubKey == b.pubKey
    ensures GeneratePaymentScript(a) == GeneratePaymentScript(b)
  {
  }

  /**
    On an address built from text, the byte overload of message verification
    accepts exactly when recovery yields the key parsed from the text's program.
   */
  lemma VerifyMessageBytesChecksTextKey(address: TaprootAddress, message: Option<seq<byte>>,
                                        signature: Option<seq<byte>>, keys: KeyPrimitives)
    requires WellFormed(address, keys)
    ensures var textKey := keys.pubKeyOf(keys.tryCreateXOnly(TaprootProgram(address.network, address.text)).value);
            VerifyMessageBytes(address, message, signature, keys) == Success(true)
            <==> keys.recoverFromBytes(message, signature) == Success(textKey)
  {
  }
}
