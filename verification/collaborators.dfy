/**
  What the Taproot address uses but does not implement: the network's Bech32
  encoders, the x-only key parser, the public-key type and message-signature
  recovery. Each is a function-valued field, so every property proved about the
  address holds for every behaviour of these collaborators.
 */
module Collaborators {
  import opened Wrappers
  import opened Exceptions

  newtype byte = b: int | 0 <= b < 256

  /** The Bech32 address kinds a network may carry an encoder for. */
  datatype Bech32Type = WitnessPubKey | WitnessScript | Taproot

  /** What `Bech32Encoder.Decode(text, out witVersion)` does: return the program, or throw. */
  datatype DecodeOutcome = Decoded(witVersion: byte, data: seq<byte>) | DecodeThrew(exc: Exc)

  /** A Bech32 encoder for one human-readable prefix; the checksum algorithms live inside. */
  datatype Bech32Encoder = Bech32Encoder(
    decode: string -> DecodeOutcome,
    encode: (byte, seq<byte>) -> string)

  /** Chain parameters, reduced to what the address looks up: its Bech32 encoders. */
  datatype Network = Network(name: string, bech32Encoders: Bech32Type -> Option<Bech32Encoder>)

  /** `network.GetBech32Encoder(type, false)`: the encoder, or null when there is none. */
  function GetBech32Encoder(network: Network, t: Bech32Type): Option<Bech32Encoder>
  {
    network.bech32Encoders(t)
  }

  function Bech32TypeName(t: Bech32Type): string
  {
    match t
    case WitnessPubKey => "WITNESS_PUBKEY_ADDRESS"
    case WitnessScript => "WITNESS_SCRIPT_ADDRESS"
    case Taproot => "TAPROOT_ADDRESS"
  }

  /** `network.Bech32NotSupported(type)`: the exception for a missing encoder. */
  function Bech32NotSupported(t: Bech32Type): Exc
  {
    Exc(NotSupportedExceptionClass, Bech32TypeName(t))
  }

  /** `Network.CreateBech32(type, program, witVersion, network)`: look the encoder up and encode. */
  function CreateBech32(t: Bech32Type, program: seq<byte>, witVersion: byte, network: Network)
    : Result<string, Exc>
  {
    match GetBech32Encoder(network, t)
    case None => Failure(Bech32NotSupported(t))
    case Some(encoder) => Success(encoder.encode(witVersion, program))
  }

  /** A BIP 340 x-only public key, as produced by the key parser. */
  datatype XOnlyPubKey = XOnlyPubKey(x: seq<byte>)

  /**
    A public key, identified by its serialization. `ToBytes()` and `ToBytes(true)`
    both yield `bytes` (the flag only skips a defensive copy), and `==` on public
    keys compares these bytes.
   */
  datatype PubKey = PubKey(bytes: seq<byte>)

  /** The elliptic-curve primitives of the secp256k1 library. */
  datatype KeyPrimitives = KeyPrimitives(
    // `ECXOnlyPubKey.TryCreate`: accepts the bytes of a valid x-only key
    tryCreateXOnly: seq<byte> -> Option<XOnlyPubKey>,
    // `new PubKey(ECXOnlyPubKey)`
    pubKeyOf: XOnlyPubKey -> PubKey,
    // `PubKey.RecoverFromMessage(string, string)`
    recoverFromText: (string, string) -> Result<PubKey, Exc>,
    // `PubKey.RecoverFromMessage(byte[], byte[])`, which receives null arguments as they are
    recoverFromBytes: (Option<seq<byte>>, Option<seq<byte>>) -> Result<PubKey, Exc>)
}
