/**
  Constructors of the node classes the modelled code instantiates but whose
  own source is not part of this model: the `Algorithm` and `Property` base
  classes, the integer and text properties, the Encrypt/Decrypt/Unknown
  markers and the named algorithms the mappers return. Each is reduced to
  the fields the modelled code relies on; the kinds and names chosen here
  are stated in the README.
 */
module Primitives {
  import opened JavaText
  import opened Nodes

  /** `new Algorithm(name, kind, location)` as a subclass `cls` implementing `capabilities`. */
  function AlgorithmNode(cls: string, name: string, kind: Kind, capabilities: set<Kind>, loc: Location): Node {
    Node(cls, kind, name, NoValue, capabilities, map[], loc)
  }

  /** A `Property` subclass holding a Java `int` (BlockSize, DigestSize, ...). */
  function IntProperty(cls: string, kind: Kind, v: Int32, loc: Location): (n: Node)
    ensures n.kind == kind && n.value == IntValue(v) && n.children == map[]
  {
    Node(cls, kind, cls, IntValue(v), {}, map[], loc)
  }

  /** A `Property` subclass holding a string (Mode, Version, ParameterSetIdentifier). */
  function TextProperty(cls: string, kind: Kind, text: string, loc: Location): Node {
    Node(cls, kind, cls, TextValue(text), {}, map[], loc)
  }

  function BlockSizeNode(v: Int32, loc: Location): (n: Node)
    ensures n.kind == BlockSize && n.value == IntValue(v) && n.children == map[]
  {
    IntProperty("BlockSize", BlockSize, v, loc)
  }

  function DigestSizeNode(v: Int32, loc: Location): (n: Node)
    ensures n.kind == DigestSize && n.value == IntValue(v) && n.children == map[]
  {
    IntProperty("DigestSize", DigestSize, v, loc)
  }

  function KeyLengthNode(v: Int32, loc: Location): (n: Node)
    ensures n.kind == KeyLength && n.value == IntValue(v) && n.children == map[]
  {
    IntProperty("KeyLength", KeyLength, v, loc)
  }

  function NumberOfIterationsNode(v: Int32, loc: Location): (n: Node)
    ensures n.kind == NumberOfIterations && n.value == IntValue(v) && n.children == map[]
  {
    IntProperty("NumberOfIterations", NumberOfIterations, v, loc)
  }

  function InitializationVectorLengthNode(v: Int32, loc: Location): (n: Node)
    ensures n.kind == InitializationVectorLength && n.value == IntValue(v) && n.children == map[]
  {
    IntProperty("InitializationVectorLength", InitializationVectorLength, v, loc)
  }

  function ParameterSetIdentifierNode(text: string, loc: Location): Node {
    TextProperty("ParameterSetIdentifier", ParameterSetIdentifier, text, loc)
  }

  function VersionNode(text: string, loc: Location): Node {
    TextProperty("Version", Version, text, loc)
  }

  function ModeNode(text: string, loc: Location): Node {
    TextProperty("Mode", Mode, text, loc)
  }

  function EncryptNode(loc: Location): Node {
    Node("Encrypt", Encrypt, "ENCRYPT", NoValue, {}, map[], loc)
  }

  function DecryptNode(loc: Location): Node {
    Node("Decrypt", Decrypt, "DECRYPT", NoValue, {}, map[], loc)
  }

  function UnknownNode(loc: Location): Node {
    Node("Unknown", Unknown, "Unknown", NoValue, {}, map[], loc)
  }

  function ThreefishNode(loc: Location): Node {
    AlgorithmNode("Threefish", "Threefish", BlockCipher, {BlockCipher}, loc)
  }

  function Md5Node(loc: Location): Node {
    AlgorithmNode("MD5", "MD5", MessageDigest, {MessageDigest}, loc)
  }

  /** PBES1, PBES2 and PKCS12PBE: password-based encryption schemes. */
  function PbeNode(cls: string, loc: Location): Node {
    AlgorithmNode(cls, cls, PasswordBasedEncryption, {PasswordBasedEncryption}, loc)
  }

  /** ECDH, X25519, X448 and XDH: key-agreement algorithms. */
  function KeyAgreementNode(cls: string, loc: Location): Node {
    AlgorithmNode(cls, cls, KeyAgreement, {KeyAgreement}, loc)
  }

  /** `new MLKEM(parameterSet, location)`: ML-KEM tagged with its parameter set. */
  function MlkemNode(parameterSet: Int32, loc: Location): Node {
    Put(AlgorithmNode("MLKEM", "ML-KEM", KeyEncapsulationMechanism, {KeyEncapsulationMechanism}, loc),
        ParameterSetIdentifierNode(DecimalString(parameterSet as int), loc))
  }
}
