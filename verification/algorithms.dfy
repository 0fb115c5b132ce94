/**
  Named algorithm nodes whose constructors attach fixed children: Skein,
  SPHINCS, KangarooTwelve, Xoodyak, Naccache-Stern, SM4 and ISAP-A-128.
 */
module Algorithms {
  import opened JavaText
  import opened Nodes
  import opened Primitives

  // ---------------------------------------------------------------------
  // Skein
  // ---------------------------------------------------------------------

  /** Skein's Threefish round count for a block size, if it has a fixed one. */
  function SkeinRounds(blockSize: Int32): Option<Int32> {
    if blockSize == 256 || blockSize == 512 then Some(72)
    else if blockSize == 1024 then Some(80)
    else None
  }

  /** `new Skein(location)`: a MessageDigest built on Threefish. */
  function Skein(loc: Location): (r: Node)
    ensures r.name == "Skein" && r.kind == MessageDigest && r.cls == "Skein"
    ensures r.children.Keys == {BlockCipher}
    ensures r.children[BlockCipher] == ThreefishNode(loc)
  {
    Put(AlgorithmNode("Skein", "Skein", MessageDigest, {MessageDigest}, loc), ThreefishNode(loc))
  }

  /** `new Skein(blockSize, location)`: adds the block size and, for the
      block sizes Skein defines, the Threefish round count. */
  function SkeinWithBlockSize(blockSize: Int32, loc: Location): (r: Node)
    ensures r.name == "Skein" && r.kind == MessageDigest && r.cls == "Skein"
    ensures BlockSize in r.children && r.children[BlockSize] == BlockSizeNode(blockSize, loc)
    ensures BlockCipher in r.children && r.children[BlockCipher] == ThreefishNode(loc)
    ensures NumberOfIterations in r.children <==> blockSize == 256 || blockSize == 512 || blockSize == 1024
    ensures (blockSize == 256 || blockSize == 512) ==> r.children[NumberOfIterations] == NumberOfIterationsNode(72, loc)
    ensures blockSize == 1024 ==> r.children[NumberOfIterations] == NumberOfIterationsNode(80, loc)
    ensures r.children.Keys <= {BlockCipher, BlockSize, NumberOfIterations}
  {
    var withBlockSize := Put(Skein(loc), BlockSizeNode(blockSize, loc));
    match SkeinRounds(blockSize)
    case Some(rounds) => Put(withBlockSize, NumberOfIterationsNode(rounds, loc))
    case None => withBlockSize
  }

  /** `new Skein(blockSize, digestSize, location)`: the block-size node
      plus the digest size; nothing it had is lost. */
  function SkeinWithDigestSize(blockSize: Int32, digestSize: Int32, loc: Location): (r: Node)
    ensures r.name == "Skein" && r.kind == MessageDigest
    ensures DigestSize in r.children && r.children[DigestSize] == DigestSizeNode(digestSize, loc)
    ensures BlockCipher in r.children && r.children[BlockCipher] == ThreefishNode(loc)
    ensures r.children.Keys == SkeinWithBlockSize(blockSize, loc).children.Keys + {DigestSize}
  {
    Put(SkeinWithBlockSize(blockSize, loc), DigestSizeNode(digestSize, loc))
  }

  /** Every Skein constructor stores each child under its own kind. */
  lemma SkeinWellFormed(blockSize: Int32, digestSize: Int32, loc: Location)
    ensures WellFormed(Skein(loc))
    ensures WellFormed(SkeinWithBlockSize(blockSize, loc))
    ensures WellFormed(SkeinWithDigestSize(blockSize, digestSize, loc))
  {
    SkeinBaseWellFormed(loc);
    SkeinBlockSizeWellFormed(blockSize, loc);
    var b := SkeinWithBlockSize(blockSize, loc);
    var d := DigestSizeNode(digestSize, loc);
    LeafWellFormed(d);
    PutPreservesWellFormed(b, d);
  }

  lemma SkeinBaseWellFormed(loc: Location)
    ensures WellFormed(Skein(loc))
  {
    var base := AlgorithmNode("Skein", "Skein", MessageDigest, {MessageDigest}, loc);
    var threefish := ThreefishNode(loc);
    LeafWellFormed(base);
    LeafWellFormed(threefish);
    PutPreservesWellFormed(base, threefish);
  }

  lemma SkeinBlockSizeWellFormed(blockSize: Int32, loc: Location)
    ensures WellFormed(SkeinWithBlockSize(blockSize, loc))
  {
    var s := Skein(loc);
    var size := BlockSizeNode(blockSize, loc);
    SkeinBaseWellFormed(loc);
    LeafWellFormed(size);
    PutPreservesWellFormed(s, size);
    var withBlockSize := Put(s, size);
    if rounds :| SkeinRounds(blockSize) == Some(rounds) {
      var iterations := NumberOfIterationsNode(rounds, loc);
      LeafWellFormed(iterations);
      PutPreservesWellFormed(withBlockSize, iterations);
    }
  }

  /** Adding the digest size keeps every child of the block-size node. */
  lemma SkeinDigestSizeKeepsBlockSizeChildren(blockSize: Int32, digestSize: Int32, loc: Location, k: Kind)
    requires k in SkeinWithBlockSize(blockSize, loc).children
    ensures k != DigestSize
    ensures SkeinWithDigestSize(blockSize, digestSize, loc).children[k] == SkeinWithBlockSize(blockSize, loc).children[k]
  {
    var b := SkeinWithBlockSize(blockSize, loc);
    assert k in {BlockCipher, BlockSize, NumberOfIterations};
    assert SkeinWithDigestSize(blockSize, digestSize, loc) == Put(b, DigestSizeNode(digestSize, loc));
  }

  /** `new Skein(asKind, skein)`: the same Skein under another kind. */
  function SkeinAsKind(asKind: Kind, skein: Node): (r: Node)
    requires skein.cls == "Skein"
    ensures r.kind == asKind && r.cls == "Skein"
    ensures r.(kind := skein.kind) == skein
  {
    skein.(kind := asKind)
  }

  // ---------------------------------------------------------------------
  // SPHINCS
  // ---------------------------------------------------------------------

  /** `new SPHINCS(location)`. */
  function Sphincs(loc: Location): (r: Node)
    ensures r.name == "SPHINCS" && r.kind == Signature && r.children == map[]
  {
    AlgorithmNode("SPHINCS", "SPHINCS", Signature, {Signature}, loc)
  }

  /** `new SPHINCS(parameterSetIdentifier, location)`: records the parameter
      set as its decimal string. */
  function SphincsWithParameterSet(p: Int32, loc: Location): (r: Node)
    ensures r.name == "SPHINCS" && r.kind == Signature
    ensures r.children.Keys == {ParameterSetIdentifier}
    ensures ParseInt(AsString(r.children[ParameterSetIdentifier])) == Some(p)
    ensures WellFormed(r)
  {
    ParseIntOfDecimalString(p);
    Put(Sphincs(loc), ParameterSetIdentifierNode(DecimalString(p as int), loc))
  }

  /** SPHINCS's `asString()`: the name, followed by "-" and the parameter
      set when the node has one. */
  function SphincsAsString(n: Node): (s: string)
    ensures ParameterSetIdentifier !in n.children ==> s == n.name
    ensures ParameterSetIdentifier in n.children ==> s == n.name + "-" + AsString(n.children[ParameterSetIdentifier])
  {
    match GetChild(n, ParameterSetIdentifier)
    case Some(p) => n.name + "-" + AsString(p)
    case None => n.name
  }

  /** The int constructor renders as "SPHINCS-" followed by the parameter
      set, and the text after the dash reads back as that parameter set. */
  lemma SphincsRendering(p: Int32, loc: Location)
    ensures SphincsAsString(SphincsWithParameterSet(p, loc)) == "SPHINCS-" + DecimalString(p as int)
    ensures SphincsAsString(Sphincs(loc)) == "SPHINCS"
    ensures var s := SphincsAsString(SphincsWithParameterSet(p, loc));
            |s| > 8 && ParseInt(s[8..]) == Some(p)
  {
    var s := SphincsAsString(SphincsWithParameterSet(p, loc));
    assert s[8..] == DecimalString(p as int);
    ParseIntOfDecimalString(p);
  }

  // ---------------------------------------------------------------------
  // KangarooTwelve
  // ---------------------------------------------------------------------

  /** `new KangarooTwelve(location)`: an extendable-output function filed
      under MessageDigest, always with 12 rounds. */
  function KangarooTwelve(loc: Location): (r: Node)
    ensures r.name == "KangarooTwelve" && r.kind == MessageDigest
    ensures ExtendableOutputFunction in r.capabilities
    ensures r.children.Keys == {NumberOfIterations}
    ensures r.children[NumberOfIterations].value == IntValue(12)
    ensures WellFormed(r)
  {
    Put(AlgorithmNode("KangarooTwelve", "KangarooTwelve", MessageDigest, {ExtendableOutputFunction}, loc),
        NumberOfIterationsNode(12, loc))
  }

  /** `new KangarooTwelve(digestSize, location)`. */
  function KangarooTwelveWithDigestSize(digestSize: Int32, loc: Location): (r: Node)
    ensures r.name == "KangarooTwelve" && r.kind == MessageDigest
    ensures r.children.Keys == {NumberOfIterations, DigestSize}
    ensures r.children[NumberOfIterations].value == IntValue(12)
    ensures r.children[DigestSize].value == IntValue(digestSize)
    ensures WellFormed(r)
  {
    Put(KangarooTwelve(loc), DigestSizeNode(digestSize, loc))
  }

  // ---------------------------------------------------------------------
  // Xoodyak
  // ---------------------------------------------------------------------

  /** `new Xoodyak(asKind, location)`: no children. */
  function XoodyakAsKind(asKind: Kind, loc: Location): (r: Node)
    ensures r.name == "Xoodyak" && r.kind == asKind
    ensures r.capabilities == {MessageDigest, StreamCipher, AuthenticatedEncryption}
    ensures r.children == map[]
  {
    AlgorithmNode("Xoodyak", "Xoodyak", asKind, {MessageDigest, StreamCipher, AuthenticatedEncryption}, loc)
  }

  /** `new Xoodyak(location)`: the MessageDigest form, with 12 rounds. */
  function Xoodyak(loc: Location): (r: Node)
    ensures r.name == "Xoodyak" && r.kind == MessageDigest
    ensures r.children.Keys == {NumberOfIterations}
    ensures r.children[NumberOfIterations].value == IntValue(12)
    ensures WellFormed(r)
  {
    Put(XoodyakAsKind(MessageDigest, loc), NumberOfIterationsNode(12, loc))
  }

  // ---------------------------------------------------------------------
  // Naccache-Stern
  // ---------------------------------------------------------------------

  /** `new NaccacheStern(location)`. */
  function NaccacheStern(loc: Location): (r: Node)
    ensures r.name == "Naccache-Stern" && r.kind == PublicKeyEncryption
    ensures r.children == map[]
  {
    AlgorithmNode("NaccacheStern", "Naccache-Stern", PublicKeyEncryption, {PublicKeyEncryption}, loc)
  }

  /** `new NaccacheStern(keyLength, location)`: the base node plus a key length. */
  function NaccacheSternWithKeyLength(keyLength: Int32, loc: Location): (r: Node)
    ensures r.children.Keys == {KeyLength}
    ensures r.children[KeyLength] == KeyLengthNode(keyLength, loc)
    ensures r.(children := map[]) == NaccacheStern(loc)
    ensures WellFormed(r)
  {
    Put(NaccacheStern(loc), KeyLengthNode(keyLength, loc))
  }

  /** `new NaccacheStern(asKind, naccacheStern)`. */
  function NaccacheSternAsKind(asKind: Kind, naccacheStern: Node): (r: Node)
    requires naccacheStern.cls == "NaccacheStern"
    ensures r.kind == asKind && r.cls == "NaccacheStern"
    ensures r.(kind := naccacheStern.kind) == naccacheStern
  {
    naccacheStern.(kind := asKind)
  }

  // ---------------------------------------------------------------------
  // SM4
  // ---------------------------------------------------------------------

  /** `new SM4(location)`. */
  function Sm4(loc: Location): (r: Node)
    ensures r.name == "SM4" && r.kind == BlockCipher && r.children == map[]
    ensures r.capabilities == {BlockCipher, AuthenticatedEncryption, Mac}
  {
    AlgorithmNode("SM4", "SM4", BlockCipher, {BlockCipher, AuthenticatedEncryption, Mac}, loc)
  }

  /** `new SM4(mode, location)`: the base node holding `mode` as its Mode child. */
  function Sm4WithMode(mode: Node, loc: Location): (r: Node)
    requires mode.kind == Mode
    ensures r.children.Keys == {Mode} && r.children[Mode] == mode
    ensures r.(children := map[]) == Sm4(loc)
    ensures WellFormed(mode) ==> WellFormed(r)
  {
    Put(Sm4(loc), mode)
  }

  /** `new SM4(asKind, sm4)`. */
  function Sm4AsKind(asKind: Kind, sm4: Node): (r: Node)
    requires sm4.cls == "SM4"
    ensures r.kind == asKind && r.cls == "SM4"
    ensures r.(kind := sm4.kind) == sm4
  {
    sm4.(kind := asKind)
  }

  // ---------------------------------------------------------------------
  // ISAP-A-128
  // ---------------------------------------------------------------------

  /** `new IsapA128(location)`: block size 64 and IV length 192, side by side. */
  function IsapA128(loc: Location): (r: Node)
    ensures r.name == "Isap-A-128" && r.kind == AuthenticatedEncryption && r.location == loc
    ensures r.children.Keys == {BlockSize, InitializationVectorLength}
    ensures r.children[BlockSize].value == IntValue(64)
    ensures r.children[InitializationVectorLength].value == IntValue(192)
    ensures WellFormed(r)
  {
    var isap := AlgorithmNode("IsapA128", "Isap-A-128", AuthenticatedEncryption, {AuthenticatedEncryption}, loc);
    Put(Put(isap, BlockSizeNode(64, loc)), InitializationVectorLengthNode(192, loc))
  }
}
