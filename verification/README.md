# Cryptography inventory core, modelled in Dafny

This project models a slice of a static-analysis plugin that inventories
the cryptography a program uses. The slice covers four areas.

- **Detection rules.** A rule names an object type and a constructor or
  method signature. It says what to read off the call and each argument,
  and which other rules must match on an argument's value. The model covers
  the catalogues for `GCMParameterSpec`, `DESedeKeySpec` and
  `NTRUSigningPublicKeyParameters`, and the dependency graph they form.
- **Go language translation.** This is how the detection engine reads a Go
  call: the callee name, the receiver type, the return type and the
  argument types. It also decides whether a type name must match exactly or
  may match a subtype.
- **Mappers.** These turn a detected string into a semantic node: a Bouncy
  Castle cipher mode integer, a Bouncy Castle PBE generator class name, a
  JCA key-agreement name, and a JCA KEM name.
- **The semantic node model.** Nodes have at most one child per kind, and
  `put` replaces the child of the same kind. The model includes the
  `TagLength` property, the `PasswordBasedEncryption` lookups, the `TLS`
  protocol node, and the algorithm classes Skein, SPHINCS, KangarooTwelve,
  Xoodyak, Naccache-Stern, SM4 and ISAP-A-128.

The files are:

- `java_text.dfy` (`JavaText`): the `String` and `Integer` behaviour the
  mappers rely on. This is `toUpperCase` for ASCII, `trim`, `parseInt`
  with its range check, and `toString`.
- `nodes.dfy` (`Nodes`) and `primitives.dfy` (`Primitives`): the node tree,
  `put`, `deepCopy`, and stand-ins for the constructors of node classes
  whose sources are not part of this model.
- `tag_length.dfy`, `password_based_encryption.dfy`, `tls.dfy` and
  `algorithms.dfy`: the node classes.
- `bc_mappers.dfy` and `jca_mappers.dfy`: the four mappers.
- `go_translation.dfy` (`GoTranslation`): the Go language translation.
- `rule_builder.dfy` (`RuleBuilder`): rules as data, and the fluent
  builder.
- `detection_rules.dfy` (`DetectionRules`): the three catalogues, each
  written as the same builder chain its Java class declares, and the
  dependency graph between rules.

A Java `null` is `None`, and an `Optional.empty()` is `None`. A Java `int`
is the `Int32` newtype. `Integer.parseInt` throwing `NumberFormatException`
is `ParseInt` returning `None`.

## Model

Source paths are relative to the repository root.

| member | source | states |
|---|---|---|
| JavaText.ToUpperIdempotent | mapper/src/main/java/com/ibm/mapper/mapper/jca/JcaKemMapper.java:39 | Upper-casing an upper-cased name changes nothing. |
| JavaText.TrimIsMaximalInfix | mapper/src/main/java/com/ibm/mapper/mapper/jca/JcaKemMapper.java:39 | `trim` keeps exactly the infix between the leading and trailing runs of chars at or below the space, and the kept part neither starts nor ends with such a char. |
| JavaText.TrimIdempotent | mapper/src/main/java/com/ibm/mapper/mapper/jca/JcaKemMapper.java:39 | Trimming a trimmed string changes nothing. |
| JavaText.TrimStartToUpper | mapper/src/main/java/com/ibm/mapper/mapper/jca/JcaKemMapper.java:39 | Upper-casing and stripping leading blanks commute. |
| JavaText.TrimEndToUpper | mapper/src/main/java/com/ibm/mapper/mapper/jca/JcaKemMapper.java:39 | Upper-casing and stripping trailing blanks commute. |
| JavaText.NormalisePadded | mapper/src/main/java/com/ibm/mapper/mapper/jca/JcaKeyAgreementMapper.java:43 | A name padded on either side with blanks or control chars normalises to the upper-cased name. |
| JavaText.NormaliseIdempotent | mapper/src/main/java/com/ibm/mapper/mapper/jca/JcaKeyAgreementMapper.java:43 | `toUpperCase().trim()` applied twice equals applying it once. |
| JavaText.NatStringValue | mapper/src/main/java/com/ibm/mapper/model/TagLength.java:47 | The decimal digits `toString` writes for a natural number denote that number. |
| JavaText.ParseIntOfDecimalString | mapper/src/main/java/com/ibm/mapper/mapper/bc/BcOperationModeEncryptionMapper.java:46 | `parseInt` inverts `toString` on every Java `int`, negative ones included. |
| JavaText.ParseIntRejectsOutOfRange | mapper/src/main/java/com/ibm/mapper/mapper/bc/BcOperationModeEncryptionMapper.java:46-54 | A decimal outside the `int` range is rejected, never wrapped. |
| JavaText.ParseIntNeedsSignOrDigit | mapper/src/main/java/com/ibm/mapper/mapper/bc/BcOperationModeEncryptionMapper.java:46-54 | A string starting with neither a sign nor a digit never parses. |
| Nodes.Put | mapper/src/main/java/com/ibm/mapper/mapper/bc/BcPbeMapper.java:55 | `put` stores the child under its kind and replaces any previous child of that kind. Every other child and every other field is kept. |
| Nodes.PutPreservesWellFormed | mapper/src/main/java/com/ibm/mapper/mapper/bc/BcPbeMapper.java:55 | `put` keeps every child stored under its own kind, all the way down. |
| Nodes.PutDistinctKindsCommute | mapper/src/main/java/com/ibm/mapper/model/algorithms/isap/IsapA128.java:32-33 | Two `put`s of different kinds commute, and neither hides the other. |
| Nodes.GetChild | mapper/src/main/java/com/ibm/mapper/model/protocol/TLS.java:43-47 | A lookup by kind finds a child exactly when one is stored under that kind, and returns that child. |
| Nodes.DeepCopy | mapper/src/main/java/com/ibm/mapper/model/TagLength.java:52-58 | On a well-formed tree, copying each child and re-inserting it under its own kind gives a node equal to the original. |
| TagLengths.NewTagLength | mapper/src/main/java/com/ibm/mapper/model/TagLength.java:29-32 | The new node is a TagLength with no children, at the given location, whose value reads back as the argument. |
| TagLengths.TagLengthAsString | mapper/src/main/java/com/ibm/mapper/model/TagLength.java:44-48 | The rendering parses back to the value, and it is the node's generic `asString`. |
| TagLengths.TagLength128Renders | mapper/src/main/java/com/ibm/mapper/model/TagLength.java:46-48 | A 128-bit tag renders as "128". |
| TagLengths.TagLengthEqualsIsIdentity | mapper/src/main/java/com/ibm/mapper/model/TagLength.java:60-66 | `equals` holds exactly when the two nodes are structurally equal. This covers the class check, the base comparison and the value comparison. |
| TagLengths.TagLengthDeepCopy | mapper/src/main/java/com/ibm/mapper/model/TagLength.java:50-58 | The copy is a TagLength with the same value and child kinds, each child under its own kind, and it `equals` the original. |
| TagLengths.EqualTagLengthsHashAlike | mapper/src/main/java/com/ibm/mapper/model/TagLength.java:68-71 | Equal TagLengths have equal hash codes, whatever the base hash and combining function. |
| PasswordBasedEncryptions.GetMac | mapper/src/main/java/com/ibm/mapper/model/PasswordBasedEncryption.java:28-35 | The Mac child if one is stored, empty otherwise. |
| PasswordBasedEncryptions.GetDigest | mapper/src/main/java/com/ibm/mapper/model/PasswordBasedEncryption.java:37-44 | The MessageDigest child if one is stored, empty otherwise. |
| PasswordBasedEncryptions.LookupsFollowPut | mapper/src/main/java/com/ibm/mapper/model/PasswordBasedEncryption.java:28-44 | After a `put`, `getMac` and `getDigest` find the new child when its kind is the one looked up. Otherwise they answer as before. |
| PasswordBasedEncryptions.FirstCipher | mapper/src/main/java/com/ibm/mapper/model/PasswordBasedEncryption.java:48-58 | The first child in the listing that is a Cipher. It is empty exactly when no listed child is a Cipher, and every earlier child is not a Cipher. |
| PasswordBasedEncryptions.GetCipher | mapper/src/main/java/com/ibm/mapper/model/PasswordBasedEncryption.java:46-59 | A Cipher child is found exactly when the node has one. The result is a child that is a Cipher, and it is the first one in the children's iteration order. |
| PasswordBasedEncryptions.ListedCipherIsChild | mapper/src/main/java/com/ibm/mapper/model/PasswordBasedEncryption.java:48-58 | Scanning a listing of the keys finds a Cipher exactly when some child is one. |
| PasswordBasedEncryptions.GetCipherUniqueCipher | mapper/src/main/java/com/ibm/mapper/model/PasswordBasedEncryption.java:46-59 | When only one child is a Cipher, `getCipher` returns it whatever the iteration order. |
| Protocols.NewTls | mapper/src/main/java/com/ibm/mapper/model/protocol/TLS.java:32-34 | A protocol node named "TLS" of kind TLS, at the location, with no children. |
| Protocols.TlsWithVersion | mapper/src/main/java/com/ibm/mapper/model/protocol/TLS.java:36-39 | Named "TLSv" followed by the version's rendering, located at the version, and holding the version as its only child. |
| Protocols.GetVersion | mapper/src/main/java/com/ibm/mapper/model/protocol/TLS.java:41-48 | The Version child if one is stored, empty otherwise. |
| Protocols.GetCipherSuits | mapper/src/main/java/com/ibm/mapper/model/protocol/TLS.java:50-57 | The cipher-suite collection child if one is stored, empty otherwise. |
| Protocols.TlsVersionRoundTrip | mapper/src/main/java/com/ibm/mapper/model/protocol/TLS.java:32-57 | The version a node is built from is the version it reports, and it has no cipher suites yet. A bare TLS node reports neither. |
| Protocols.TlsNamedAfterVersion | mapper/src/main/java/com/ibm/mapper/model/protocol/TLS.java:37 | Version "1.3" gives the name "TLSv1.3". |
| Algorithms.Skein | mapper/src/main/java/com/ibm/mapper/model/algorithms/Skein.java:53-56 | A Skein MessageDigest whose only child is a Threefish block cipher. |
| Algorithms.SkeinWithBlockSize | mapper/src/main/java/com/ibm/mapper/model/algorithms/Skein.java:58-66 | Adds the block size and keeps Threefish. The round count is present exactly for block sizes 256, 512 and 1024: 72 rounds for the first two, 80 for 1024. |
| Algorithms.SkeinWithDigestSize | mapper/src/main/java/com/ibm/mapper/model/algorithms/Skein.java:68-71 | Adds the digest size to the block-size node's children and nothing else, and keeps Threefish. |
| Algorithms.SkeinDigestSizeKeepsBlockSizeChildren | mapper/src/main/java/com/ibm/mapper/model/algorithms/Skein.java:68-71 | Adding the digest size overwrites no child of the block-size node. |
| Algorithms.SkeinWellFormed | mapper/src/main/java/com/ibm/mapper/model/algorithms/Skein.java:53-71 | All three Skein constructors store each child under its own kind. |
| Algorithms.SkeinAsKind | mapper/src/main/java/com/ibm/mapper/model/algorithms/Skein.java:73-75 | Copies a Skein, replacing only its kind. |
| Algorithms.Sphincs | mapper/src/main/java/com/ibm/mapper/model/algorithms/SPHINCS.java:57-59 | A childless SPHINCS Signature. |
| Algorithms.SphincsWithParameterSet | mapper/src/main/java/com/ibm/mapper/model/algorithms/SPHINCS.java:61-66 | Its only child is the parameter set, stored as text that parses back to the integer given. |
| Algorithms.SphincsAsString | mapper/src/main/java/com/ibm/mapper/model/algorithms/SPHINCS.java:50-55 | The name, followed by "-" and the parameter set exactly when the node has one. |
| Algorithms.SphincsRendering | mapper/src/main/java/com/ibm/mapper/model/algorithms/SPHINCS.java:50-66 | The integer constructor renders as "SPHINCS-" plus the decimal parameter set, and the text after the dash parses back to it. The bare node renders as "SPHINCS". |
| Algorithms.KangarooTwelve | mapper/src/main/java/com/ibm/mapper/model/algorithms/KangarooTwelve.java:52-55 | An extendable-output function filed as MessageDigest, whose only child is 12 rounds. |
| Algorithms.KangarooTwelveWithDigestSize | mapper/src/main/java/com/ibm/mapper/model/algorithms/KangarooTwelve.java:57-60 | Holds exactly the 12 rounds and the digest size. |
| Algorithms.XoodyakAsKind | mapper/src/main/java/com/ibm/mapper/model/algorithms/Xoodyak.java:59-63 | A childless Xoodyak of the requested kind that is a digest, a stream cipher and an authenticated cipher. |
| Algorithms.Xoodyak | mapper/src/main/java/com/ibm/mapper/model/algorithms/Xoodyak.java:54-57 | The MessageDigest form, whose only child is 12 rounds. |
| Algorithms.NaccacheStern | mapper/src/main/java/com/ibm/mapper/model/algorithms/NaccacheStern.java:52-54 | A childless "Naccache-Stern" public-key encryption. |
| Algorithms.NaccacheSternWithKeyLength | mapper/src/main/java/com/ibm/mapper/model/algorithms/NaccacheStern.java:56-59 | The base node plus exactly one child, the key length node of the given value at the given location. |
| Algorithms.NaccacheSternAsKind | mapper/src/main/java/com/ibm/mapper/model/algorithms/NaccacheStern.java:61-65 | Copies a Naccache-Stern node, replacing only its kind. |
| Algorithms.Sm4 | mapper/src/main/java/com/ibm/mapper/model/algorithms/SM4.java:52-54 | A childless SM4 block cipher that is also an authenticated cipher and a Mac. |
| Algorithms.Sm4WithMode | mapper/src/main/java/com/ibm/mapper/model/algorithms/SM4.java:56-59 | The base node plus exactly one child, the given mode. |
| Algorithms.Sm4AsKind | mapper/src/main/java/com/ibm/mapper/model/algorithms/SM4.java:61-63 | Copies an SM4 node, replacing only its kind. |
| Algorithms.IsapA128 | mapper/src/main/java/com/ibm/mapper/model/algorithms/isap/IsapA128.java:30-34 | An authenticated cipher named "Isap-A-128" at the given location. It holds exactly block size 64 and IV length 192. |
| BcMappers.BcOperationModeParse | mapper/src/main/java/com/ibm/mapper/mapper/bc/BcOperationModeEncryptionMapper.java:35-56 | Null gives nothing. Otherwise the result is a node exactly when `parseInt` yields 0 (Decrypt) or 1 (Encrypt). Text that is not a Java `int` gives nothing. |
| BcMappers.BcOperationModeOfDecimal | mapper/src/main/java/com/ibm/mapper/mapper/bc/BcOperationModeEncryptionMapper.java:46-51 | Each `int`, written in decimal, maps by its value: 0 to Decrypt, 1 to Encrypt, every other value to nothing. |
| BcMappers.BcOperationModeExamples | mapper/src/main/java/com/ibm/mapper/mapper/bc/BcOperationModeEncryptionMapper.java:46-54 | "+1" is Encrypt and "-0" is Decrypt. "2" and "true" give nothing. |
| BcMappers.BcOperationModeRejectsOverflow | mapper/src/main/java/com/ibm/mapper/mapper/bc/BcOperationModeEncryptionMapper.java:46-54 | 2^32 + 1, which 32-bit wrap-around would turn into 1, is rejected. |
| BcMappers.BcPbeMap | mapper/src/main/java/com/ibm/mapper/mapper/bc/BcPbeMapper.java:49-68 | The five known generator names map to PBES1, PBES1 with MD5, PKCS12PBE, PBES1 and PBES2. Any other name becomes a password-based Algorithm of that name marked Unknown. |
| BcMappers.BcPbeParse | mapper/src/main/java/com/ibm/mapper/mapper/bc/BcPbeMapper.java:40-46 | Null gives nothing. Every string gives exactly `BcPbeMap`'s node for it, a password-based-encryption node. |
| BcMappers.BcPbeUnknownExactlyWhenUnrecognised | mapper/src/main/java/com/ibm/mapper/mapper/bc/BcPbeMapper.java:51-67 | The Unknown marker is present exactly when the name is not recognised, and then the node renders as the name itself. |
| BcMappers.BcPbeIsCaseSensitive | mapper/src/main/java/com/ibm/mapper/mapper/bc/BcPbeMapper.java:51-61 | A lower-cased known name is treated as unknown. |
| BcMappers.BcPbeDigestAndMac | mapper/src/main/java/com/ibm/mapper/mapper/bc/BcPbeMapper.java:51-67 | Through the PBE lookups, a mapped generator has a digest exactly for the MD5 name, and that digest is MD5. No mapped generator has a Mac. |
| JcaMappers.KeyAgreementParse | mapper/src/main/java/com/ibm/mapper/mapper/jca/JcaKeyAgreementMapper.java:37-50 | A node exactly when the upper-cased, trimmed string is ECDH, X25519, X448 or XDH. It is that key agreement. |
| JcaMappers.KeyAgreementOfName | mapper/src/main/java/com/ibm/mapper/mapper/jca/JcaKeyAgreementMapper.java:43-49 | The switch returns a node exactly for the four names, each naming its own class. |
| JcaMappers.KeyAgreementParseIgnoresNormalisation | mapper/src/main/java/com/ibm/mapper/mapper/jca/JcaKeyAgreementMapper.java:43 | Normalising the input first does not change the result. |
| JcaMappers.KeyAgreementIgnoresPadding | mapper/src/main/java/com/ibm/mapper/mapper/jca/JcaKeyAgreementMapper.java:43 | A name padded with blanks or control chars parses exactly as the bare name does. |
| JcaMappers.KeyAgreementExample | mapper/src/main/java/com/ibm/mapper/mapper/jca/JcaKeyAgreementMapper.java:43-45 | " x25519\n" maps to X25519. |
| JcaMappers.KemParse | mapper/src/main/java/com/ibm/mapper/mapper/jca/JcaKemMapper.java:33-45 | A node exactly when the normalised name is an ML-KEM name. It is exactly `new MLKEM(p, location)`, where p is 512, 768 or 1024 as the name selects and the bare name means 768. |
| JcaMappers.KemOfName | mapper/src/main/java/com/ibm/mapper/mapper/jca/JcaKemMapper.java:39-44 | The switch returns ML-KEM exactly for the four names. The node is exactly `new MLKEM(p, location)` for the parameter set p the name selects. |
| JcaMappers.MlkemRecordsParameterSet | mapper/src/main/java/com/ibm/mapper/mapper/jca/JcaKemMapper.java:40-42 | The ML-KEM node's parameter-set child reads back as the parameter set it was built with. |
| JcaMappers.KemParseIgnoresNormalisation | mapper/src/main/java/com/ibm/mapper/mapper/jca/JcaKemMapper.java:39 | Normalising the input first does not change the result. |
| JcaMappers.KemIgnoresPadding | mapper/src/main/java/com/ibm/mapper/mapper/jca/JcaKemMapper.java:39 | A name padded with blanks or control chars parses exactly as the bare name does. |
| JcaMappers.KemExample | mapper/src/main/java/com/ibm/mapper/mapper/jca/JcaKemMapper.java:39-40 | "ml-kem" maps to ML-KEM-768. |
| GoTranslation.ExactImpliesRelaxed | engine/src/main/java/com/ibm/engine/language/go/GoLanguageTranslation.java:82-87 | Relaxed matching accepts a type name when the type *is* it or is a subtype of it. It therefore accepts everything exact matching accepts. |
| GoTranslation.GetMethodName | engine/src/main/java/com/ibm/engine/language/go/GoLanguageTranslation.java:45-51 | A name only for an invocation: the selected member for `x.f(...)`, the identifier for `f(...)`. |
| GoTranslation.ResolveIdentifierAsString | engine/src/main/java/com/ibm/engine/language/go/GoLanguageTranslation.java:196-202 | A name exactly for an identifier, and it is the identifier's name. |
| GoTranslation.GetEnumIdentifierName | engine/src/main/java/com/ibm/engine/language/go/GoLanguageTranslation.java:206-210 | Resolved exactly as an identifier is. |
| GoTranslation.GetEnumClassName | engine/src/main/java/com/ibm/engine/language/go/GoLanguageTranslation.java:214-218 | Never resolved. |
| GoTranslation.GetMethodReturnType | engine/src/main/java/com/ibm/engine/language/go/GoLanguageTranslation.java:121-137 | A matcher exactly for an invocation. It accepts a name when the callee's return type *is* it, or, outside exact contexts, is a subtype of it. |
| GoTranslation.GetInvokedObjectType | engine/src/main/java/com/ibm/engine/language/go/GoLanguageTranslation.java:56-117 | Only for an invocation, exact as the context says. For `f().g()` it is the inner call's return type. For `x.g()` it is `x`'s symbol type. For a callee of unknown type it is the enclosing class, and nothing without one. Otherwise it is the callee's type. |
| GoTranslation.HookObjectTypeIsExact | engine/src/main/java/com/ibm/engine/language/go/GoLanguageTranslation.java:82-84 | In a hook context the receiver type matches a name only if it *is* that type. |
| GoTranslation.GetMethodParameterTypes | engine/src/main/java/com/ibm/engine/language/go/GoLanguageTranslation.java:141-192 | One matcher per argument, in order: a nested call's return type, any other argument's symbol type. It is empty for a non-call and for a call without arguments. Each matcher is exact as the hook flag and the exact-match list decide. |
| GoTranslation.HookParametersAreExact | engine/src/main/java/com/ibm/engine/language/go/GoLanguageTranslation.java:184 | A hook context makes every parameter exact. |
| GoTranslation.MismatchedMatrixIsRelaxed | engine/src/main/java/com/ibm/engine/language/go/GoLanguageTranslation.java:154-161 | An exact-match list whose length differs from the argument count is ignored. Outside hooks, every parameter then also matches subtypes. |
| RuleBuilder.ParameterTypes | java/src/main/java/com/ibm/plugin/rules/detection/jca/algorithmspec/JcaGCMParameterSpec.java:56-60 | The declared parameter types, in declaration order. |
| RuleBuilder.AllDependents | java/src/main/java/com/ibm/plugin/rules/detection/bc/cipherparameters/BcNTRUSigningPublicKeyParameters.java:93-95 | Exactly the rules named at the top level or on some parameter. |
| RuleBuilder.ParametersAreAppended | java/src/main/java/com/ibm/plugin/rules/detection/jca/algorithmspec/JcaGCMParameterSpec.java:56-60 | Declaring a parameter appends it, with nothing attached. The earlier parameters and the rest of the rule are unchanged. |
| RuleBuilder.DetectionGoesToLatestParameter | java/src/main/java/com/ibm/plugin/rules/detection/jca/algorithmspec/JcaGCMParameterSpec.java:55-61 | A detection attaches to the call when no parameter is declared yet, and otherwise to the latest parameter. Nothing else changes. |
| RuleBuilder.DependentsGoToLatestParameter | java/src/main/java/com/ibm/plugin/rules/detection/bc/cipherparameters/BcNTRUSigningPublicKeyParameters.java:53-54 | Depending rules are appended to the latest parameter's list, or to the call's when no parameter is declared. Nothing else changes. |
| RuleBuilder.DetectionsStayPut | java/src/main/java/com/ibm/plugin/rules/detection/jca/algorithmspec/JcaGCMParameterSpec.java:56-61 | Declaring a parameter and then a detection never moves an earlier parameter's detection. The new detection lands on the new parameter. |
| DetectionRules.RuleOf | java/src/main/java/com/ibm/plugin/rules/detection/bc/cipherparameters/BcNTRUSigningPublicKeyParameters.java:42-127 | Every named rule has a definition, except the digest group. |
| DetectionRules.StandaloneHasNoDependents | java/src/main/java/com/ibm/plugin/rules/detection/jca/algorithmspec/JcaGCMParameterSpec.java:48 | A rule with no depending rules anywhere depends on nothing. |
| DetectionRules.GcmSpec1Shape | java/src/main/java/com/ibm/plugin/rules/detection/jca/algorithmspec/JcaGCMParameterSpec.java:36-48 | The `GCMParameterSpec(int, byte[])` constructor is detected as mode GCM. The `int` gives a tag size in bits and the array an IV size in bytes. Context is algorithm parameters, bundle is Jca, and it depends on nothing. |
| DetectionRules.GcmSpec2Shape | java/src/main/java/com/ibm/plugin/rules/detection/jca/algorithmspec/JcaGCMParameterSpec.java:50-64 | The four-argument constructor puts the IV size on the last `int`. Nothing is read off the array or the offset. |
| DetectionRules.GcmCatalogue | java/src/main/java/com/ibm/plugin/rules/detection/jca/algorithmspec/JcaGCMParameterSpec.java:70-73 | `rules()` lists both GCM rules in order. Each detects mode GCM and a tag size in bits, and none depends on anything. |
| DetectionRules.DesedeSpec1Shape | java/src/main/java/com/ibm/plugin/rules/detection/jca/keyspec/JcaDESedeKeySpec.java:35-44 | `DESedeKeySpec(byte[])` reads the key size off the array, in the DESede secret-key context. |
| DetectionRules.DesedeSpec2Shape | java/src/main/java/com/ibm/plugin/rules/detection/jca/keyspec/JcaDESedeKeySpec.java:46-56 | `DESedeKeySpec(byte[], int)` reads the key size off the array and nothing off the offset. |
| DetectionRules.DesedeCatalogue | java/src/main/java/com/ibm/plugin/rules/detection/jca/keyspec/JcaDESedeKeySpec.java:62-65 | `rules()` lists both DESede rules in order, and neither depends on anything. |
| DetectionRules.NtruBase1Shape | java/src/main/java/com/ibm/plugin/rules/detection/bc/cipherparameters/BcNTRUSigningPublicKeyParameters.java:42-57 | Seven parameters, with the digest rules on the `Digest` argument and nowhere else. |
| DetectionRules.NtruBase2Shape | java/src/main/java/com/ibm/plugin/rules/detection/bc/cipherparameters/BcNTRUSigningPublicKeyParameters.java:63-81 | Ten parameters, with the digest rules on the tenth (the `Digest`) and nowhere else. |
| DetectionRules.NtruPublicKeyShape | java/src/main/java/com/ibm/plugin/rules/detection/bc/cipherparameters/BcNTRUSigningPublicKeyParameters.java:86-98 | The key material, then the signing parameters, with the base-constructor rules on the latter. Nothing is extracted. |
| DetectionRules.NtruCatalogue | java/src/main/java/com/ibm/plugin/rules/detection/bc/cipherparameters/BcNTRUSigningPublicKeyParameters.java:129-133 | `rules()` exports the three public-key constructors in order, and not the base constructors. |
| DetectionRules.NtruPublicKeyVariants | java/src/main/java/com/ibm/plugin/rules/detection/bc/cipherparameters/BcNTRUSigningPublicKeyParameters.java:86-127 | The three public-key constructors differ only in their first parameter: a byte array, a stream or a polynomial. |
| DetectionRules.DependentsOnOneParameter | java/src/main/java/com/ibm/plugin/rules/detection/bc/cipherparameters/BcNTRUSigningPublicKeyParameters.java:93-98 | A rule whose depending rules all sit on one parameter depends on exactly those. |
| DetectionRules.JcaDependents | java/src/main/java/com/ibm/plugin/rules/detection/jca/keyspec/JcaDESedeKeySpec.java:44-56 | The GCM and DESede rules depend on nothing. |
| DetectionRules.NtruBase1Dependents | java/src/main/java/com/ibm/plugin/rules/detection/bc/cipherparameters/BcNTRUSigningPublicKeyParameters.java:53-57 | The first base constructor depends on the digest group alone. |
| DetectionRules.NtruBase2Dependents | java/src/main/java/com/ibm/plugin/rules/detection/bc/cipherparameters/BcNTRUSigningPublicKeyParameters.java:77-81 | The second base constructor depends on the digest group alone. |
| DetectionRules.NtruPublicKeyDependents | java/src/main/java/com/ibm/plugin/rules/detection/bc/cipherparameters/BcNTRUSigningPublicKeyParameters.java:83-98 | Each public-key constructor depends on exactly the two base constructors. |
| DetectionRules.DependentsAreEdges | java/src/main/java/com/ibm/plugin/rules/detection/bc/cipherparameters/BcNTRUSigningPublicKeyParameters.java:42-133 | The edge table is exactly the dependencies the rules declare. |
| DetectionRules.EdgesDescend | java/src/main/java/com/ibm/plugin/rules/detection/bc/cipherparameters/BcNTRUSigningPublicKeyParameters.java:54-95 | Every dependency goes strictly downward: public key, then base constructor, then digest. |
| DetectionRules.ChainDescends | java/src/main/java/com/ibm/plugin/rules/detection/bc/cipherparameters/BcNTRUSigningPublicKeyParameters.java:54-95 | Along a dependency chain the rank falls by at least one per edge. |
| DetectionRules.DependenciesAcyclic | java/src/main/java/com/ibm/plugin/rules/detection/bc/cipherparameters/BcNTRUSigningPublicKeyParameters.java:54-95 | No dependency chain visits a rule twice. |
| DetectionRules.NtruDependencyDepth | java/src/main/java/com/ibm/plugin/rules/detection/bc/cipherparameters/BcNTRUSigningPublicKeyParameters.java:83-133 | From every exported NTRU rule the chain public key, base, digest exists, and no chain from one is longer than two edges. |
| DetectionRules.NtruBaseReachedOnlyAsDependents | java/src/main/java/com/ibm/plugin/rules/detection/bc/cipherparameters/BcNTRUSigningPublicKeyParameters.java:83-133 | Every exported rule has an edge to each base constructor. A base constructor is reached from an exported rule only through at least one edge. |

## Left out

- **Node classes whose sources are not part of this model.** These are
  the `Algorithm`, `Property` and `Protocol` bases, the integer and text
  property classes, Encrypt/Decrypt/Unknown, Threefish, MD5, PBES1, PBES2,
  PKCS12PBE, ECDH, X25519, X448, XDH, MLKEM and the `Isap` base. The
  `Algorithm` and `Property` bases, the property classes and the named
  algorithms are stand-in constructors in `Primitives`. The `Protocol` base
  is built inline by `Protocols.NewTls` and `Protocols.TlsWithVersion`.
  The `Isap` base is built inline by `Algorithms.IsapA128`. The assumed
  values are these:
  - Threefish is a BlockCipher.
  - MD5 is a MessageDigest.
  - PBE schemes are of kind PasswordBasedEncryption.
  - The key agreements are of kind KeyAgreement.
  - MLKEM is named "ML-KEM", of kind KeyEncapsulationMechanism, and records
    its parameter set as a ParameterSetIdentifier child.
  - The Isap base is AuthenticatedEncryption.
  - Encrypt renders as "ENCRYPT".
- Nodes.DeepCopy, TagLengths.TagLengthDeepCopy, Algorithms.SkeinAsKind,
  Algorithms.NaccacheSternAsKind, Algorithms.Sm4AsKind: the copy
  constructors of the base classes are not part of this model. They are
  assumed to copy the children map. Nodes are immutable values here, so
  any sharing of state between a copy and its original is not modelled.
- **The interface hierarchy.** A node's `capabilities` are the interfaces
  its class declares directly. Interfaces that those extend are not part
  of this model, so a test such as `PasswordBasedEncryptions.IsCipher` is
  false where Java's `instanceof` would hold only through a
  super-interface.
- **`asString` of the base classes.** It is modelled only as far as the
  modelled code uses it: a value's rendering, else the name.
- **Java `toUpperCase`.** It folds only ASCII letters here; the JDK folds
  every Unicode letter under the default locale.
- **Java `parseInt`.** It accepts only ASCII digits here; the JDK also
  accepts other Unicode decimal digits.
- **`TagLength.hashCode`.** The arithmetic of `Objects.hash` and the base
  hash are parameters of `TagLengths.TagLengthHashCode`; only "equal
  implies equal hash" is stated.
- **`Property.equals`.** It is modelled as structural equality of
  everything except the value, plus the class check.
- **Read-only lookups.** `getMac`, `getDigest` and `getCipher` cannot
  change the children map here, because nodes are immutable values; no
  contract says so separately.
- **`getCipher`.** The `HashMap` iteration order is not fixed by Java, so it
  is an explicit `order` parameter, a listing of the keys.
- **`GoTranslation.GetMethodName`.** `ExpressionUtils.getMemberSelectOrIdentifierName`
  is not part of this model. It is assumed to name the selected member or
  the identifier, and nothing for any other callee.
- **The Go frontend's `is`, `isSubtypeOf` and `isUnknown`.** These are
  uninterpreted fields of `GoType`.
- **Logging, the language support class, the Go translator and the plugin
  wiring.** These are outside the modelled core.
- **`DetectionRuleBuilder`.** Its source is not part of this model. `RuleBuilder` assumes
  the behaviour the rule classes rely on: detections and depending rules attach to the
  most recently declared parameter, or to the call before any parameter is
  declared.
- RuleBuilder.WithoutDependingDetectionRules: finishing a rule this way
  clears the depending rules attached to the call itself. Those are the
  rules added before any parameter is declared. No modelled rule adds any,
  so no modelled rule loses one.
- **Value factories (`TagSizeFactory`, `KeySizeFactory`, ...) and the
  `Mode` lambda.** They are recorded as tags (`Extraction`); what they
  compute from a tree is not modelled.
- **`BcDigests.rules()`.** It is one opaque rule group (`BcDigests`) with no
  definition and no dependents.
- **`TypeShortcuts.BYTE_ARRAY_TYPE`.** Its definition is not part of this
  model, and it is taken to be `"byte[]"`.
- **Matching rules against syntax trees.** The engine that applies a rule
  to a call is outside the modelled core; only the rules' content and their
  dependency graph are modelled.
