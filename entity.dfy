/**
  The records exchanged between Sentinel and Safe: the Sentinel command as the
  operator gives it, the two storage enums, and the three wire requests (key
  input, secret upsert, init completed).
 */
module Entity {

  /** Where Safe keeps a secret. */
  datatype BackingStore = File | Memory

  /** How a secret is rendered. */
  datatype SecretFormat = Json | Yaml

  /** The string spellings of the enums in the data package. */
  const FileLiteral: string := "file"
  const MemoryLiteral: string := "memory"
  const JsonLiteral: string := "json"
  const YamlLiteral: string := "yaml"

  function BackingStoreName(b: BackingStore): (s: string)
    ensures s == FileLiteral || s == MemoryLiteral
    ensures (s == FileLiteral) == (b == File)
  {
    match b
    case File => FileLiteral
    case Memory => MemoryLiteral
  }

  function SecretFormatName(f: SecretFormat): (s: string)
    ensures s == JsonLiteral || s == YamlLiteral
    ensures (s == JsonLiteral) == (f == Json)
  {
    match f
    case Json => JsonLiteral
    case Yaml => YamlLiteral
  }

  /** The body of a key delivery: the age key pair and the AES cipher key. */
  datatype KeyInputRequest = KeyInputRequest(
    ageSecretKey: string,
    agePublicKey: string,
    aesCipherKey: string)

  /** The three key fragments in order, one per line: the form in which the
      operator hands them to Sentinel and in which Safe stores them. */
  function KeyLines(k: KeyInputRequest): (s: string)
    ensures |s| == |k.ageSecretKey| + |k.agePublicKey| + |k.aesCipherKey| + 2
    ensures s[|k.ageSecretKey|] == '\n'
    ensures s[|k.ageSecretKey| + 1 + |k.agePublicKey|] == '\n'
  {
    k.ageSecretKey + "\n" + k.agePublicKey + "\n" + k.aesCipherKey
  }

  /** No fragment contains a line break. */
  predicate NewlineFree(k: KeyInputRequest) {
    '\n' !in k.ageSecretKey && '\n' !in k.agePublicKey && '\n' !in k.aesCipherKey
  }

  /** The key input request with every field empty. */
  const EmptyKeyInput := KeyInputRequest("", "", "")

  /** The body of a secret upsert (and of a secret delete). */
  datatype SecretUpsertRequest = SecretUpsertRequest(
    workloadId: string,
    backingStore: BackingStore,
    namespaces: seq<string>,
    useKubernetes: bool,
    template: string,
    format: SecretFormat,
    encrypt: bool,
    appendValue: bool,
    value: string,
    notBefore: string,
    expires: string)

  /** The command Sentinel is asked to carry out. Only the fields the
      request builder reads are modelled. */
  datatype SentinelCommand = SentinelCommand(
    workloadId: string,
    secret: string,
    namespaces: seq<string>,
    backingStore: string,
    useKubernetes: bool,
    template: string,
    format: string,
    encrypt: bool,
    deleteSecret: bool,
    appendSecret: bool,
    inputKeys: string,
    notBefore: string,
    expires: string)
}
