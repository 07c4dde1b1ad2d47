/**
  Sentinel's side of the protocol: turning a command into the one request it
  sends to Safe. The identity-source race, the mTLS client, URL joining and JSON
  encoding are outside the model; what remains is which request is built, with
  which defaults, on which path and with which verb, or why none is sent.
 */
module SentinelPost {
  import opened Wrappers
  import opened GoStrings
  import opened Validation
  import opened Entity

  const KeysPath: string := "/sentinel/v1/keys"
  const SecretsPath: string := "/sentinel/v1/secrets"
  const InitCompletedPath: string := "/sentinel/v1/init-completed"

  /** Validity bounds used when the command leaves them empty. */
  const DefaultNotBefore: string := "now"
  const DefaultExpires: string := "never"

  /** Put in front of a generation pattern the generator could not use. */
  const ParseErrorTag: string := "ParseError:"

  /** The start of the reason the authorizer gives for refusing a peer. */
  const RejectionHead: string := "Post: I don\U{2019}t know you, and it\U{2019}s crazy: '"

  datatype Verb = HttpPost | HttpDelete

  datatype Payload =
    | KeysPayload(keys: KeyInputRequest)
    | SecretPayload(secret: SecretUpsertRequest)
    | InitCompletePayload

  /** A request as handed to the mTLS client: path under Safe's endpoint URL,
      verb and body. */
  datatype Request = Request(path: string, verb: Verb, payload: Payload)

  /** How the race for the workload identity source ended: the context's
      deadline passed, the context was cancelled, or the source arrived together
      with the acquirer's verdict on whether to proceed. */
  datatype Acquisition = DeadlineExceeded | ContextCancelled | SourceAcquired(proceed: bool)

  /** Why no request was sent. */
  datatype Failure = SpireTimeout | OperationCancelled | SourceNotUsable | EndpointUrlError | BadKeyData

  datatype Outcome = Sent(request: Request) | Abandoned(failure: Failure)

  /** Sentinel's configuration: whether Safe's endpoint URL can be joined with
      a path, the secret-generation marker and the default backing store. */
  datatype SentinelEnv = SentinelEnv(
    endpointUrlValid: bool,
    secretGenerationPrefix: string,
    defaultBackingStore: BackingStore)

  /** The pattern-based secret generator: a value for a pattern, or None where
      it returns an error. */
  type Generator = string -> Option<string>

  // ---------------------------------------------------------------------------
  // Peer authorization

  /** The authorizer of the mTLS client: no error for a Safe peer, otherwise a
      reason that quotes the offending id. */
  function Authorize(peerId: string, safePrefix: string): (err: Option<string>)
    ensures err.None? <==> IsSafe(peerId, safePrefix)
    ensures err.Some? ==> HasPrefix(err.value, RejectionHead)
                          && err.value[|RejectionHead|..] == peerId + "'"
  {
    if IsSafe(peerId, safePrefix) then None
    else Some(RejectionHead + peerId + "'")
  }

  // ---------------------------------------------------------------------------
  // Defaulting rules

  /** The backing store a command asks for: the store whose name it spells,
      otherwise the configured default. */
  function DecideBackingStore(backingStore: string, defaultStore: BackingStore): (r: BackingStore)
    ensures forall b :: backingStore == BackingStoreName(b) ==> r == b
    ensures (forall b :: backingStore != BackingStoreName(b)) ==> r == defaultStore
  {
    if backingStore == FileLiteral then
      assert backingStore == BackingStoreName(File);
      File
    else if backingStore == MemoryLiteral then
      assert backingStore == BackingStoreName(Memory);
      Memory
    else defaultStore
  }

  /** The format a command asks for: Yaml only when it spells it, Json
      otherwise. */
  function DecideSecretFormat(format: string): (r: SecretFormat)
    ensures r == Yaml <==> format == SecretFormatName(Yaml)
  {
    if format == JsonLiteral then Json
    else if format == YamlLiteral then Yaml
    else Json
  }

  /** Reading an enum's own name back gives the enum, whatever the default. */
  lemma DecideOfNameRoundTrip(b: BackingStore, defaultStore: BackingStore, f: SecretFormat)
    ensures DecideBackingStore(BackingStoreName(b), defaultStore) == b
    ensures DecideSecretFormat(SecretFormatName(f)) == f
  {
  }

  /** `newSecretUpsertRequest`: enums decided, empty validity bounds replaced by
      "now" and "never", every other field copied. */
  function NewSecretUpsertRequest(workloadId: string, secret: string, namespaces: seq<string>,
                                  backingStore: string, useKubernetes: bool, template: string,
                                  format: string, encrypt: bool, appendSecret: bool,
                                  notBefore: string, expires: string,
                                  defaultStore: BackingStore): (r: SecretUpsertRequest)
    ensures r.workloadId == workloadId && r.value == secret && r.namespaces == namespaces
    ensures r.useKubernetes == useKubernetes && r.template == template
    ensures r.encrypt == encrypt && r.appendValue == appendSecret
    ensures r.backingStore == DecideBackingStore(backingStore, defaultStore)
    ensures r.format == DecideSecretFormat(format)
    ensures r.notBefore != "" && r.expires != ""
    ensures notBefore != "" ==> r.notBefore == notBefore
    ensures expires != "" ==> r.expires == expires
    ensures r.notBefore == DefaultNotBefore <==> notBefore == "" || notBefore == DefaultNotBefore
    ensures r.expires == DefaultExpires <==> expires == "" || expires == DefaultExpires
  {
    var bs := DecideBackingStore(backingStore, defaultStore);
    var f := DecideSecretFormat(format);
    var nb := if notBefore == "" then DefaultNotBefore else notBefore;
    var ex := if expires == "" then DefaultExpires else expires;
    SecretUpsertRequest(workloadId, bs, namespaces, useKubernetes, template, f,
                        encrypt, appendSecret, secret, nb, ex)
  }

  /** Building a request from the fields of a built request gives it back:
      the defaulting rules are idempotent. */
  lemma UpsertDefaultingIdempotent(r: SecretUpsertRequest, defaultStore: BackingStore)
    requires r.notBefore != "" && r.expires != ""
    ensures NewSecretUpsertRequest(r.workloadId, r.value, r.namespaces,
              BackingStoreName(r.backingStore), r.useKubernetes, r.template,
              SecretFormatName(r.format), r.encrypt, r.appendValue,
              r.notBefore, r.expires, defaultStore) == r
  {
    DecideOfNameRoundTrip(r.backingStore, defaultStore, r.format);
  }

  // ---------------------------------------------------------------------------
  // Key input

  /** The keys request for Sentinel's newline-joined key triple: built exactly
      when there are two line breaks, with the three lines in order. Empty
      lines are not rejected here. */
  function KeysFromInput(inputKeys: string): (r: Option<KeyInputRequest>)
    ensures r.Some? <==> Count(inputKeys, '\n') == 2
    ensures r.Some? ==> KeyLines(r.value) == inputKeys && NewlineFree(r.value)
  {
    var parts := Split(inputKeys, '\n');
    if |parts| != 3 then None
    else
      JoinOfSplit(inputKeys, '\n');
      JoinThree(parts, '\n');
      SplitPiecesFree(inputKeys, '\n');
      Some(KeyInputRequest(parts[0], parts[1], parts[2]))
  }

  /** Joining three line-free fragments and splitting them again gives the same
      fragments back. */
  lemma {:induction false} KeysRoundTrip(k: KeyInputRequest)
    requires NewlineFree(k)
    ensures KeysFromInput(KeyLines(k)) == Some(k)
  {
    var parts := [k.ageSecretKey, k.agePublicKey, k.aesCipherKey];
    JoinThree(parts, '\n');
    SplitOfJoin(parts, '\n');
  }

  // ---------------------------------------------------------------------------
  // Secret generation

  /** The secret sent for a command: a secret carrying the generation marker is
      replaced by the generator's value for the rest of it, or by the error tag
      and the pattern when the generator fails; any other secret is sent as is. */
  function ResolveSecret(secret: string, generationPrefix: string, generate: Generator): (r: string)
    ensures !HasPrefix(secret, generationPrefix) ==> r == secret
    ensures HasPrefix(secret, generationPrefix) ==>
              var pattern := secret[|generationPrefix|..];
              r == generate(pattern).GetOr(ParseErrorTag + pattern)
  {
    if HasPrefix(secret, generationPrefix) then
      var pattern := ReplaceFirst(secret, generationPrefix, "");
      assert pattern == secret[|generationPrefix|..];
      match generate(pattern)
      case Some(v) => v
      case None => ParseErrorTag + pattern
    else secret
  }

  /** The marker is removed once only: a pattern that itself starts with the
      marker (as in "gen:gen:x") reaches the generator with that marker. */
  lemma MarkerStrippedOnce(marker: string, pattern: string, generate: Generator)
    ensures ResolveSecret(marker + pattern, marker, generate)
              == generate(pattern).GetOr(ParseErrorTag + pattern)
  {
    assert (marker + pattern)[|marker|..] == pattern;
  }

  /** With "gen:" configured and a working generator, "gen:alnum:12" is sent as
      the generator's value for "alnum:12". */
  lemma GeneratedSecretScenario(generate: Generator)
    requires generate("alnum:12").Some?
    ensures ResolveSecret("gen:alnum:12", "gen:", generate) == generate("alnum:12").value
  {
    assert "gen:alnum:12"[4..] == "alnum:12";
  }

  /** An empty marker makes every secret a generation pattern. */
  lemma EmptyMarkerGeneratesEverything(secret: string, generate: Generator)
    ensures ResolveSecret(secret, "", generate) == generate(secret).GetOr(ParseErrorTag + secret)
  {
  }

  // ---------------------------------------------------------------------------
  // Dispatch

  /** The secret request for a command: the upsert body, built from the resolved
      secret, sent to the secrets path with DELETE when the command deletes and
      POST otherwise. */
  function SecretRequest(sc: SentinelCommand, env: SentinelEnv, generate: Generator): (r: Request)
    ensures r.path == SecretsPath && r.payload.SecretPayload?
    ensures r.verb == HttpDelete <==> sc.deleteSecret
    ensures r.payload.secret.value == ResolveSecret(sc.secret, env.secretGenerationPrefix, generate)
    ensures var body := r.payload.secret;
            && body.workloadId == sc.workloadId && body.namespaces == sc.namespaces
            && body.useKubernetes == sc.useKubernetes && body.template == sc.template
            && body.encrypt == sc.encrypt && body.appendValue == sc.appendSecret
            && body.backingStore == DecideBackingStore(sc.backingStore, env.defaultBackingStore)
            && body.format == DecideSecretFormat(sc.format)
            && body.notBefore == (if sc.notBefore == "" then DefaultNotBefore else sc.notBefore)
            && body.expires == (if sc.expires == "" then DefaultExpires else sc.expires)
  {
    var sr := NewSecretUpsertRequest(sc.workloadId,
      ResolveSecret(sc.secret, env.secretGenerationPrefix, generate), sc.namespaces,
      sc.backingStore, sc.useKubernetes, sc.template, sc.format, sc.encrypt,
      sc.appendSecret, sc.notBefore, sc.expires, env.defaultBackingStore);
    Request(SecretsPath, if sc.deleteSecret then HttpDelete else HttpPost, SecretPayload(sr))
  }

  /** Deleting and upserting send the identical body to the same path; only the
      verb differs. */
  lemma DeleteDiffersOnlyInVerb(sc: SentinelCommand, env: SentinelEnv, generate: Generator)
    ensures var del := SecretRequest(sc.(deleteSecret := true), env, generate);
            var up := SecretRequest(sc.(deleteSecret := false), env, generate);
            del.path == up.path && del.payload == up.payload
            && del.verb == HttpDelete && up.verb == HttpPost
  {
  }

  /** Why the acquisition race stops the command, if it does. */
  function AcquisitionFailure(acquisition: Acquisition): (r: Option<Failure>)
    ensures r.None? <==> acquisition == SourceAcquired(true)
  {
    match acquisition
    case DeadlineExceeded => Some(SpireTimeout)
    case ContextCancelled => Some(OperationCancelled)
    case SourceAcquired(proceed) => if proceed then None else Some(SourceNotUsable)
  }

  /** `Post`: after the identity source is acquired, a non-empty key triple
      takes priority and is the only request sent; otherwise the secret is
      resolved and the secret request is sent. */
  method Post(env: SentinelEnv, sc: SentinelCommand, acquisition: Acquisition, generate: Generator)
    returns (outcome: Outcome)
    ensures AcquisitionFailure(acquisition).Some? ==>
              outcome == Abandoned(AcquisitionFailure(acquisition).value)
    ensures acquisition == SourceAcquired(true) && sc.inputKeys != "" ==>
              if !env.endpointUrlValid then outcome == Abandoned(EndpointUrlError)
              else if Count(sc.inputKeys, '\n') != 2 then outcome == Abandoned(BadKeyData)
              else outcome.Sent? && outcome.request.path == KeysPath
                   && outcome.request.verb == HttpPost && outcome.request.payload.KeysPayload?
                   && KeyLines(outcome.request.payload.keys) == sc.inputKeys
                   && NewlineFree(outcome.request.payload.keys)
    ensures acquisition == SourceAcquired(true) && sc.inputKeys == "" ==>
              outcome == if env.endpointUrlValid then Sent(SecretRequest(sc, env, generate))
                         else Abandoned(EndpointUrlError)
  {
    match acquisition {
      case DeadlineExceeded =>
        return Abandoned(SpireTimeout);
      case ContextCancelled =>
        return Abandoned(OperationCancelled);
      case SourceAcquired(proceed) =>
        if !proceed {
          return Abandoned(SourceNotUsable);
        }
    }

    var cmd := sc;

    if cmd.inputKeys != "" {
      if !env.endpointUrlValid {
        return Abandoned(EndpointUrlError);
      }
      var parts := Split(cmd.inputKeys, '\n');
      if |parts| != 3 {
        return Abandoned(BadKeyData);
      }
      var sr := KeyInputRequest(parts[0], parts[1], parts[2]);
      assert KeysFromInput(cmd.inputKeys) == Some(sr);
      return Sent(Request(KeysPath, HttpPost, KeysPayload(sr)));
    }

    if HasPrefix(cmd.secret, env.secretGenerationPrefix) {
      cmd := cmd.(secret := ReplaceFirst(cmd.secret, env.secretGenerationPrefix, ""));
      var generated := generate(cmd.secret);
      if generated.None? {
        cmd := cmd.(secret := ParseErrorTag + cmd.secret);
      } else {
        cmd := cmd.(secret := generated.value);
      }
    }

    if !env.endpointUrlValid {
      return Abandoned(EndpointUrlError);
    }

    var sr := NewSecretUpsertRequest(cmd.workloadId, cmd.secret, cmd.namespaces,
      cmd.backingStore, cmd.useKubernetes, cmd.template, cmd.format, cmd.encrypt,
      cmd.appendSecret, cmd.notBefore, cmd.expires, env.defaultBackingStore);

    if cmd.deleteSecret {
      return Sent(Request(SecretsPath, HttpDelete, SecretPayload(sr)));
    }

    return Sent(Request(SecretsPath, HttpPost, SecretPayload(sr)));
  }

  /** `PostInitializationComplete`: once the identity source is acquired, an
      empty marker is POSTed to the init-completed path. */
  method PostInitializationComplete(env: SentinelEnv, acquisition: Acquisition)
    returns (outcome: Outcome)
    ensures AcquisitionFailure(acquisition).Some? ==>
              outcome == Abandoned(AcquisitionFailure(acquisition).value)
    ensures acquisition == SourceAcquired(true) && env.endpointUrlValid ==>
              outcome == Sent(Request(InitCompletedPath, HttpPost, InitCompletePayload))
    ensures acquisition == SourceAcquired(true) && !env.endpointUrlValid ==>
              outcome == Abandoned(EndpointUrlError)
  {
    match acquisition {
      case DeadlineExceeded =>
        return Abandoned(SpireTimeout);
      case ContextCancelled =>
        return Abandoned(OperationCancelled);
      case SourceAcquired(proceed) =>
        if !proceed {
          return Abandoned(SourceNotUsable);
        }
    }

    if !env.endpointUrlValid {
      return Abandoned(EndpointUrlError);
    }

    return Sent(Request(InitCompletedPath, HttpPost, InitCompletePayload));
  }
}
