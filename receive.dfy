/**
  Safe's handler for a key delivery. It authorizes the caller as Sentinel, reads
  and decodes the body, trims the three fragments, and stores their newline-joined
  combination as the process-wide master key, journalling each rejection.
 */
module ReceiveRoute {
  import opened Wrappers
  import opened GoStrings
  import opened Validation
  import opened Entity
  import opened Audit

  /** The response body of a successful delivery. */
  const OkResponse: string := "OK"

  /** The three fragments with surrounding white space removed. */
  function TrimmedKeys(req: KeyInputRequest): (t: KeyInputRequest)
    ensures Trimmed(t.ageSecretKey) && Trimmed(t.agePublicKey) && Trimmed(t.aesCipherKey)
  {
    KeyInputRequest(TrimSpace(req.ageSecretKey), TrimSpace(req.agePublicKey),
                    TrimSpace(req.aesCipherKey))
  }

  /** The emptiness test of a delivery: it is complete when no fragment is
      empty after trimming, that is, when no fragment is empty or white space
      only. */
  function FragmentsPresent(req: KeyInputRequest): (r: bool)
    ensures r <==> !AllSpace(req.ageSecretKey) && !AllSpace(req.agePublicKey)
                   && !AllSpace(req.aesCipherKey)
  {
    TrimSpaceEmptyIff(req.ageSecretKey);
    TrimSpaceEmptyIff(req.agePublicKey);
    TrimSpaceEmptyIff(req.aesCipherKey);
    var t := TrimmedKeys(req);
    t.ageSecretKey != "" && t.agePublicKey != "" && t.aesCipherKey != ""
  }

  /** The shape of a stored master key: non-empty, at least two line breaks,
      and no white space at either end. */
  predicate WellFormedMasterKey(k: string) {
    k != [] && Count(k, '\n') >= 2 && Trimmed(k)
  }

  /** The line breaks of the joined triple: the fragments' own plus two. */
  lemma {:induction false} CountKeyLines(k: KeyInputRequest)
    ensures Count(KeyLines(k), '\n')
              == Count(k.ageSecretKey, '\n') + Count(k.agePublicKey, '\n') + Count(k.aesCipherKey, '\n') + 2
  {
    var a, b, c := k.ageSecretKey, k.agePublicKey, k.aesCipherKey;
    CountAppend(a + "\n" + b + "\n", c, '\n');
    CountAppend(a + "\n" + b, "\n", '\n');
    CountAppend(a + "\n", b, '\n');
    CountAppend(a, "\n", '\n');
  }

  /** Joining three non-empty trimmed fragments gives a well-formed key. */
  lemma KeyLinesWellFormed(t: KeyInputRequest)
    requires t.ageSecretKey != "" && t.agePublicKey != "" && t.aesCipherKey != ""
    requires Trimmed(t.ageSecretKey) && Trimmed(t.aesCipherKey)
    ensures WellFormedMasterKey(KeyLines(t))
  {
    var k := KeyLines(t);
    CountKeyLines(t);
    assert k[0] == t.ageSecretKey[0];
    assert k[|k| - 1] == t.aesCipherKey[|t.aesCipherKey| - 1];
  }

  /** The master key a delivery produces: trimmed age secret key, age public
      key and AES cipher key, in that order, one per line. A complete delivery
      always produces a well-formed key. */
  function CombinedMasterKey(req: KeyInputRequest): (k: string)
    ensures FragmentsPresent(req) ==> WellFormedMasterKey(k)
  {
    var t := TrimmedKeys(req);
    assert FragmentsPresent(req) ==> WellFormedMasterKey(KeyLines(t)) by {
      if FragmentsPresent(req) {
        KeyLinesWellFormed(t);
      }
    }
    KeyLines(t)
  }

  /** A key some complete delivery produces. */
  ghost predicate DeliveredKey(k: string) {
    exists req :: FragmentsPresent(req) && CombinedMasterKey(req) == k
  }

  /** Fragments that are already trimmed and non-empty are stored verbatim,
      one per line: {sk1, pk1, ck1} is stored as "sk1\npk1\nck1". */
  lemma TrimmedFragmentsStoredVerbatim(k: KeyInputRequest)
    requires Trimmed(k.ageSecretKey) && Trimmed(k.agePublicKey) && Trimmed(k.aesCipherKey)
    requires k.ageSecretKey != "" && k.agePublicKey != "" && k.aesCipherKey != ""
    ensures FragmentsPresent(k) && CombinedMasterKey(k) == KeyLines(k)
  {
    TrimSpaceOfTrimmed(k.ageSecretKey);
    TrimSpaceOfTrimmed(k.agePublicKey);
    TrimSpaceOfTrimmed(k.aesCipherKey);
  }

  /** The journal entry a delivery opens with: the default entry holding an
      empty key input request. */
  function OpeningEntry(cid: string, spiffeid: string, r: HttpRequest): (j: JournalEntry)
    ensures j.entity == KeyInput(EmptyKeyInput) && j.event == Enter
    ensures j.correlationId == cid && j.spiffeid == spiffeid
  {
    DefaultJournalEntry(cid, spiffeid, r).(entity := KeyInput(EmptyKeyInput))
  }

  /** The Safe process as far as key delivery touches it: the master-key
      register and the audit journal. */
  class SafeProcess {
    var masterKey: string
    var journal: seq<JournalEntry>
    /** How many times the master key has been written. */
    ghost var keyWrites: nat

    /** The register is empty or holds a key a complete delivery produced
        (and so a well-formed one). */
    ghost predicate Valid()
      reads this
    {
      masterKey == "" || DeliveredKey(masterKey)
    }

    /** At process start no key is held and nothing is journalled. */
    constructor ()
      ensures masterKey == "" && journal == [] && keyWrites == 0
      ensures Valid()
    {
      masterKey := "";
      journal := [];
      keyWrites := 0;
    }

    /** `state.SetMasterKey`: replaces the held key unconditionally. */
    method SetMasterKey(k: string)
      modifies this`masterKey, this`keyWrites
      ensures masterKey == k && keyWrites == old(keyWrites) + 1
    {
      masterKey := k;
      keyWrites := keyWrites + 1;
    }

    /** `audit.Log`: appends a snapshot of the entry to the journal. */
    method Log(j: JournalEntry)
      modifies this`journal
      ensures journal == old(journal) + [j]
    {
      journal := journal + [j];
    }

    /** `ReceiveKeys`. The body is what the body reader returned (None where
        it gave up) and `decode` the JSON decoder of the key input request
        (None where it failed). The result is what the handler itself writes
        to the response. */
    method ReceiveKeys(cid: string, r: HttpRequest, spiffeid: string, sentinelPrefix: string,
                       body: Option<string>, decoded: Option<KeyInputRequest>)
      returns (written: string)
      modifies this
      ensures old(Valid()) ==> Valid()
      // A caller that is not Sentinel: BadSvid, nothing decoded, key untouched.
      ensures !IsSentinel(spiffeid, sentinelPrefix) ==>
                var opening := OpeningEntry(cid, spiffeid, r);
                && journal == old(journal) + [opening, opening.(event := BadSvid)]
                && masterKey == old(masterKey) && keyWrites == old(keyWrites)
                && written == ""
      // An unreadable or undecodable body: BadPayload with the empty entity.
      ensures IsSentinel(spiffeid, sentinelPrefix) && (body.None? || decoded.None?) ==>
                var opening := OpeningEntry(cid, spiffeid, r);
                && journal == old(journal) + [opening, opening.(event := BadPayload)]
                && masterKey == old(masterKey) && keyWrites == old(keyWrites)
                && written == ""
      // A decoded request with an empty fragment: BadPayload with the request.
      ensures IsSentinel(spiffeid, sentinelPrefix) && body.Some? && decoded.Some?
              && !FragmentsPresent(decoded.value) ==>
                var opening := OpeningEntry(cid, spiffeid, r);
                && journal == old(journal)
                     + [opening, opening.(event := BadPayload, entity := KeyInput(decoded.value))]
                && masterKey == old(masterKey) && keyWrites == old(keyWrites)
                && written == ""
      // A complete delivery: the key is written once, OK is written, and only
      // the opening entry is journalled.
      ensures IsSentinel(spiffeid, sentinelPrefix) && body.Some? && decoded.Some?
              && FragmentsPresent(decoded.value) ==>
                && journal == old(journal) + [OpeningEntry(cid, spiffeid, r)]
                && masterKey == CombinedMasterKey(decoded.value)
                && keyWrites == old(keyWrites) + 1
                && written == OkResponse
    {
      var j := DefaultJournalEntry(cid, spiffeid, r);
      j := j.(entity := KeyInput(EmptyKeyInput));
      Log(j);

      if !IsSentinel(spiffeid, sentinelPrefix) {
        j := j.(event := BadSvid);
        Log(j);
        return "";
      }

      if body.None? {
        j := j.(event := BadPayload);
        Log(j);
        return "";
      }

      var ur := decoded;
      if ur.None? {
        j := j.(event := BadPayload);
        Log(j);
        return "";
      }

      var sr := ur.value;
      j := j.(entity := KeyInput(sr));

      var aesCipherKey := TrimSpace(sr.aesCipherKey);
      var agePrivateKey := TrimSpace(sr.ageSecretKey);
      var agePublicKey := TrimSpace(sr.agePublicKey);

      if aesCipherKey == "" || agePrivateKey == "" || agePublicKey == "" {
        assert !FragmentsPresent(sr);
        j := j.(event := BadPayload);
        Log(j);
        return "";
      }

      assert FragmentsPresent(sr);
      var keysCombined := agePrivateKey + "\n" + agePublicKey + "\n" + aesCipherKey;
      SetMasterKey(keysCombined);
      assert CombinedMasterKey(sr) == masterKey;

      written := OkResponse;
    }
  }
}
