/**
  Key delivery end to end: the key triple the operator gives Sentinel, the keys
  request Sentinel sends, and the master key Safe stores from it.
 */
module KeyDelivery {
  import opened Wrappers
  import opened GoStrings
  import opened Entity
  import opened SentinelPost
  import opened ReceiveRoute

  /** The stored master key still encodes the three trimmed fragments: when
      none of them holds a line break, splitting the key the way Sentinel
      splits its input gives them back in order. */
  lemma StoredKeyRecoversFragments(req: KeyInputRequest)
    requires NewlineFree(TrimmedKeys(req))
    ensures KeysFromInput(CombinedMasterKey(req)) == Some(TrimmedKeys(req))
  {
    KeysRoundTrip(TrimmedKeys(req));
  }

  /** An operator's triple of non-empty, trimmed, single-line fragments goes
      through unchanged: Sentinel sends exactly those fragments, Safe accepts
      them, and the master key Safe stores is the operator's input itself. */
  lemma DeliveryPreservesInput(k: KeyInputRequest)
    requires NewlineFree(k)
    requires k.ageSecretKey != "" && k.agePublicKey != "" && k.aesCipherKey != ""
    requires Trimmed(k.ageSecretKey) && Trimmed(k.agePublicKey) && Trimmed(k.aesCipherKey)
    ensures KeysFromInput(KeyLines(k)) == Some(k)
    ensures FragmentsPresent(k)
    ensures CombinedMasterKey(k) == KeyLines(k)
  {
    KeysRoundTrip(k);
    TrimmedFragmentsStoredVerbatim(k);
  }

  /** Sentinel does not check for empty fragments: an input whose first line is
      empty is sent as a keys request, which Safe then rejects. */
  lemma SentinelForwardsWhatSafeRejects(publicKey: string, cipherKey: string)
    requires '\n' !in publicKey && '\n' !in cipherKey
    ensures KeysFromInput("\n" + publicKey + "\n" + cipherKey)
              == Some(KeyInputRequest("", publicKey, cipherKey))
    ensures !FragmentsPresent(KeyInputRequest("", publicKey, cipherKey))
  {
    var k := KeyInputRequest("", publicKey, cipherKey);
    assert KeyLines(k) == "\n" + publicKey + "\n" + cipherKey;
    KeysRoundTrip(k);
  }
}
