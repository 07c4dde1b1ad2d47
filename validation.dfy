/**
  The identity gate: each role (Sentinel, Safe, Workload) is recognised by the
  configured SPIFFE ID prefix of that role. The prefixes come from the
  environment in the source and are parameters here.
 */
module Validation {
  import opened GoStrings

  /** `IsSentinel`: the id belongs to Sentinel when it starts with the Sentinel
      prefix. */
  function IsSentinel(spiffeid: string, sentinelPrefix: string): (r: bool)
    ensures r <==> sentinelPrefix <= spiffeid
  {
    HasPrefix(spiffeid, sentinelPrefix)
  }

  /** `IsSafe`: the id belongs to Safe when it starts with the Safe prefix. */
  function IsSafe(spiffeid: string, safePrefix: string): (r: bool)
    ensures r <==> safePrefix <= spiffeid
  {
    HasPrefix(spiffeid, safePrefix)
  }

  /** `IsWorkload`: the id belongs to a workload when it starts with the
      Workload prefix. */
  function IsWorkload(spiffeid: string, workloadPrefix: string): (r: bool)
    ensures r <==> workloadPrefix <= spiffeid
  {
    HasPrefix(spiffeid, workloadPrefix)
  }

  /** The three role tests, as one function over a role tag. */
  datatype Role = Sentinel | Safe | Workload

  function HasRole(role: Role, spiffeid: string, prefix: string): (r: bool)
    ensures r <==> |prefix| <= |spiffeid| && spiffeid[..|prefix|] == prefix
  {
    match role
    case Sentinel => IsSentinel(spiffeid, prefix)
    case Safe => IsSafe(spiffeid, prefix)
    case Workload => IsWorkload(spiffeid, prefix)
  }

  /** An id shorter than the configured prefix is rejected for every role. */
  lemma ShortIdRejected(role: Role, spiffeid: string, prefix: string)
    requires |spiffeid| < |prefix|
    ensures !HasRole(role, spiffeid, prefix)
  {
    ShorterNeverHasPrefix(spiffeid, prefix);
  }

  /** Acceptance is closed under extension: an accepted id stays accepted with
      any suffix appended. */
  lemma AcceptedIdExtends(role: Role, spiffeid: string, suffix: string, prefix: string)
    requires HasRole(role, spiffeid, prefix)
    ensures HasRole(role, spiffeid + suffix, prefix)
  {
    HasPrefixExtends(spiffeid, suffix, prefix);
  }

  /** The prefix itself is an accepted id, and an empty prefix accepts every id. */
  lemma PrefixAccepted(role: Role, spiffeid: string, prefix: string)
    ensures HasRole(role, prefix, prefix)
    ensures HasRole(role, spiffeid, "")
  {
    HasPrefixReflexiveAndEmpty(prefix);
    HasPrefixReflexiveAndEmpty(spiffeid);
  }

  /** Roles are told apart only by convention: an id can hold both the
      Sentinel and the Safe role only when one configured prefix extends the
      other, so prefixes that diverge keep the roles disjoint ... */
  lemma BothRolesNeedNestedPrefixes(spiffeid: string, sentinelPrefix: string, safePrefix: string)
    requires IsSentinel(spiffeid, sentinelPrefix) && IsSafe(spiffeid, safePrefix)
    ensures sentinelPrefix <= safePrefix || safePrefix <= sentinelPrefix
  {
    if |sentinelPrefix| <= |safePrefix| {
      assert safePrefix[..|sentinelPrefix|] == spiffeid[..|sentinelPrefix|];
    } else {
      assert sentinelPrefix[..|safePrefix|] == spiffeid[..|safePrefix|];
    }
  }

  /** ... while a Sentinel prefix that is a prefix of the Safe prefix makes every
      Safe id a Sentinel id as well. */
  lemma NestedPrefixesOverlap(spiffeid: string, sentinelPrefix: string, safePrefix: string)
    requires sentinelPrefix <= safePrefix
    requires IsSafe(spiffeid, safePrefix)
    ensures IsSentinel(spiffeid, sentinelPrefix)
  {
    assert spiffeid[..|sentinelPrefix|] == safePrefix[..|sentinelPrefix|];
  }
}
