/**
  Audit journal entries: one record per security decision, keyed by the
  correlation id of the request, carrying the caller's SPIFFE ID, the event and
  a snapshot of the request entity.
 */
module Audit {
  import opened Entity

  /** The events a key delivery can log. */
  datatype Event = Enter | BadSvid | BadPayload

  /** The entity snapshot: none yet, or one of the request shapes. */
  datatype JournalEntity =
    | NoEntity
    | KeyInput(keys: KeyInputRequest)
    | SecretUpsert(secret: SecretUpsertRequest)
    | InitComplete

  /** The parts of the incoming HTTP request the journal records. */
  datatype HttpRequest = HttpRequest(httpMethod: string, url: string)

  datatype JournalEntry = JournalEntry(
    correlationId: string,
    entity: JournalEntity,
    httpMethod: string,
    url: string,
    spiffeid: string,
    event: Event)

  /** The entry a protected operation opens with: correlation id, caller and
      request line, no entity yet, event Enter. */
  function DefaultJournalEntry(cid: string, spiffeid: string, r: HttpRequest): (j: JournalEntry)
    ensures j.correlationId == cid && j.spiffeid == spiffeid
    ensures j.httpMethod == r.httpMethod && j.url == r.url
    ensures j.entity == NoEntity && j.event == Enter
  {
    JournalEntry(cid, NoEntity, r.httpMethod, r.url, spiffeid, Enter)
  }
}
