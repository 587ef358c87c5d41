/** Handoff imports (crates/api/src/handoffs.rs and its callers in app.rs): the statements on
    one `handoffs` row, and what the handlers make of what they read. */
module Handoffs {
  import opened Prelude

  type Body = seq<bv8>

  /** SHA-256, taken to be free of collisions: a body stands for its own digest. */
  function Digest(body: Body): Body { body }

  const I64_MAX: nat := 0x7FFF_FFFF_FFFF_FFFF
  const PATCH_BYTES_MAX: nat := 256 * 1024 * 1024
  const TRANSCRIPT_BYTES_MAX: nat := 1024 * 1024 * 1024

  type u64 = n: nat | n <= U64_MAX

  datatype Payload = Patch | Transcript

  /** What the row records of one object. */
  datatype Fact = Fact(digest: Body, bytes: int)

  datatype Row = Row(baseCommit: string, patch: Option<Fact>, transcript: Option<Fact>, created: nat, completed: Option<nat>)

  datatype Manifest = Manifest(patchDigest: Body, patchBytes: u64, transcriptDigest: Body, transcriptBytes: u64)

  datatype Viewed = NoHandoff | Corrupt | Handoff(baseCommit: string, patchDigest: Body, hasTranscript: bool)

  datatype Outcome =
    | SessionNotFound
    | InvalidTransition
    | NotPending
    | TooLarge(payload: Payload)
    | ObjectMissing(payload: Payload)
    | ChecksumMismatch(payload: Payload)
    | CorruptRecord
    | QueueRefused
    | Stored
    | Finished(completedNow: bool)

  function Limit(payload: Payload): nat
  {
    match payload
    case Patch => PATCH_BYTES_MAX
    case Transcript => TRANSCRIPT_BYTES_MAX
  }

  function FactOf(body: Body): Fact
  {
    Fact(Digest(body), Min(|body|, I64_MAX))
  }

  /** `u64::cast_signed`. */
  function CastSigned(n: u64): int
  {
    if n <= I64_MAX then n else n - U64_MAX - 1
  }

  function Claimed(manifest: Manifest, payload: Payload): Fact
  {
    match payload
    case Patch => Fact(manifest.patchDigest, CastSigned(manifest.patchBytes))
    case Transcript => Fact(manifest.transcriptDigest, CastSigned(manifest.transcriptBytes))
  }

  function Recorded(row: Row, payload: Payload): Option<Fact>
  {
    match payload
    case Patch => row.patch
    case Transcript => row.transcript
  }

  /** "The same manifest": all four facts. */
  predicate Same(row: Row, manifest: Manifest)
  {
    && row.patch == Some(Claimed(manifest, Patch))
    && row.transcript == Some(Claimed(manifest, Transcript))
  }

  /** What `complete` makes of the row it read: an answer, or going on to mark it. */
  function Judged(row: Option<Row>, manifest: Manifest): Option<Outcome>
  {
    if row.None? then Some(SessionNotFound)
    else if row.value.completed.Some? then Some(if Same(row.value, manifest) then Finished(false) else NotPending)
    else if row.value.patch.None? then Some(ObjectMissing(Patch))
    else if row.value.transcript.None? then Some(ObjectMissing(Transcript))
    else if row.value.patch != Some(Claimed(manifest, Patch)) then Some(ChecksumMismatch(Patch))
    else if row.value.transcript != Some(Claimed(manifest, Transcript)) then Some(ChecksumMismatch(Transcript))
    else None
  }

  /** `require_pending`, then the size check. */
  function Admitted(row: Option<Row>, payload: Payload, body: Body): Option<Outcome>
  {
    if row.None? || row.value.completed.Some? then Some(NotPending)
    else if |body| > Limit(payload) then Some(TooLarge(payload))
    else None
  }

  /** `UPDATE … WHERE completed_at_unix IS NULL` of one payload's facts. */
  function Uploaded(row: Row, payload: Payload, body: Body): Row
  {
    if row.completed.Some? then row
    else match payload
      case Patch => row.(patch := Some(FactOf(body)))
      case Transcript => row.(transcript := Some(FactOf(body)))
  }

  /** `UPDATE … SET completed_at_unix … WHERE completed_at_unix IS NULL`. */
  function Marked(row: Row, now: nat): Row
  {
    if row.completed.Some? then row else row.(completed := Some(now))
  }

  /** `view_for_daemon`. */
  function ViewForDaemon(row: Option<Row>): Viewed
  {
    if row.None? || row.value.completed.None? then NoHandoff
    else match row.value.patch
      case None => Corrupt
      case Some(fact) => Handoff(row.value.baseCommit, fact.digest, row.value.transcript.Some?)
  }

  /** A body no larger than its limit is recorded at its true size, and a manifest agrees
      with it exactly when it names the same digest and the same number of bytes. */
  lemma ClaimsAgree(manifest: Manifest, payload: Payload, body: Body)
    requires |body| <= Limit(payload)
    ensures FactOf(body).bytes == |body|
    ensures Claimed(manifest, payload) == FactOf(body) <==>
      match payload
      case Patch => manifest.patchDigest == Digest(body) && manifest.patchBytes == |body|
      case Transcript => manifest.transcriptDigest == Digest(body) && manifest.transcriptBytes == |body|
  {
  }
}
