/**
 The entities every other module speaks about: mail identifiers, file digests,
 the mirror row with its archive columns, and Python's integer truncation.
 */
module Mail {

  datatype Option<+T> = None | Some(value: T)

  type ItemId = string

  newtype Byte = x: int | 0 <= x < 256

  type Bytes = seq<Byte>

  /** A SHA-256 digest, abstracted to the one property the archive relies on:
      two contents with the same digest are the same content.  `Malformed` is a
      stored value that is not 64 hex digits; turning it into a path raises. */
  datatype Sha = Sha256(content: Bytes) | Malformed(text: string)

  function Hash(data: Bytes): Sha {
    Sha256(data)
  }

  datatype ArchiveState = Live | Captured | Verified | Deleted

  /** The columns the sync engine owns and overwrites on every upsert. */
  datatype Mirror = Mirror(folder: string, dateTs: Option<int>, categories: seq<string>,
                           isRead: bool, body: string)

  /** One row of ews.messages: the mirror columns plus the archive columns.
      Instants are whole microseconds since the epoch. */
  datatype Row = Row(mirror: Mirror, state: ArchiveState, sha: Option<Sha>,
                     capturedCk: Option<string>, verifiedAt: Option<int>)

  /** One row of ews.attachments; no digest means the bytes live inside the MIME. */
  datatype Attachment = Attachment(name: string, size: Option<nat>, sha: Option<Sha>)

  /** A changekey can be trusted only when it is there at all: Python's `not ck`
      rejects both None and the empty string. */
  predicate Usable(ck: Option<string>) {
    ck.Some? && ck.value != ""
  }

  const SECOND := 1_000_000
  const DAY := 86_400 * SECOND
  const HOUR := 3_600 * SECOND

  /** Python's int() on an instant in seconds: truncation toward zero. */
  function TruncSeconds(t: int): int {
    if 0 <= t then t / SECOND else -((-t) / SECOND)
  }
}
