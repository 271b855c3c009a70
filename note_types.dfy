/**
 * The values the note API route exchanges: the JSON view of a note payload,
 * the `BasicIpfsData` record, the `ErrorResponse` body and the HTTP response.
 *
 * JSON values are reduced to what the route looks at. A field the route reads
 * as a string is an `Option<string>`: `None` stands for `undefined` or `null`.
 */
module NoteTypes {

  datatype Option<+T> = None | Some(value: T)

  /** A content identifier in its printed (string) form. */
  type Cid = string

  /** JavaScript truthiness of an optional string: present and not empty. */
  predicate Truthy(s: Option<string>)
  {
    s.Some? && s.value != ""
  }

  /**
   * The `metadata` object of a payload: `userAddress`, the one field the
   * route tests, and the object's other fields by name (their values reduced
   * to strings). The read path echoes the whole object; the write path keeps
   * only `userAddress`.
   * A falsy `metadata` that is not `null`/`undefined` (such as `0` or `""`)
   * behaves in both paths like `Metadata(None, map[])`: reading `userAddress`
   * from it yields `undefined` without throwing.
   */
  datatype Metadata = Metadata(userAddress: Option<string>, others: map<string, string>)

  /**
   * A note payload: the `noteData` of a POST body, and what `JSON.parse`
   * yields for a stored blob. `metadata` is `None` when it is `null` or
   * `undefined`, the case in which reading `metadata.userAddress` throws.
   */
  datatype Payload = Payload(text: Option<string>, metadata: Option<Metadata>)

  /**
   * `BasicIpfsData`. On the write path `content` and `userAddress` are copied
   * from the request unchecked, so they may be `undefined`; on the read path
   * both are truthy strings.
   */
  datatype Note = Note(cid: Cid, content: Option<string>, metadata: Metadata)

  /** The `address` query parameter: absent, given once, or repeated (an array). */
  datatype QueryParam = Absent | Single(value: string) | Repeated(values: seq<string>)

  /** Truthiness of `req.query.address`: an array is truthy even when empty. */
  predicate QueryTruthy(q: QueryParam)
  {
    q.Repeated? || (q.Single? && q.value != "")
  }

  /** A JSON response body: one record, a list of records, or an `ErrorResponse`. */
  datatype Body = Record(note: Note) | Records(notes: seq<Note>) | Error(error: string)

  /**
   * What one request produces: a status code with a body, or an exception
   * that escapes the handler (the framework's reply to it is not modelled).
   */
  datatype Response = Reply(status: int, body: Body) | Unhandled

  /**
   * `req.body`: `null` or `undefined`, from which destructuring `noteData`
   * throws, or a parsed body whose `noteData` is `None` when falsy (also when
   * the body is not an object and so has no such field).
   */
  datatype RequestBody = NullBody | JsonBody(noteData: Option<Payload>)

  /** The parts of a request the route reads: `verb` is `req.method`. */
  datatype Request = Request(verb: string, body: RequestBody, address: QueryParam)

  const ContentRequired := "Content is required."
  const AddFailed := "Failed to add data to IPFS."
  const AddressRequired := "Address is required."
  const MethodNotAllowed := "Method not allowed."
  const PinsUnavailable := "Failed to retrieve pinned CIDs."
  const NoNotesFound := "No notes found for this user."
}
