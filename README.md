# Wallet-gated notes on IPFS: the note API route

This project models the server side of a small note-taking application: the
Next.js API route `pages/api/ipfs.ts`. A POST stores a note's JSON on an IPFS
node (`add`, then `pin.add`), appends a `BasicIpfsData` record to the
module-level in-memory `notes` list and echoes it. A GET for an `address`
lists every pinned CID, fetches and parses each blob, silently skips the CIDs
whose fetch, parse or shape check fails, keeps the records whose
`metadata.userAddress` equals the address exactly, and answers 200 with them
or 404 when there are none. Any other method gets 405.

Layout:

- `note_types.dfy` (module `NoteTypes`): payloads, the `BasicIpfsData` record
  (`Note`), response bodies and statuses, the `address` query parameter, the
  error strings.
- `ipfs_node.dfy` (module `IpfsNode`): the node's observable state (`Node`:
  pins in `pin.ls` order and a CID-to-blob map) and what a successful `add`,
  `pin.add` and `cat` do to it or read from it.
- `note_scan.dfy` (module `NoteScan`): the read path's validation and filters
  as the route composes them (`ParseNote`, `ParseAll`, `Present`, `OwnedBy`),
  a reference definition that takes one pin at a time (`UserNotes`), and the
  lemmas about the scan.
- `notes_api.dfy` (module `NotesApi`): `PostSpec`, `RetrieveSpec` and
  `GetSpec`, the lemmas about them, and the class `NotesHandler` that holds
  the route's state (`notes`, `node`) with the methods `Post`, `Retrieve` and
  `Handle`, each proved equal to its specification function.

Whether a client call throws is a parameter (`ClientOutcomes`): the CID `add`
returns or `None`, whether `pin.add` succeeds, and after how many CIDs the
`pin.ls` stream throws, if it does, and the set of CIDs whose `cat` throws
during the request (`IpfsNode.Seen` gives the node as that request reads
it). `add` goes through the node's HTTP API,
whose `add` pins the new CID by default, so a successful `add` already pins.
A CID with no content on the node also fails to fetch (`Blob.CatFails`).

Behaviour of the route as written, which the model keeps:

- POST reads `noteData` from `req.body` without a guard: a `null` or
  `undefined` body makes the handler throw at line 33 (`Unhandled`).
- POST checks only that `noteData` is truthy (400); it does not check `text`
  or the address, so a record may carry `undefined` fields.
- Store failures give 500, and a failed pin gives the same 500 and message
  as a failed add. Since `add` pinned already, a well-formed note of such a
  request (truthy `text` and `metadata.userAddress`) is still listed by a
  later GET for its address, unless that GET's `pin.ls` or its fetch of the
  CID throws.
- A GET with no matching note gives 404.
- A `noteData` without `metadata` makes the handler throw at line 58 after the
  blob was stored and pinned; the model answers `Unhandled` rather than a
  status code.
- The in-memory `notes` list is written by POST and never read by GET.

## Model

| member | source | states |
|---|---|---|
| `IpfsNode.Add` | pages/api/ipfs.ts:43 | after a successful `add` the new CID's blob parses back to the payload, other CIDs read as before, the CID is pinned (the HTTP API's default), no other pin appears or disappears, and node consistency is kept |
| `IpfsNode.Pin` | pages/api/ipfs.ts:45 | after `pin.add` the CID is pinned, no other pin appears or disappears, at most one entry is added, the blobs are untouched and consistency is kept |
| `IpfsNode.Seen` | pages/api/ipfs.ts:97-122 | a request reads every CID as the node stores it, except that a CID whose `cat` throws reads as a failed fetch; the pin list is the node's |
| `IpfsNode.PinIdempotent` | pages/api/ipfs.ts:45 | pinning an already pinned CID adds no duplicate to the pin list |
| `NoteScan.ParseNote` | pages/api/ipfs.ts:96-123 | a CID yields a record exactly when its blob parsed and has truthy `text`, `metadata` and `metadata.userAddress`; the record carries that CID and the blob can be rebuilt from it |
| `NoteScan.Present` | pages/api/ipfs.ts:129 | dropping the nulls keeps a record if and only if it was present, and never lengthens the list |
| `NoteScan.PresentAppend` | pages/api/ipfs.ts:129 | dropping the nulls keeps order: it distributes over concatenation |
| `NoteScan.OwnedBy` | pages/api/ipfs.ts:132-134 | the address filter keeps exactly the records whose `userAddress` equals the queried string |
| `NoteScan.OwnedByAppend` | pages/api/ipfs.ts:132-134 | the address filter keeps order: filtering a concatenation concatenates the filtered parts |
| `NoteScan.ScanEquivalence` | pages/api/ipfs.ts:96-134 | map, drop nulls, then filter by address gives exactly the reference answer built pin by pin |
| `NoteScan.UserNotesAppend` | pages/api/ipfs.ts:96-134 | the answer for two runs of pins is the first run's answer followed by the second's, so order follows the pin list |
| `NoteScan.ContributionCases` | pages/api/ipfs.ts:106-123 | a pin contributes nothing if and only if its fetch, parse, shape check or address comparison fails, and otherwise exactly its one record |
| `NoteScan.SplitAt` | pages/api/ipfs.ts:96-134 | the answer splits around any pin entry into the answer before it, that entry's contribution and the answer after it |
| `NoteScan.SkipDoesNotAbort` | pages/api/ipfs.ts:115-123 | a pin whose fetch, parse or shape check fails is skipped and the answer is that of the other pins |
| `NoteScan.FoundInPlace` | pages/api/ipfs.ts:109-114 | a well-formed blob with the queried address appears exactly once per pin entry, at that entry's place in pin order, with the CID it came from and its `text` as content |
| `NoteScan.Isolation` | pages/api/ipfs.ts:132-134 | every returned record's `userAddress` equals the query exactly, its CID is pinned, and its blob is well formed and is rebuilt by the record (`text` as content, the whole `metadata` object) |
| `NoteScan.RepeatedAddressMatchesNothing` | pages/api/ipfs.ts:83 | a repeated `address` parameter (an array) never equals a stored address, so nothing matches |
| `NotesApi.NewRecord` | pages/api/ipfs.ts:54-60 | the record POST builds keeps only `userAddress` in its `metadata`; the record GET rebuilds from the stored blob has the same CID, content and address and the posted `metadata`'s other fields, so the two are equal exactly when there are none |
| `NotesApi.PostThrowsOnNullBody` | pages/api/ipfs.ts:33 | a `null` or `undefined` body makes the handler throw before anything is stored, and the notes and the node are unchanged |
| `NotesApi.PostRejectsMissingContent` | pages/api/ipfs.ts:33-37 | a falsy `noteData` gives 400 and leaves the notes and the node unchanged |
| `NotesApi.PostStoreFailure` | pages/api/ipfs.ts:42-50 | a failed `add` or `pin.add` gives 500 and appends nothing; a failed `add` leaves the node unchanged, a failed `pin.add` leaves the blob stored and pinned by `add` |
| `NotesApi.GetListsStoredNote` | pages/api/ipfs.ts:96-140 | a GET for the address of a well-formed pinned note, with `pin.ls` succeeding, answers 200 and lists the note's record when its `cat` succeeds; when that `cat` throws, no listed record has its CID |
| `NotesApi.PinFailureStillListed` | pages/api/ipfs.ts:43-49 | a well-formed note whose `pin.add` failed (answer 500, no record appended) is still listed by a later GET for its address, with answer 200, when that GET's `cat` of its CID succeeds |
| `NotesApi.PostAppendOnly` | pages/api/ipfs.ts:53-67 | the notes list only grows, by at most one record at its end and only on 200; that record has the CID from `add`, the payload's `text` and a `metadata` holding only its `userAddress`, is echoed as the body and is pinned |
| `NotesApi.PostThrowsWithoutMetadata` | pages/api/ipfs.ts:56-58 | a payload without `metadata` makes the handler throw after the blob is pinned, and no record is appended |
| `NotesApi.GetStatusTable` | pages/api/ipfs.ts:136-140 | GET answers only 200, 400, 404 or 500: 400 exactly for a falsy address, 500 exactly when listing pins fails, 200 exactly for a non-empty match list of records with that address, each from a pinned CID whose `cat` did not throw, 404 exactly for an empty one |
| `NotesApi.GetRepeatedAddress` | pages/api/ipfs.ts:69-72 | a repeated `address` passes the 400 check but answers 404 (500 if listing pins fails) |
| `NotesApi.PostThenGet` | pages/api/ipfs.ts:42-67 | after a POST that stores and pins a well-formed note, a GET for its address whose `cat` of the CID succeeds answers 200 and lists the record rebuilt from its blob, with the echoed CID, content and address; that record is the echoed one exactly when the posted `metadata` had no other field |
| `NotesApi.NotesHandler.constructor` | pages/api/ipfs.ts:25 | the route starts with an empty notes list over a consistent node |
| `NotesApi.NotesHandler.Post` | pages/api/ipfs.ts:31-67 | the POST branch answers and changes `notes` and the node exactly as `PostSpec` says, keeping every in-memory record's CID pinned |
| `NotesApi.NotesHandler.Retrieve` | pages/api/ipfs.ts:79-146 | enumerating the pins, fetching each in order and filtering answers `RetrieveSpec`, a CID whose `cat` throws being skipped; no blob is fetched when listing pins fails, otherwise every pinned CID is fetched once in pin order |
| `NotesApi.NotesHandler.Handle` | pages/api/ipfs.ts:27-77 | POST behaves as `PostSpec`; GET answers `GetSpec` of the node alone and changes nothing; any other method answers 405 and changes nothing |

## Left out

- IpfsNode.Pin: places a newly pinned CID after the existing pins; the node's own `pin.ls` order is not modelled, and no contract or lemma relies on this placement.
- Interleaving of requests: each request is modelled as one atomic step on the node. The handler yields at every `await` (lines 43, 45, 88 and 99), and the GET scan is not awaited (line 72), so a GET's `pin.ls` can interleave with a POST. `PostThenGet` and `PinFailureStillListed` speak of a GET that starts after the POST has finished.
- Other clients of the IPFS node: the node is changed only by this route. Pins that other clients add or remove between requests (`ipfs pin rm`, another application on the same node) are not modelled. `NotesHandler.Valid`'s conjunct that every in-memory record names a pinned CID, and the reading of `PostThenGet` and `PinFailureStillListed` as a later GET, both rest on that.
- The values of `metadata` fields other than `userAddress` are reduced to strings; only their presence and their echo by GET are modelled.

- The IPFS client library (`create`, the hashing behind `add`, the chunk stream of `cat`, `pin.ls` internals): its calls are reduced to given success or failure outcomes and a CID-to-blob map. Content addressing (identical bytes give identical CIDs) is not enforced on the CID `add` is given to return.
- `JSON.stringify`, `JSON.parse` and `Buffer`: a blob is modelled by its parse result, not as bytes under a JSON grammar.
- The `data.path` used as the record's CID and the `data.cid` that is pinned are taken to be the same string, as they are for a single buffer.
- JSON values of other types than strings in `text` or `userAddress` (numbers, objects): these fields are strings or absent in the model.
- The `Promise.all` fan-out: the per-CID fetches are modelled as a sequential, order-preserving map, which is what `Promise.all` returns.
- The 500 "Failed to retrieve notes." at lines 142-145: every per-CID promise catches its own errors, so nothing can reach that branch, and the model has no path to it.
- `retrievePinnedData` is not awaited by `handler`; the model treats the reply it writes as the GET request's answer.
- The framework's reply to an exception that escapes the handler (`Unhandled`).
- Console logging.
- The React pages and components, the form's 10 to 280 character rule, `classNames`, the wallet configuration in `pages/_app.tsx` and `next.config.js`: these are rendering and configuration, with no logic of the route.
