/**
 * The note API route: `handler` dispatches on the HTTP method; POST stores a
 * note on the IPFS node and appends its record to the in-memory `notes`
 * list; GET rebuilds one address's notes from the pinned blobs
 * (`retrievePinnedData`). The client calls' failures are parameters.
 */
module NotesApi {
  import opened NoteTypes
  import opened IpfsNode
  import opened NoteScan

  /** Whether each IPFS client call of one request succeeds, and what `add` answers. */
  datatype ClientOutcomes = ClientOutcomes(
    added: Option<Cid>,     // the CID `add` returns, or None when it throws
    pinned: bool,           // whether `pin.add` succeeds
    lsFault: Option<nat>,   // `pin.ls` throws after yielding this many CIDs (at its end if fewer are pinned), or never
    catFaults: set<Cid>)    // the CIDs whose `cat` throws in this request

  /**
   * The record the write path builds from `noteData` and the CID of its blob:
   * a fresh `metadata` object holding `userAddress` alone. The read path
   * rebuilds the same CID, content and address from the stored blob, and the
   * same record when `noteData.metadata` had no other field.
   */
  function NewRecord(cid: Cid, p: Payload): (r: Note)
    requires p.metadata.Some?
    ensures r.metadata.others == map[]
    ensures ParseNote(cid, Json(p)).Some? ==>
      && ParseNote(cid, Json(p)).value.cid == r.cid
      && ParseNote(cid, Json(p)).value.content == r.content
      && ParseNote(cid, Json(p)).value.metadata.userAddress == r.metadata.userAddress
      && ParseNote(cid, Json(p)).value.metadata.others == p.metadata.value.others
      && (ParseNote(cid, Json(p)) == Some(r) <==> p.metadata.value.others == map[])
  {
    Note(cid, p.text, Metadata(p.metadata.value.userAddress, map[]))
  }

  /** What a POST does to the route's state and what it answers. */
  datatype PostOutcome = PostOutcome(resp: Response, notes: seq<Note>, node: Node)

  /** The write path, as a function of the state before it and the client outcomes. */
  function PostSpec(notes: seq<Note>, node: Node, body: RequestBody, added: Option<Cid>, pinned: bool): PostOutcome
  {
    if body.NullBody? then PostOutcome(Unhandled, notes, node)
    else if body.noteData.None? then PostOutcome(Reply(400, Error(ContentRequired)), notes, node)
    else if added.None? then PostOutcome(Reply(500, Error(AddFailed)), notes, node)
    else
      var p := body.noteData.value;
      var stored := Add(node, added.value, p);
      if !pinned then PostOutcome(Reply(500, Error(AddFailed)), notes, stored)
      else
        var kept := Pin(stored, added.value);
        if p.metadata.None? then PostOutcome(Unhandled, notes, kept)
        else
          var record := NewRecord(added.value, p);
          PostOutcome(Reply(200, Record(record)), notes + [record], kept)
  }

  /** The read path once the address is known to be truthy. */
  function RetrieveSpec(node: Node, q: QueryParam, lsFault: Option<nat>, catFaults: set<Cid>): Response
  {
    if lsFault.Some? then Reply(500, Error(PinsUnavailable))
    else
      var found := UserNotes(node.pins, Seen(node, catFaults), q);
      if found != [] then Reply(200, Records(found)) else Reply(404, Error(NoNotesFound))
  }

  /** The GET branch of the handler; it depends on the node, never on the in-memory notes. */
  function GetSpec(node: Node, q: QueryParam, lsFault: Option<nat>, catFaults: set<Cid>): Response
  {
    if !QueryTruthy(q) then Reply(400, Error(AddressRequired)) else RetrieveSpec(node, q, lsFault, catFaults)
  }

  /** A `null` or `undefined` body makes the handler throw before anything else happens. */
  lemma PostThrowsOnNullBody(notes: seq<Note>, node: Node, added: Option<Cid>, pinned: bool)
    ensures PostSpec(notes, node, NullBody, added, pinned) == PostOutcome(Unhandled, notes, node)
  {
  }

  /** A missing or falsy `noteData` is refused with 400 before the node is touched. */
  lemma PostRejectsMissingContent(notes: seq<Note>, node: Node, added: Option<Cid>, pinned: bool)
    ensures PostSpec(notes, node, JsonBody(None), added, pinned)
         == PostOutcome(Reply(400, Error(ContentRequired)), notes, node)
  {
  }

  /**
   * When `add` or `pin.add` throws the answer is the same 500 and no record
   * is appended; a failed `add` leaves the node as it was, while after a
   * failed `pin.add` the blob is stored and, `add` having pinned it, listed.
   */
  lemma PostStoreFailure(notes: seq<Note>, node: Node, p: Payload, added: Option<Cid>, pinned: bool)
    requires added.None? || !pinned
    ensures var o := PostSpec(notes, node, JsonBody(Some(p)), added, pinned);
      && o.resp == Reply(500, Error(AddFailed))
      && o.notes == notes
      && (added.None? ==> o.node == node)
      && (added.Some? ==> added.value in o.node.pins && Cat(o.node, added.value) == Json(p))
  {
  }

  /**
   * A GET for the address of a well-formed note stored and pinned under `cid`
   * (with `pin.ls` succeeding) answers 200 and lists the note's record when
   * its `cat` succeeds; when that `cat` throws, no listed record has that CID.
   */
  lemma GetListsStoredNote(node: Node, cid: Cid, p: Payload, catFaults: set<Cid>)
    requires WellFormed(p) && cid in node.pins && Cat(node, cid) == Json(p)
    ensures var r := GetSpec(node, Single(p.metadata.value.userAddress.value), None, catFaults);
      && (cid !in catFaults ==>
            r.status == 200 && Note(cid, p.text, p.metadata.value) in r.body.notes)
      && (cid in catFaults && r.body.Records? ==>
            forall note :: note in r.body.notes ==> note.cid != cid)
  {
    var q := Single(p.metadata.value.userAddress.value);
    var seen := Seen(node, catFaults);
    if cid !in catFaults {
      var j :| 0 <= j < |node.pins| && node.pins[j] == cid;
      FoundInPlace(node.pins, j, seen, q);
    } else {
      Isolation(node.pins, seen, q);
    }
  }

  /**
   * A POST that answers 500 because `pin.add` threw still leaves its note
   * visible: a later GET for its address answers 200 and lists the stored
   * record, provided that GET's `cat` of the CID succeeds.
   */
  lemma PinFailureStillListed(notes: seq<Note>, node: Node, p: Payload, cid: Cid, catFaults: set<Cid>)
    requires WellFormed(p)
    ensures var o := PostSpec(notes, node, JsonBody(Some(p)), Some(cid), false);
      var r := GetSpec(o.node, Single(p.metadata.value.userAddress.value), None, catFaults);
      && o.resp == Reply(500, Error(AddFailed))
      && o.notes == notes
      && (cid !in catFaults ==> r.status == 200 && Note(cid, p.text, p.metadata.value) in r.body.notes)
  {
    var o := PostSpec(notes, node, JsonBody(Some(p)), Some(cid), false);
    GetListsStoredNote(o.node, cid, p, catFaults);
  }

  /**
   * The in-memory list only grows, by at most one record at its end; it grows
   * exactly when the answer is 200, and then the answer echoes the record,
   * whose CID is the one `add` returned and which the node now pins.
   */
  lemma PostAppendOnly(notes: seq<Note>, node: Node, body: RequestBody, added: Option<Cid>, pinned: bool)
    ensures var o := PostSpec(notes, node, body, added, pinned);
      && notes <= o.notes
      && |o.notes| <= |notes| + 1
      && (|o.notes| == |notes| + 1 <==> o.resp.Reply? && o.resp.status == 200)
      && (|o.notes| == |notes| + 1 ==>
            && body.JsonBody? && body.noteData.Some? && added.Some?
            && o.resp == Reply(200, Record(o.notes[|notes|]))
            && o.notes[|notes|].cid == added.value
            && o.notes[|notes|].content == body.noteData.value.text
            && body.noteData.value.metadata.Some?
            && o.notes[|notes|].metadata == Metadata(body.noteData.value.metadata.value.userAddress, map[])
            && added.value in o.node.pins
            && Cat(o.node, added.value) == Json(body.noteData.value))
  {
  }

  /**
   * A `noteData` without `metadata` makes the handler throw after the blob
   * was stored and pinned; no record is appended.
   */
  lemma PostThrowsWithoutMetadata(notes: seq<Note>, node: Node, text: Option<string>, cid: Cid)
    ensures var o := PostSpec(notes, node, JsonBody(Some(Payload(text, None))), Some(cid), true);
      && o.resp.Unhandled? && o.notes == notes && cid in o.node.pins
  {
  }

  /** Every status GET can answer, and when it answers each. */
  lemma GetStatusTable(node: Node, q: QueryParam, lsFault: Option<nat>, catFaults: set<Cid>)
    ensures var r := GetSpec(node, q, lsFault, catFaults);
      var found := UserNotes(node.pins, Seen(node, catFaults), q);
      && r.Reply? && r.status in {200, 400, 404, 500}
      && (r.status == 400 <==> !QueryTruthy(q))
      && (r.status == 500 <==> QueryTruthy(q) && lsFault.Some?)
      && (r.status == 200 <==> QueryTruthy(q) && lsFault.None? && found != [])
      && (r.status == 404 <==> QueryTruthy(q) && lsFault.None? && found == [])
      && (r.status == 200 ==>
            && r.body.Records? && r.body.notes != []
            && forall note :: note in r.body.notes ==>
                 Matches(note, q) && note.cid in node.pins && note.cid !in catFaults)
  {
    Isolation(node.pins, Seen(node, catFaults), q);
  }

  /** A repeated `address` passes the 400 check but can only give 404 (or 500). */
  lemma GetRepeatedAddress(node: Node, values: seq<string>, lsFault: Option<nat>, catFaults: set<Cid>)
    ensures GetSpec(node, Repeated(values), lsFault, catFaults).status == (if lsFault.Some? then 500 else 404)
  {
    RepeatedAddressMatchesNothing(node.pins, Seen(node, catFaults), values);
  }

  /**
   * Round trip: after a POST that stored and pinned a well-formed note, a GET
   * for its address (with `pin.ls` and its `cat` of the CID succeeding)
   * answers 200 and lists the record rebuilt from the stored blob: the echoed
   * CID, content and address, with the whole posted `metadata`. It is the
   * very record the POST echoed exactly when the posted `metadata` had no
   * field besides `userAddress`.
   */
  lemma PostThenGet(notes: seq<Note>, node: Node, p: Payload, cid: Cid, catFaults: set<Cid>)
    requires WellFormed(p)
    ensures var o := PostSpec(notes, node, JsonBody(Some(p)), Some(cid), true);
      var r := GetSpec(o.node, Single(p.metadata.value.userAddress.value), None, catFaults);
      var stored := Note(cid, p.text, p.metadata.value);
      && o.resp.Reply? && o.resp.status == 200 && o.resp.body.Record?
      && (cid !in catFaults ==> r.status == 200 && stored in r.body.notes)
      && stored.cid == o.resp.body.note.cid
      && stored.content == o.resp.body.note.content
      && stored.metadata.userAddress == o.resp.body.note.metadata.userAddress
      && (o.resp.body.note == stored <==> p.metadata.value.others == map[])
  {
    var o := PostSpec(notes, node, JsonBody(Some(p)), Some(cid), true);
    GetListsStoredNote(o.node, cid, p, catFaults);
  }

  /**
   * The route's module state: the in-memory `notes` list and the node the
   * client is connected to.
   */
  class NotesHandler {
    var notes: seq<Note>
    var node: Node

    /** The node is consistent and every in-memory record names a pinned CID. */
    ghost predicate Valid()
      reads this
    {
      Consistent(node) && forall r :: r in notes ==> r.cid in node.pins
    }

    constructor (initial: Node)
      requires Consistent(initial)
      ensures Valid() && notes == [] && node == initial
    {
      notes := [];
      node := initial;
    }

    /** The POST branch. */
    method Post(body: RequestBody, added: Option<Cid>, pinned: bool) returns (resp: Response)
      requires Valid()
      modifies this
      ensures Valid()
      ensures PostOutcome(resp, notes, node) == PostSpec(old(notes), old(node), body, added, pinned)
    {
      if body.NullBody? {
        return Unhandled;
      }
      var noteData := body.noteData;
      if noteData.None? {
        return Reply(400, Error(ContentRequired));
      }
      var p := noteData.value;
      if added.None? {
        return Reply(500, Error(AddFailed));
      }
      var cid := added.value;
      node := Add(node, cid, p);
      if !pinned {
        return Reply(500, Error(AddFailed));
      }
      node := Pin(node, cid);
      if p.metadata.None? {
        return Unhandled;
      }
      var newNote := NewRecord(cid, p);
      notes := notes + [newNote];
      resp := Reply(200, Record(newNote));
    }

    /**
     * `retrievePinnedData`: enumerate the pins, fetch and validate each one in
     * pin order, drop the failures, keep the address's records. `fetched`
     * lists the CIDs whose blob was read.
     */
    method Retrieve(address: QueryParam, lsFault: Option<nat>, catFaults: set<Cid>)
      returns (resp: Response, ghost fetched: seq<Cid>)
      ensures resp == RetrieveSpec(node, address, lsFault, catFaults)
      ensures fetched == if lsFault.Some? then [] else node.pins
    {
      fetched := [];
      var pinnedCids: seq<Cid> := [];
      var i := 0;
      while i < |node.pins|
        invariant 0 <= i <= |node.pins|
        invariant pinnedCids == node.pins[..i]
      {
        if lsFault == Some(i) {
          return Reply(500, Error(PinsUnavailable)), fetched;
        }
        pinnedCids := pinnedCids + [node.pins[i]];
        i := i + 1;
      }
      if lsFault.Some? {
        return Reply(500, Error(PinsUnavailable)), fetched;
      }
      assert pinnedCids == node.pins;

      var allNotes: seq<Option<Note>> := [];
      var j := 0;
      while j < |pinnedCids|
        invariant 0 <= j <= |pinnedCids|
        invariant |allNotes| == j
        invariant forall k :: 0 <= k < j ==>
          allNotes[k] == ParseNote(pinnedCids[k], Cat(Seen(node, catFaults), pinnedCids[k]))
        invariant fetched == pinnedCids[..j]
      {
        var cid := pinnedCids[j];
        var blob := if cid in catFaults then CatFails else Cat(node, cid);
        allNotes := allNotes + [ParseNote(cid, blob)];
        fetched := fetched + [cid];
        j := j + 1;
      }
      assert allNotes == ParseAll(pinnedCids, Seen(node, catFaults));
      assert fetched == pinnedCids;

      var validNotes := Present(allNotes);
      var userNotes := OwnedBy(validNotes, address);
      ScanEquivalence(pinnedCids, Seen(node, catFaults), address);
      if |userNotes| > 0 {
        resp := Reply(200, Records(userNotes));
      } else {
        resp := Reply(404, Error(NoNotesFound));
      }
    }

    /** `handler`: POST, GET, or 405 for any other method. */
    method Handle(req: Request, client: ClientOutcomes) returns (resp: Response)
      requires Valid()
      modifies this
      ensures Valid()
      ensures req.verb == "POST" ==>
        PostOutcome(resp, notes, node) == PostSpec(old(notes), old(node), req.body, client.added, client.pinned)
      ensures req.verb == "GET" ==>
        resp == GetSpec(old(node), req.address, client.lsFault, client.catFaults) && notes == old(notes) && node == old(node)
      ensures req.verb != "POST" && req.verb != "GET" ==>
        resp == Reply(405, Error(MethodNotAllowed)) && notes == old(notes) && node == old(node)
    {
      if req.verb == "POST" {
        resp := Post(req.body, client.added, client.pinned);
      } else if req.verb == "GET" {
        if !QueryTruthy(req.address) {
          return Reply(400, Error(AddressRequired));
        }
        ghost var fetched;
        resp, fetched := Retrieve(req.address, client.lsFault, client.catFaults);
      } else {
        resp := Reply(405, Error(MethodNotAllowed));
      }
    }
  }
}
