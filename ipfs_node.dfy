/**
 * The IPFS node the route's client talks to, reduced to what the route
 * observes: the pinned CIDs in the order `pin.ls` lists them, and for each
 * CID what `cat` followed by `JSON.parse` produces. Whether a client call
 * throws is not part of this state; the route's model takes it as a parameter.
 */
module IpfsNode {
  import opened NoteTypes

  /** The outcome of `cat(cid)`, concatenating the chunks and `JSON.parse`. */
  datatype Blob = CatFails | NotJson | Json(value: Payload)

  datatype Node = Node(pins: seq<Cid>, blobs: map<Cid, Blob>)

  predicate Distinct(s: seq<Cid>)
  {
    forall i, j :: 0 <= i < j < |s| ==> s[i] != s[j]
  }

  /** `pin.ls` lists every pin once, and the node holds content for every pin. */
  predicate Consistent(n: Node)
  {
    Distinct(n.pins) && forall c :: c in n.pins ==> c in n.blobs
  }

  /** `cat` of a CID the node holds no content for fails. */
  function Cat(n: Node, cid: Cid): Blob
  {
    if cid in n.blobs then n.blobs[cid] else CatFails
  }

  /**
   * The node as one request's `cat` calls see it: fetching a CID in `faults`
   * throws (a dropped connection, a timeout), whatever the node stores.
   */
  function Seen(n: Node, faults: set<Cid>): (r: Node)
    ensures r.pins == n.pins
    ensures forall c :: Cat(r, c) == if c in faults then CatFails else Cat(n, c)
  {
    n.(blobs := map c | c in n.blobs.Keys + faults :: if c in faults then CatFails else n.blobs[c])
  }

  /**
   * A successful `add(Buffer.from(JSON.stringify(p)))` that answered `cid`:
   * the blob becomes readable and parses back to `p`, and the CID is pinned,
   * since the HTTP API's `add` pins unless its `pin` option is turned off.
   */
  function Add(n: Node, cid: Cid, p: Payload): (r: Node)
    ensures Cat(r, cid) == Json(p)
    ensures forall c :: c != cid ==> Cat(r, c) == Cat(n, c)
    ensures cid in r.pins
    ensures forall c :: c in r.pins <==> c in n.pins || c == cid
    ensures |r.pins| <= |n.pins| + 1
    ensures Consistent(n) ==> Consistent(r)
  {
    var stored := n.(blobs := n.blobs[cid := Json(p)]);
    Pin(stored, cid)
  }

  /** A successful `pin.add(cid)`; pinning a pinned CID changes nothing. */
  function Pin(n: Node, cid: Cid): (r: Node)
    ensures cid in r.pins
    ensures forall c :: c in r.pins <==> c in n.pins || c == cid
    ensures |r.pins| <= |n.pins| + 1
    ensures r.blobs == n.blobs
    ensures Consistent(n) && cid in n.blobs ==> Consistent(r)
  {
    if cid in n.pins then n else n.(pins := n.pins + [cid])
  }

  /** Pinning twice lists the CID once: the second `pin.add` is a no-op. */
  lemma PinIdempotent(n: Node, cid: Cid)
    ensures Pin(Pin(n, cid), cid) == Pin(n, cid)
  {
  }
}
