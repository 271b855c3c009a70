/**
 * The read path's per-CID validation and its two filters, as
 * `retrievePinnedData` composes them (map, drop nulls, keep the address),
 * beside a reference definition that takes the pins one at a time, and the
 * lemmas that relate the two and state what the scan returns.
 */
module NoteScan {
  import opened NoteTypes
  import opened IpfsNode

  /** A parsed blob the route accepts: truthy `text`, `metadata` and `metadata.userAddress`. */
  predicate WellFormed(p: Payload)
  {
    Truthy(p.text) && p.metadata.Some? && Truthy(p.metadata.value.userAddress)
  }

  /**
   * One element of the `map` over the pinned CIDs: the record for `cid`, or
   * `None` (the source's `null`) when the fetch or the parse failed or the
   * blob lacks a required field.
   */
  function ParseNote(cid: Cid, b: Blob): (r: Option<Note>)
    ensures r.Some? <==> b.Json? && WellFormed(b.value)
    ensures r.Some? ==> r.value.cid == cid && b == Json(Payload(r.value.content, Some(r.value.metadata)))
  {
    if b.Json? && WellFormed(b.value) then Some(Note(cid, b.value.text, b.value.metadata.value)) else None
  }

  /** The `map` over the pinned CIDs, each fetched from the node. */
  function ParseAll(pins: seq<Cid>, n: Node): seq<Option<Note>>
  {
    seq(|pins|, k requires 0 <= k < |pins| => ParseNote(pins[k], Cat(n, pins[k])))
  }

  /** `filter(Boolean)`: the records, in order, without the nulls. */
  function Present(xs: seq<Option<Note>>): (r: seq<Note>)
    ensures |r| <= |xs|
    ensures forall note :: note in r <==> Some(note) in xs
  {
    if xs == [] then []
    else (if xs[0].Some? then [xs[0].value] else []) + Present(xs[1..])
  }

  /** Dropping the nulls keeps order: it distributes over concatenation. */
  lemma {:induction false} PresentAppend(a: seq<Option<Note>>, b: seq<Option<Note>>)
    ensures Present(a + b) == Present(a) + Present(b)
  {
    if a == [] {
      assert a + b == b;
    } else {
      assert (a + b)[1..] == a[1..] + b;
      PresentAppend(a[1..], b);
    }
  }

  /** `note.metadata.userAddress === userAddress`; an array never equals a string. */
  predicate Matches(note: Note, q: QueryParam)
  {
    q.Single? && note.metadata.userAddress == Some(q.value)
  }

  /** The address filter, keeping order. */
  function OwnedBy(notes: seq<Note>, q: QueryParam): (r: seq<Note>)
    ensures |r| <= |notes|
    ensures forall note :: note in r <==> note in notes && Matches(note, q)
  {
    if notes == [] then []
    else (if Matches(notes[0], q) then [notes[0]] else []) + OwnedBy(notes[1..], q)
  }

  /** What one pinned CID adds to the answer for `q`: its record, or nothing. */
  function Contribution(cid: Cid, n: Node, q: QueryParam): seq<Note>
  {
    match ParseNote(cid, Cat(n, cid))
    case Some(note) => if Matches(note, q) then [note] else []
    case None => []
  }

  /** Reference definition: one record per matching pin entry, in pin order. */
  function UserNotes(pins: seq<Cid>, n: Node, q: QueryParam): seq<Note>
  {
    if pins == [] then [] else Contribution(pins[0], n, q) + UserNotes(pins[1..], n, q)
  }

  lemma {:induction false} OwnedByAppend(a: seq<Note>, b: seq<Note>, q: QueryParam)
    ensures OwnedBy(a + b, q) == OwnedBy(a, q) + OwnedBy(b, q)
  {
    if a == [] {
      assert a + b == b;
    } else {
      assert (a + b)[1..] == a[1..] + b;
      OwnedByAppend(a[1..], b, q);
    }
  }

  /** Map, drop nulls, filter by address is the same as the reference definition. */
  lemma {:induction false} ScanEquivalence(pins: seq<Cid>, n: Node, q: QueryParam)
    ensures OwnedBy(Present(ParseAll(pins, n)), q) == UserNotes(pins, n, q)
  {
    if pins != [] {
      var all := ParseAll(pins, n);
      assert all[1..] == ParseAll(pins[1..], n);
      var head := if all[0].Some? then [all[0].value] else [];
      assert Present(all) == head + Present(ParseAll(pins[1..], n));
      OwnedByAppend(head, Present(ParseAll(pins[1..], n)), q);
      assert OwnedBy(head, q) == Contribution(pins[0], n, q);
      ScanEquivalence(pins[1..], n, q);
    }
  }

  /** The scan of two runs of pins is the scan of the first followed by that of the second. */
  lemma {:induction false} UserNotesAppend(p1: seq<Cid>, p2: seq<Cid>, n: Node, q: QueryParam)
    ensures UserNotes(p1 + p2, n, q) == UserNotes(p1, n, q) + UserNotes(p2, n, q)
  {
    if p1 == [] {
      assert p1 + p2 == p2;
    } else {
      assert (p1 + p2)[1..] == p1[1..] + p2;
      UserNotesAppend(p1[1..], p2, n, q);
    }
  }

  /** A pin contributes nothing exactly when its fetch, its parse, its shape or its address fails. */
  lemma ContributionCases(cid: Cid, n: Node, q: QueryParam)
    ensures Contribution(cid, n, q) == [] <==>
      !(Cat(n, cid).Json? && WellFormed(Cat(n, cid).value)
        && Matches(Note(cid, Cat(n, cid).value.text, Cat(n, cid).value.metadata.value), q))
    ensures Contribution(cid, n, q) != [] ==>
      Contribution(cid, n, q) == [Note(cid, Cat(n, cid).value.text, Cat(n, cid).value.metadata.value)]
  {
  }

  /** Splitting the pin list around entry `j` splits the answer around that entry's contribution. */
  lemma SplitAt(pins: seq<Cid>, j: nat, n: Node, q: QueryParam)
    requires j < |pins|
    ensures UserNotes(pins, n, q)
         == UserNotes(pins[..j], n, q) + Contribution(pins[j], n, q) + UserNotes(pins[j + 1..], n, q)
  {
    assert pins == pins[..j] + ([pins[j]] + pins[j + 1..]);
    UserNotesAppend(pins[..j], [pins[j]] + pins[j + 1..], n, q);
    UserNotesAppend([pins[j]], pins[j + 1..], n, q);
    assert UserNotes([pins[j]], n, q) == Contribution(pins[j], n, q) + UserNotes([], n, q);
  }

  /**
   * A pin whose fetch fails, whose blob does not parse or lacks a required
   * field adds nothing, and the scan goes on over the other pins.
   */
  lemma SkipDoesNotAbort(pins: seq<Cid>, j: nat, n: Node, q: QueryParam)
    requires j < |pins|
    requires !(Cat(n, pins[j]).Json? && WellFormed(Cat(n, pins[j]).value))
    ensures UserNotes(pins, n, q) == UserNotes(pins[..j] + pins[j + 1..], n, q)
  {
    SplitAt(pins, j, n, q);
    UserNotesAppend(pins[..j], pins[j + 1..], n, q);
  }

  /** A well-formed blob whose address matches appears, once, at its pin's place. */
  lemma FoundInPlace(pins: seq<Cid>, j: nat, n: Node, q: QueryParam)
    requires j < |pins|
    requires Cat(n, pins[j]).Json? && WellFormed(Cat(n, pins[j]).value)
    requires q.Single? && Cat(n, pins[j]).value.metadata.value.userAddress == Some(q.value)
    ensures UserNotes(pins, n, q)
         == UserNotes(pins[..j], n, q)
          + [Note(pins[j], Cat(n, pins[j]).value.text, Cat(n, pins[j]).value.metadata.value)]
          + UserNotes(pins[j + 1..], n, q)
  {
    SplitAt(pins, j, n, q);
  }

  /**
   * Every returned record belongs to the queried address, exactly and
   * case-sensitively, and was read from a pinned CID whose blob it reproduces.
   */
  lemma {:induction false} Isolation(pins: seq<Cid>, n: Node, q: QueryParam)
    ensures forall note :: note in UserNotes(pins, n, q) ==>
      && q.Single? && note.metadata.userAddress == Some(q.value)
      && note.cid in pins
      && Cat(n, note.cid) == Json(Payload(note.content, Some(note.metadata)))
      && WellFormed(Cat(n, note.cid).value)
  {
    if pins != [] {
      Isolation(pins[1..], n, q);
      forall note | note in UserNotes(pins, n, q)
        ensures q.Single? && note.metadata.userAddress == Some(q.value) && note.cid in pins
      {
        if note !in Contribution(pins[0], n, q) {
          assert note in UserNotes(pins[1..], n, q);
          assert note.cid in pins[1..];
        }
      }
    }
  }

  /** A repeated `address` parameter is an array, which never equals a string: nothing matches. */
  lemma {:induction false} RepeatedAddressMatchesNothing(pins: seq<Cid>, n: Node, values: seq<string>)
    ensures UserNotes(pins, n, Repeated(values)) == []
  {
    if pins != [] {
      RepeatedAddressMatchesNothing(pins[1..], n, values);
    }
  }
}
