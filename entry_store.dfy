/**
 * The journal-entry collection, held in memory: a sequence of documents that saves append to
 * and that the two bulk edits (cascade delete by source document, date correction) rewrite.
 */
module EntryStore {
  import opened Wrappers
  import opened Documents

  /** What the storage collaborator does with one `save`: it stores the record or fails. */
  datatype SaveOutcome = Saved | SaveError(cause: string)

  /** The filter `{'sourceDocument._id': docId}`. */
  predicate Targets(e: Doc, docId: Id) {
    e.sourceDocument.Some? && e.sourceDocument.value.id == Some(docId)
  }

  /** The collection after `remove({'sourceDocument._id': docId})`. */
  function Without(s: seq<Doc>, docId: Id): (r: seq<Doc>)
    ensures |r| <= |s|
    ensures forall e :: e in r <==> e in s && !Targets(e, docId)
  {
    if s == [] then []
    else if Targets(s[0], docId) then Without(s[1..], docId)
    else [s[0]] + Without(s[1..], docId)
  }

  /** The collection after `update(query, {$set: {date: date}}, {multi: true})`. */
  function Redated(s: seq<Doc>, query: Doc -> bool, date: string): (r: seq<Doc>)
    ensures |r| == |s|
    ensures forall i :: 0 <= i < |s| && query(s[i]) ==> r[i].date == Some(date)
    ensures forall i :: 0 <= i < |s| && !query(s[i]) ==> r[i] == s[i]
    ensures forall i :: 0 <= i < |s| ==> r[i].(date := s[i].date) == s[i]
  {
    if s == [] then []
    else [if query(s[0]) then s[0].(date := Some(date)) else s[0]] + Redated(s[1..], query, date)
  }

  /** Cascade delete distributes over concatenation: it keeps the survivors in their order. */
  lemma {:induction false} WithoutAppend(a: seq<Doc>, b: seq<Doc>, docId: Id)
    ensures Without(a + b, docId) == Without(a, docId) + Without(b, docId)
  {
    if a == [] {
      assert a + b == b;
    } else {
      assert (a + b)[1..] == a[1..] + b;
      WithoutAppend(a[1..], b, docId);
    }
  }

  /** Cascade delete leaves a collection untouched when nothing in it references the document. */
  lemma {:induction false} WithoutNothingTargeted(s: seq<Doc>, docId: Id)
    requires forall e :: e in s ==> !Targets(e, docId)
    ensures Without(s, docId) == s
  {
    if s != [] {
      assert s[0] in s;
      assert forall e :: e in s[1..] ==> e in s;
      WithoutNothingTargeted(s[1..], docId);
    }
  }

  /** Deleting by the same document twice removes nothing more. */
  lemma {:induction false} WithoutIdempotent(s: seq<Doc>, docId: Id)
    ensures Without(Without(s, docId), docId) == Without(s, docId)
  {
    WithoutNothingTargeted(Without(s, docId), docId);
  }

  /**
   * A date correction never changes which entries a cascade delete removes, so the two bulk
   * edits commute.
   */
  lemma {:induction false} RedateThenRemove(s: seq<Doc>, query: Doc -> bool, date: string, docId: Id)
    ensures Without(Redated(s, query, date), docId) == Redated(Without(s, docId), query, date)
  {
    if s != [] {
      var r := Redated(s, query, date);
      assert r[1..] == Redated(s[1..], query, date);
      assert Targets(r[0], docId) == Targets(s[0], docId);
      RedateThenRemove(s[1..], query, date, docId);
    }
  }

  /** The journal-entry collection. */
  class Store {
    var entries: seq<Doc>

    constructor (initial: seq<Doc>)
      ensures entries == initial
    {
      entries := initial;
    }

    /** `new Model(doc).save(cb)`: appends the document unless the store reports an error. */
    method Save(e: Doc, outcome: SaveOutcome) returns (r: Result<Doc, string>)
      modifies this
      ensures outcome.Saved? ==> r == Success(e) && entries == old(entries) + [e]
      ensures outcome.SaveError? ==> r == Failure(outcome.cause) && entries == old(entries)
    {
      match outcome
      case Saved =>
        entries := entries + [e];
        r := Success(e);
      case SaveError(cause) =>
        r := Failure(cause);
    }
  }
}
