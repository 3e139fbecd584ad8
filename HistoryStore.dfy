/**
 * The `History` table: an append-only log of successful requests, read back
 * newest first. Storage is an in-memory sequence; the insertion time comes in
 * as a parameter.
 */
module HistoryStore {

  /** `datetime.utcnow()` at insertion, as a count of microseconds. */
  type Timestamp = int

  /** One row of the `History` table (lines 24-30). */
  datatype Entry = Entry(
    id: nat,
    syllabus: string,
    deadlines: string,
    availableTime: string,
    studyPlan: string,
    timestamp: Timestamp)

  /** Rows are kept in insertion order, so their ids increase. */
  predicate IdsIncreasing(s: seq<Entry>) {
    forall i, j :: 0 <= i < j < |s| ==> s[i].id < s[j].id
  }

  /** The id SQLite gives a new row: one more than the largest id, 1 in an empty table. */
  function NextId(s: seq<Entry>): (id: nat)
    requires IdsIncreasing(s)
    ensures id >= 1
    ensures forall i :: 0 <= i < |s| ==> s[i].id < id
  {
    if s == [] then 1 else s[|s| - 1].id + 1
  }

  predicate NewestFirst(s: seq<Entry>) {
    forall i, j :: 0 <= i < j < |s| ==> s[i].timestamp >= s[j].timestamp
  }

  /** Place `e` in a newest-first list, after the entries newer than it. */
  function InsertByTimestamp(e: Entry, s: seq<Entry>): (r: seq<Entry>)
    ensures |r| == |s| + 1
  {
    if s == [] || s[0].timestamp <= e.timestamp then [e] + s
    else [s[0]] + InsertByTimestamp(e, s[1..])
  }

  /**
   * `ORDER BY timestamp DESC` on the rows in insertion order. Entries with
   * equal timestamps come out in insertion order, one of the orders SQL allows.
   */
  function ByTimestampDesc(s: seq<Entry>): (r: seq<Entry>)
    ensures |r| == |s|
  {
    if s == [] then [] else InsertByTimestamp(s[0], ByTimestampDesc(s[1..]))
  }

  lemma {:induction false} InsertPermutes(e: Entry, s: seq<Entry>)
    ensures multiset(InsertByTimestamp(e, s)) == multiset(s) + multiset{e}
  {
    if !(s == [] || s[0].timestamp <= e.timestamp) {
      InsertPermutes(e, s[1..]);
      assert s == [s[0]] + s[1..];
    }
  }

  lemma {:induction false} InsertSorted(e: Entry, s: seq<Entry>)
    requires NewestFirst(s)
    ensures NewestFirst(InsertByTimestamp(e, s))
  {
    if !(s == [] || s[0].timestamp <= e.timestamp) {
      var rest := InsertByTimestamp(e, s[1..]);
      InsertSorted(e, s[1..]);
      InsertPermutes(e, s[1..]);
      forall k | 0 <= k < |rest| ensures rest[k].timestamp <= s[0].timestamp {
        assert rest[k] in multiset(s[1..]) + multiset{e};
        if rest[k] != e {
          assert rest[k] in s[1..];
        }
      }
    }
  }

  /** The listing holds exactly the stored entries, newest first. */
  lemma {:induction false} ByTimestampDescSorted(s: seq<Entry>)
    ensures NewestFirst(ByTimestampDesc(s))
    ensures multiset(ByTimestampDesc(s)) == multiset(s)
  {
    if s != [] {
      ByTimestampDescSorted(s[1..]);
      InsertSorted(s[0], ByTimestampDesc(s[1..]));
      InsertPermutes(s[0], ByTimestampDesc(s[1..]));
      assert s == [s[0]] + s[1..];
    }
  }

  class History {
    /** The rows in insertion order. */
    var entries: seq<Entry>

    ghost predicate Valid()
      reads this
    {
      IdsIncreasing(entries)
    }

    /** `db.create_all()` on a fresh database: an empty table. */
    constructor ()
      ensures Valid() && entries == []
    {
      entries := [];
    }

    /**
     * `db.session.add(row)` and `db.session.commit()`: the row gets the next id,
     * and every earlier row stays as it was.
     */
    method Append(syllabus: string, deadlines: string, availableTime: string, studyPlan: string, now: Timestamp)
      returns (id: nat)
      requires Valid()
      modifies this
      ensures Valid()
      ensures id == NextId(old(entries))
      ensures forall i :: 0 <= i < |old(entries)| ==> old(entries)[i].id < id
      ensures entries == old(entries) + [Entry(id, syllabus, deadlines, availableTime, studyPlan, now)]
    {
      id := NextId(entries);
      entries := entries + [Entry(id, syllabus, deadlines, availableTime, studyPlan, now)];
    }

    /** `History.query.order_by(History.timestamp.desc()).all()`. */
    method ListAll() returns (r: seq<Entry>)
      ensures NewestFirst(r)
      ensures multiset(r) == multiset(entries)
      ensures forall e :: e in r <==> e in entries
      ensures r == ByTimestampDesc(entries)
    {
      r := ByTimestampDesc(entries);
      ByTimestampDescSorted(entries);
      assert forall e :: e in r <==> e in multiset(entries);
    }
  }
}
