/** The in-memory record store: student records keyed by id. Records are
    listed in the order their ids were first stored, as a JavaScript `Map`
    iterates. */
module StudentStore {
  import opened Wrappers
  import opened Errors
  import opened Text
  import opened Records

  predicate Distinct(ids: seq<string>) {
    forall i, j | 0 <= i < j < |ids| :: ids[i] != ids[j]
  }

  /** The map plus the order in which its keys were first inserted. */
  datatype Store = Store(students: map<string, StudentRecord>, order: seq<string>)

  /** Every stored id appears exactly once in the insertion order. */
  predicate WellFormed(s: Store) {
    && Distinct(s.order)
    && (forall i | 0 <= i < |s.order| :: s.order[i] in s.students)
    && (forall id | id in s.students :: id in s.order)
  }

  type StudentCache = s: Store | WellFormed(s) witness Store(map[], [])

  const Empty: StudentCache := Store(map[], [])

  /** What `upsert` leaves behind: the store afterwards and what the call
      returned or threw. */
  datatype UpsertOutcome = UpsertOutcome(cache: StudentCache, result: Result<StudentRecord, ValidationError>)

  /** `upsert`: rejects an id that is blank once trimmed, leaving the store as
      it was; otherwise stores the record under its (untrimmed) id, replacing
      any earlier one, and returns it. */
  function Upsert(c: StudentCache, record: StudentRecord): (r: UpsertOutcome)
    ensures r.result.Failure? <==> IsBlank(record.id)
    ensures r.result.Failure? ==> r.cache == c && r.result.error == StudentIdRequired
    ensures r.result.Success? ==> r.result.value == record
    ensures r.result.Success? ==> record.id in r.cache.students && r.cache.students[record.id] == record
    ensures r.result.Success? ==> r.cache.students.Keys == c.students.Keys + {record.id}
  {
    if IsBlank(record.id) then
      UpsertOutcome(c, Failure(StudentIdRequired))
    else
      UpsertOutcome(Put(c, record), Success(record))
  }

  /** `Map.set`: a known id keeps its place in the insertion order, a new one
      goes last. */
  function Put(c: StudentCache, record: StudentRecord): (r: StudentCache)
    ensures r.students == c.students[record.id := record]
    ensures record.id in c.students ==> r.order == c.order
    ensures record.id !in c.students ==> r.order == c.order + [record.id]
  {
    var students := c.students[record.id := record];
    if record.id in c.students then
      Store(students, c.order)
    else
      var order := c.order + [record.id];
      assert forall i | 0 <= i < |c.order| :: c.order[i] != record.id;
      assert forall i | 0 <= i < |order| :: order[i] in students;
      Store(students, order)
  }

  /** `get`: the record stored under `id`, if any. */
  function Get(c: StudentCache, id: string): (r: Option<StudentRecord>)
    ensures r.Some? <==> id in c.students
    ensures r.Some? ==> r.value == c.students[id]
  {
    if id in c.students then Some(c.students[id]) else None
  }

  /** `list`: the current record of every stored id, once each. */
  function List(c: StudentCache): (r: seq<StudentRecord>)
    ensures |r| == |c.students|
  {
    DistinctLength(c.order, c.students.Keys);
    seq(|c.order|, i requires 0 <= i < |c.order| => c.students[c.order[i]])
  }

  /** The listing holds the current record of every stored id. */
  lemma ListHasEveryStored(c: StudentCache)
    ensures forall id | id in c.students :: c.students[id] in List(c)
  {
    var r := List(c);
    forall id | id in c.students
      ensures c.students[id] in r
    {
      var i :| 0 <= i < |c.order| && c.order[i] == id;
      assert r[i] == c.students[id];
    }
  }

  /** A duplicate-free sequence is as long as the set of its elements. */
  lemma {:induction false} DistinctLength(ids: seq<string>, keys: set<string>)
    requires Distinct(ids)
    requires forall i | 0 <= i < |ids| :: ids[i] in keys
    requires forall k | k in keys :: k in ids
    ensures |ids| == |keys|
  {
    if |ids| > 0 {
      var last := ids[|ids| - 1];
      var rest := ids[..|ids| - 1];
      assert forall k | k in keys - {last} :: k in rest by {
        forall k | k in keys - {last} ensures k in rest {
          var i :| 0 <= i < |ids| && ids[i] == k;
          assert i < |ids| - 1;
          assert rest[i] == k;
        }
      }
      DistinctLength(rest, keys - {last});
    }
  }

  /** Storing a record changes what `get` finds for its own id only. */
  lemma UpsertKeepsOtherIds(c: StudentCache, record: StudentRecord, id: string)
    requires id != record.id
    ensures Get(Upsert(c, record).cache, id) == Get(c, id)
  {
  }

  /** Storing a record makes `get` of its id return it, whatever was stored
      before. */
  lemma UpsertThenGet(c: StudentCache, record: StudentRecord)
    requires !IsBlank(record.id)
    ensures Get(Upsert(c, record).cache, record.id) == Some(record)
  {
  }

  /** Everything listed is the current record of some stored id. */
  lemma ListOnlyStored(c: StudentCache)
    ensures forall x | x in List(c) :: exists id | id in c.students :: c.students[id] == x
  {
    ListInOrder(c);
  }

  /** The `i`-th listed record is the one stored under the `i`-th id. */
  lemma ListAt(c: StudentCache, i: int)
    requires 0 <= i < |c.order|
    ensures |List(c)| == |c.order|
    ensures List(c)[i] == c.students[c.order[i]]
  {
  }

  /** The listing follows the insertion order of the ids. */
  lemma ListInOrder(c: StudentCache)
    ensures |List(c)| == |c.order|
    ensures forall i | 0 <= i < |c.order| :: List(c)[i] == c.students[c.order[i]]
  {
  }

  /** The listing has one entry per id in the insertion order. */
  lemma ListLength(c: StudentCache)
    ensures |List(c)| == |c.order|
  {
  }

  /** Entry by entry: storing a new id leaves the earlier listing in place. */
  lemma ListEntryAfterNewId(c: StudentCache, record: StudentRecord, i: int)
    requires record.id !in c.students
    requires 0 <= i <= |c.order|
    ensures |List(Put(c, record))| == |c.order| + 1
    ensures List(Put(c, record))[i] == if i < |c.order| then List(c)[i] else record
  {
    var after := Put(c, record);
    ListAt(after, i);
    if i < |c.order| {
      ListAt(c, i);
      assert c.order[i] != record.id;
    }
  }

  /** Storing a record under a new id appends it to the listing. */
  lemma UpsertNewIdAppends(c: StudentCache, record: StudentRecord)
    requires !IsBlank(record.id) && record.id !in c.students
    ensures List(Upsert(c, record).cache) == List(c) + [record]
  {
    PutNewIdAppends(c, record);
  }

  lemma PutNewIdAppends(c: StudentCache, record: StudentRecord)
    requires record.id !in c.students
    ensures List(Put(c, record)) == List(c) + [record]
  {
    var listed := List(Put(c, record));
    var expected := List(c) + [record];
    ListLength(c);
    ListEntryAfterNewId(c, record, 0);
    assert |listed| == |expected|;
    forall i | 0 <= i < |expected|
      ensures listed[i] == expected[i]
    {
      ListEntryAfterNewId(c, record, i);
    }
    assert listed == expected;
  }

  /** Storing a record under a known id replaces that id's entry in place and
      leaves the others where they were. */
  lemma UpsertKnownIdReplaces(c: StudentCache, record: StudentRecord)
    requires !IsBlank(record.id) && record.id in c.students
    ensures |List(Upsert(c, record).cache)| == |List(c)|
    ensures forall i | 0 <= i < |c.order| ::
      List(Upsert(c, record).cache)[i] == (if c.order[i] == record.id then record else List(c)[i])
  {
    var after := Put(c, record);
    assert Upsert(c, record).cache == after;
    ListLength(c);
    ListLength(after);
    forall i | 0 <= i < |c.order|
      ensures List(after)[i] == (if c.order[i] == record.id then record else List(c)[i])
    {
      ListAt(c, i);
      ListAt(after, i);
    }
  }

  /** The ids of a sequence of records. */
  function Ids(records: seq<StudentRecord>): set<string> {
    set r | r in records :: r.id
  }

  /** Replays a sequence of upserts on an initially empty store, skipping the
      rejected ones. */
  function Replay(records: seq<StudentRecord>): (c: StudentCache)
    ensures c.students.Keys <= Ids(records)
  {
    if |records| == 0 then Empty
    else
      var before := Replay(records[..|records| - 1]);
      var last := records[|records| - 1];
      assert records == records[..|records| - 1] + [last];
      assert Ids(records) == Ids(records[..|records| - 1]) + {last.id};
      Upsert(before, last).cache
  }

  /** `get` of an id no upsert used finds nothing. */
  lemma GetNeverUpserted(records: seq<StudentRecord>, id: string)
    requires forall i | 0 <= i < |records| :: records[i].id != id
    ensures Get(Replay(records), id) == None
  {
    assert id !in Ids(records);
  }
}
