/**
 * The persisted occupancy sample and the query the insight generator runs
 * over the history collection: the records of one room, newest first, at
 * most fifty of them. The collection is a sequence of records given as a
 * value.
 */
module History {
  import opened Wrappers

  /**
   * One history document. Only `roomId` is required; `timestamp` defaults to
   * the capture time, so it is always present (milliseconds since the epoch).
   * `None` in the other fields means the property is absent from the
   * document (rendered `undefined`); a property stored as `null` is not
   * represented.
   */
  datatype HistoryRecord = HistoryRecord(
    roomId: string,
    timestamp: int,
    occupancy: Option<int>,
    capacity: Option<int>,
    isGhost: Option<bool>,
    dayOfWeek: Option<string>)

  /** `.limit(50)`: the most records one insight request reads. */
  const WindowLimit: nat := 50

  /** `find({ roomId })`: the records of one room, in collection order. */
  function Matching(records: seq<HistoryRecord>, roomId: string): (r: seq<HistoryRecord>)
    ensures forall i :: 0 <= i < |r| ==> r[i].roomId == roomId
    ensures forall x :: multiset(r)[x] == if x.roomId == roomId then multiset(records)[x] else 0
  {
    if records == [] then []
    else
      assert records == [records[0]] + records[1..];
      (if records[0].roomId == roomId then [records[0]] else []) + Matching(records[1..], roomId)
  }

  /** Newest first: no record is newer than one before it. */
  predicate NewestFirst(s: seq<HistoryRecord>) {
    forall i, j :: 0 <= i < j < |s| ==> s[j].timestamp <= s[i].timestamp
  }

  /** Places `x` before the first record no newer than itself. */
  function Insert(x: HistoryRecord, s: seq<HistoryRecord>): seq<HistoryRecord> {
    if s == [] || x.timestamp >= s[0].timestamp then [x] + s
    else [s[0]] + Insert(x, s[1..])
  }

  /** Inserting adds exactly `x`. */
  lemma {:induction false} InsertAdds(x: HistoryRecord, s: seq<HistoryRecord>)
    ensures multiset(Insert(x, s)) == multiset(s) + multiset{x}
    ensures |Insert(x, s)| == |s| + 1
    ensures Insert(x, s)[0] == x || (s != [] && Insert(x, s)[0] == s[0])
  {
    if s != [] && x.timestamp < s[0].timestamp {
      InsertAdds(x, s[1..]);
      assert s == [s[0]] + s[1..];
    }
  }

  /** Inserting into a newest-first sequence keeps it newest first. */
  lemma {:induction false} InsertKeepsOrder(x: HistoryRecord, s: seq<HistoryRecord>)
    requires NewestFirst(s)
    ensures NewestFirst(Insert(x, s))
  {
    if s == [] || x.timestamp >= s[0].timestamp {
      PrependNewest(x, s);
    } else {
      NewestFirstTail(s);
      InsertKeepsOrder(x, s[1..]);
      var rest := Insert(x, s[1..]);
      InsertAdds(x, s[1..]);
      assert rest[0].timestamp <= s[0].timestamp by {
        if rest[0] != x { assert rest[0] == s[1]; }
      }
      PrependNewest(s[0], rest);
    }
  }

  lemma NewestFirstTail(s: seq<HistoryRecord>)
    requires NewestFirst(s) && s != []
    ensures NewestFirst(s[1..])
  {
    forall i, j | 0 <= i < j < |s| - 1 ensures s[1..][j].timestamp <= s[1..][i].timestamp {
      assert s[1..][j] == s[j + 1] && s[1..][i] == s[i + 1];
    }
  }

  /** A record no older than the head of a newest-first sequence can go in front of it. */
  lemma PrependNewest(h: HistoryRecord, s: seq<HistoryRecord>)
    requires NewestFirst(s)
    requires s != [] ==> s[0].timestamp <= h.timestamp
    ensures NewestFirst([h] + s)
  {
    var r := [h] + s;
    forall i, j | 0 <= i < j < |r| ensures r[j].timestamp <= r[i].timestamp {
      assert r[j] == s[j - 1];
      if i > 0 { assert r[i] == s[i - 1]; }
      else { assert s[j - 1].timestamp <= s[0].timestamp; }
    }
  }

  /** `.sort({ timestamp: -1 })`: the same records, newest first. */
  function SortNewestFirst(s: seq<HistoryRecord>): (r: seq<HistoryRecord>)
    ensures NewestFirst(r)
    ensures multiset(r) == multiset(s)
  {
    if s == [] then []
    else
      var sorted := SortNewestFirst(s[1..]);
      InsertAdds(s[0], sorted);
      InsertKeepsOrder(s[0], sorted);
      MultisetCons(s);
      Insert(s[0], sorted)
  }

  lemma MultisetCons(s: seq<HistoryRecord>)
    requires s != []
    ensures multiset(s) == multiset(s[1..]) + multiset{s[0]}
  {
    assert s == [s[0]] + s[1..];
  }

  /** Two sequences with the same records agree on whether all of them belong to `roomId`. */
  lemma SameRecordsSameRoom(a: seq<HistoryRecord>, b: seq<HistoryRecord>, roomId: string)
    requires multiset(a) == multiset(b)
    requires forall i :: 0 <= i < |b| ==> b[i].roomId == roomId
    ensures forall i :: 0 <= i < |a| ==> a[i].roomId == roomId
  {
    forall i | 0 <= i < |a| ensures a[i].roomId == roomId {
      assert a[i] in multiset(b);
      var j :| 0 <= j < |b| && b[j] == a[i];
    }
  }

  /**
   * `History.find({ roomId }).sort({ timestamp: -1 }).limit(50)`: records of
   * `roomId` only, newest first, as many as there are up to fifty.
   */
  function Window(records: seq<HistoryRecord>, roomId: string): (w: seq<HistoryRecord>)
    ensures forall i :: 0 <= i < |w| ==> w[i].roomId == roomId
    ensures |w| == if |Matching(records, roomId)| < WindowLimit then |Matching(records, roomId)| else WindowLimit
    ensures NewestFirst(w)
  {
    var m := Matching(records, roomId);
    var sorted := SortNewestFirst(m);
    assert |sorted| == |multiset(sorted)| == |m|;
    SameRecordsSameRoom(sorted, m, roomId);
    var k := if |sorted| <= WindowLimit then |sorted| else WindowLimit;
    KeepNewest(sorted, k);
    sorted[..k]
  }

  /**
   * The window is drawn from the room's records, and no record of the room
   * that it leaves out is newer than any record it keeps.
   */
  lemma WindowKeepsNewest(records: seq<HistoryRecord>, roomId: string)
    ensures multiset(Window(records, roomId)) <= multiset(Matching(records, roomId))
    ensures var w := Window(records, roomId);
      forall x, i :: 0 <= i < |w| && multiset(w)[x] < multiset(Matching(records, roomId))[x]
        ==> x.timestamp <= w[i].timestamp
  {
    var sorted := SortNewestFirst(Matching(records, roomId));
    assert |sorted| == |multiset(sorted)|;
    var k := if |sorted| <= WindowLimit then |sorted| else WindowLimit;
    assert Window(records, roomId) == sorted[..k];
    KeepNewest(sorted, k);
  }

  /** The first `k` records of a newest-first sequence are newer than every record after them. */
  lemma KeepNewest(sorted: seq<HistoryRecord>, k: nat)
    requires NewestFirst(sorted) && k <= |sorted|
    ensures NewestFirst(sorted[..k])
    ensures multiset(sorted[..k]) <= multiset(sorted)
    ensures forall x, i :: 0 <= i < k && multiset(sorted[..k])[x] < multiset(sorted)[x]
              ==> x.timestamp <= sorted[..k][i].timestamp
  {
    var w, tail := sorted[..k], sorted[k..];
    PrefixNewestFirst(sorted, k);
    SplitMultiset(sorted, k);
    forall x, i | 0 <= i < k && multiset(w)[x] < multiset(sorted)[x] ensures x.timestamp <= w[i].timestamp {
      var j := IndexOf(tail, x);
      assert tail[j] == sorted[k + j] && w[i] == sorted[i];
    }
  }

  lemma PrefixNewestFirst(s: seq<HistoryRecord>, k: nat)
    requires NewestFirst(s) && k <= |s|
    ensures NewestFirst(s[..k])
  {
    forall i, j | 0 <= i < j < k ensures s[..k][j].timestamp <= s[..k][i].timestamp {
      assert s[..k][j] == s[j] && s[..k][i] == s[i];
    }
  }

  lemma SplitMultiset(s: seq<HistoryRecord>, k: nat)
    requires k <= |s|
    ensures multiset(s) == multiset(s[..k]) + multiset(s[k..])
  {
    assert s == s[..k] + s[k..];
  }

  /** A record the sequence holds sits at some position. */
  lemma IndexOf(s: seq<HistoryRecord>, x: HistoryRecord) returns (j: nat)
    requires x in multiset(s)
    ensures j < |s| && s[j] == x
  {
    j :| 0 <= j < |s| && s[j] == x;
  }
}
