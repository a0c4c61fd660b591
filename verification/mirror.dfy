/**
 * The local mirror: the GoogleEvent table of the sync database, as the
 * sequence of its rows in storage order, with the operations the sync pass
 * performs on it.
 */
module Mirror {
  import opened Wrappers
  import opened Conversion

  /** The surrogate key (a Guid in the source). */
  type RecordId = nat

  /**
   * One GoogleEvent row: the Outlook GlobalAppointmentID it mirrors, the id
   * Google gave the event, and the copied fields the next pass compares.
   */
  datatype MirrorRecord = MirrorRecord(
    id: RecordId,
    calUid: string,
    googleEventId: string,
    summary: string,
    start: int,
    end: int,
    description: string,
    isRecurring: bool)

  /** The rows the pass loads: recurring ones, and the others starting today or later. */
  predicate InWindow(r: MirrorRecord, today: int) {
    r.isRecurring || r.start >= today
  }

  function Ids(rows: seq<MirrorRecord>): set<RecordId> {
    set r | r in rows :: r.id
  }

  function Uids(rows: seq<MirrorRecord>): set<string> {
    set r | r in rows :: r.calUid
  }

  /** The table's primary key: no two rows share an id. */
  predicate DistinctIds(rows: seq<MirrorRecord>) {
    forall i, j :: 0 <= i < j < |rows| ==> rows[i].id != rows[j].id
  }

  predicate DistinctUids(rows: seq<MirrorRecord>) {
    forall i, j :: 0 <= i < j < |rows| ==> rows[i].calUid != rows[j].calUid
  }

  /** The ids of the rows a lookup holds. */
  function LookupIds(lookup: map<string, MirrorRecord>): set<RecordId> {
    set u | u in lookup :: lookup[u].id
  }

  /** The window query: the rows in the window, in storage order. */
  function Window(rows: seq<MirrorRecord>, today: int): (w: seq<MirrorRecord>)
    ensures forall r :: r in w <==> r in rows && InWindow(r, today)
    ensures DistinctIds(rows) ==> DistinctIds(w)
    ensures |w| <= |rows|
  {
    if |rows| == 0 then []
    else
      var rest := Window(rows[1..], today);
      DistinctIdsCons(rows[0], rows[1..]);
      DistinctIdsCons(rows[0], rest);
      assert [rows[0]] + rows[1..] == rows;
      (if InWindow(rows[0], today) then [rows[0]] else []) + rest
  }

  /** Distinct ids of a row in front of others: the others are distinct and none has its id. */
  lemma DistinctIdsCons(r: MirrorRecord, rest: seq<MirrorRecord>)
    ensures DistinctIds([r] + rest) <==> DistinctIds(rest) && forall q :: q in rest ==> q.id != r.id
  {
    var rows := [r] + rest;
    if DistinctIds(rows) {
      forall i, j | 0 <= i < j < |rest| ensures rest[i].id != rest[j].id {
        assert rest[i] == rows[i + 1] && rest[j] == rows[j + 1];
      }
      forall q | q in rest ensures q.id != r.id {
        var k :| 0 <= k < |rest| && rest[k] == q;
        assert rows[k + 1] == q && rows[0] == r;
      }
    }
    if DistinctIds(rest) && forall q :: q in rest ==> q.id != r.id {
      forall i, j | 0 <= i < j < |rows| ensures rows[i].id != rows[j].id {
        assert rows[j] == rest[j - 1];
        if i > 0 {
          assert rows[i] == rest[i - 1];
        } else {
          assert rows[j] in rest;
        }
      }
    }
  }

  /** Distinct CalUids of rows ending in `last`: the earlier rows are distinct and none has its CalUid. */
  lemma DistinctUidsSnoc(init: seq<MirrorRecord>, last: MirrorRecord)
    ensures DistinctUids(init + [last]) <==> DistinctUids(init) && last.calUid !in Uids(init)
  {
    var rows := init + [last];
    if DistinctUids(rows) {
      forall i, j | 0 <= i < j < |init| ensures init[i].calUid != init[j].calUid {
        assert init[i] == rows[i] && init[j] == rows[j];
      }
      forall q | q in init ensures q.calUid != last.calUid {
        var k :| 0 <= k < |init| && init[k] == q;
        assert rows[k] == q && rows[|init|] == last;
      }
    }
    if DistinctUids(init) && last.calUid !in Uids(init) {
      forall i, j | 0 <= i < j < |rows| ensures rows[i].calUid != rows[j].calUid {
        assert rows[i] == init[i];
        if j < |init| {
          assert rows[j] == init[j];
        } else {
          assert rows[i] in init;
        }
      }
    }
  }

  /** Distinct CalUids of rows starting with `first`: the later rows are distinct and none has its CalUid. */
  lemma DistinctUidsCons(first: MirrorRecord, rest: seq<MirrorRecord>)
    ensures DistinctUids([first] + rest) <==> DistinctUids(rest) && first.calUid !in Uids(rest)
  {
    var rows := [first] + rest;
    if DistinctUids(rows) {
      forall i, j | 0 <= i < j < |rest| ensures rest[i].calUid != rest[j].calUid {
        assert rest[i] == rows[i + 1] && rest[j] == rows[j + 1];
      }
      forall q | q in rest ensures q.calUid != first.calUid {
        var k :| 0 <= k < |rest| && rest[k] == q;
        assert rows[k + 1] == q && rows[0] == first;
      }
    }
    if DistinctUids(rest) && first.calUid !in Uids(rest) {
      forall i, j | 0 <= i < j < |rows| ensures rows[i].calUid != rows[j].calUid {
        assert rows[j] == rest[j - 1];
        if i > 0 {
          assert rows[i] == rest[i - 1];
        } else {
          assert rows[j] in rest;
        }
      }
    }
  }

  /**
   * `ToDictionary(e => e.CalUid)`: a map from each row's CalUid to the row,
   * or the first CalUid met twice (the source throws there).
   */
  function ToDictionary(rows: seq<MirrorRecord>): (res: Result<map<string, MirrorRecord>, string>)
    ensures res.Success? <==> DistinctUids(rows)
    ensures res.Success? ==> res.value.Keys == Uids(rows)
    ensures res.Success? ==> forall r :: r in rows ==> res.value[r.calUid] == r
    ensures res.Failure? ==>
      exists i, j :: 0 <= i < j < |rows| && rows[i].calUid == res.error && rows[j].calUid == res.error
  {
    if |rows| == 0 then Success(map[])
    else
      var init := rows[..|rows| - 1];
      var last := rows[|rows| - 1];
      assert rows == init + [last];
      DistinctUidsSnoc(init, last);
      match ToDictionary(init)
      case Failure(u) =>
        assert !DistinctUids(rows) by {
          var i, j :| 0 <= i < j < |init| && init[i].calUid == u && init[j].calUid == u;
          assert rows[i] == init[i] && rows[j] == init[j];
        }
        Failure(u)
      case Success(m) =>
        if last.calUid in m then
          assert exists i, j :: 0 <= i < j < |rows| && rows[i].calUid == last.calUid && rows[j].calUid == last.calUid by {
            var q :| q in init && q.calUid == last.calUid;
            var k :| 0 <= k < |init| && init[k] == q;
            assert rows[k] == q;
          }
          Failure(last.calUid)
        else
          Success(m[last.calUid := last])
  }

  /** The four fields UpdateEvent copies from the appointment; the rest of the row stays. */
  function WithFields(r: MirrorRecord, a: Appointment): MirrorRecord {
    r.(summary := a.subject, start := a.start, end := a.end, description := a.body)
  }

  /** Overwrite the copied fields of the row with the given id. */
  function Overwrite(rows: seq<MirrorRecord>, id: RecordId, a: Appointment): (out: seq<MirrorRecord>)
    ensures |out| == |rows|
    ensures forall k :: 0 <= k < |rows| && rows[k].id != id ==> out[k] == rows[k]
    ensures forall k :: 0 <= k < |rows| && rows[k].id == id ==> out[k] == WithFields(rows[k], a)
  {
    if |rows| == 0 then []
    else [if rows[0].id == id then WithFields(rows[0], a) else rows[0]] + Overwrite(rows[1..], id, a)
  }

  /** Delete the row with the given id. */
  function RemoveRow(rows: seq<MirrorRecord>, id: RecordId): (out: seq<MirrorRecord>)
    ensures forall r :: r in out <==> r in rows && r.id != id
    ensures DistinctIds(rows) ==> DistinctIds(out)
  {
    if |rows| == 0 then []
    else (if rows[0].id == id then [] else [rows[0]]) + RemoveRow(rows[1..], id)
  }

  /** Overwriting keeps every id where it was, so the key stays a key. */
  lemma OverwriteKeepsIds(rows: seq<MirrorRecord>, id: RecordId, a: Appointment)
    ensures Ids(Overwrite(rows, id, a)) == Ids(rows)
    ensures DistinctIds(rows) ==> DistinctIds(Overwrite(rows, id, a))
  {
    var out := Overwrite(rows, id, a);
    forall x | x in Ids(out) ensures x in Ids(rows) {
      var k :| 0 <= k < |out| && out[k].id == x;
      assert rows[k] in rows;
    }
    forall x | x in Ids(rows) ensures x in Ids(out) {
      var k :| 0 <= k < |rows| && rows[k].id == x;
      assert out[k] in out;
    }
  }

  /** Rows the overwrite did not target are still there; the targeted row now carries the appointment's fields. */
  lemma OverwriteMembers(rows: seq<MirrorRecord>, id: RecordId, a: Appointment)
    ensures forall r :: r in rows && r.id != id ==> r in Overwrite(rows, id, a)
    ensures forall r :: r in rows && r.id == id ==> WithFields(r, a) in Overwrite(rows, id, a)
    ensures forall r :: r in Overwrite(rows, id, a) ==>
      (r in rows && r.id != id) || (exists q :: q in rows && q.id == id && r == WithFields(q, a))
  {
    var out := Overwrite(rows, id, a);
    forall r | r in rows
      ensures r.id != id ==> r in out
      ensures r.id == id ==> WithFields(r, a) in out
    {
      var k :| 0 <= k < |rows| && rows[k] == r;
      assert out[k] in out;
    }
    forall r | r in out
      ensures (r in rows && r.id != id) || (exists q :: q in rows && q.id == id && r == WithFields(q, a))
    {
      var k :| 0 <= k < |out| && out[k] == r;
      assert rows[k] in rows;
    }
  }
}
