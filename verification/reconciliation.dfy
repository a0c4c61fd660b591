/**
 * One sync pass. The window of mirror rows is loaded and keyed by CalUid;
 * each Outlook appointment, in order, is matched against that lookup and
 * either updated (when one of the four compared fields differs), left alone,
 * or created; then every key still in the lookup is deleted from the mirror
 * and from Google.
 *
 * Everything the source gets from outside is an input here: the Outlook
 * appointments, the configured time zone, "today" (DateTime.Now.Date), the
 * ids Google returns for inserted events, the Guids of new rows, and for
 * every remote call or database save whether it throws.
 */
module Reconciliation {
  import opened Wrappers
  import opened Conversion
  import opened Mirror

  /** What goes wrong at one event: nothing, the Google call throws, or the database save throws. */
  datatype Fault = NoFault | RemoteFault | StoreFault

  /** A call issued to the Google Calendar API (issued, whether or not it then failed). */
  datatype Call =
    | Insert(event: Event)
    | Update(eventId: string, event: Event)
    | Delete(eventId: string)

  /** What happened to one event of the pass, in processing order. */
  datatype Outcome =
    | Created(uid: string, eventId: string)
    | Updated(uid: string, eventId: string)
    | Unchanged(uid: string)
    | Deleted(uid: string, eventId: string)
    | Failed(uid: string, fault: Fault)

  /**
   * When a matched key leaves the lookup. `OnSuccess` is the source: the
   * removal follows the update inside the try block, so an update that throws
   * leaves its key behind. `Always` releases the key whatever the update did.
   */
  datatype KeyRelease = OnSuccess | Always

  /**
   * The pass's environment. Faults and inserted ids are indexed by the
   * appointment's position in the Outlook sequence; delete faults by the
   * position of the row in the delete loop.
   */
  datatype Env = Env(
    timeZone: string,
    today: int,
    upsertFault: nat -> Fault,
    deleteFault: nat -> Fault,
    insertedId: nat -> string,
    newRecordId: nat -> RecordId)

  /**
   * The state threaded through the pass: the mirror table, the Google
   * calendar (event id to payload), the CalUid lookup, the calls issued and
   * the outcomes so far.
   */
  datatype State = State(
    mirror: seq<MirrorRecord>,
    remote: map<string, Event>,
    lookup: map<string, MirrorRecord>,
    calls: seq<Call>,
    report: seq<Outcome>)

  /** The comparison deciding an update: Subject, Start, End or Body differs from the row. */
  predicate Differs(r: MirrorRecord, a: Appointment) {
    r.summary != a.subject || r.start != a.start || r.end != a.end || r.description != a.body
  }

  /** The row CreateEvent writes. */
  function NewRecord(id: RecordId, a: Appointment, eventId: string): MirrorRecord {
    MirrorRecord(id, a.globalId, eventId, a.subject, a.start, a.end, a.body, a.isRecurring)
  }

  /** The report grows by one entry, about the given uid. */
  predicate Reported(s: State, t: State, uid: string) {
    |t.report| == |s.report| + 1 && t.report[..|s.report|] == s.report && t.report[|s.report|].uid == uid
  }

  /**
   * UpdateEvent: send the rebuilt payload to Google under the row's existing
   * event id, then overwrite the row's four copied fields and save.
   */
  function UpdateEvent(s: State, i: nat, a: Appointment, r: MirrorRecord, env: Env): (t: State)
    ensures Reported(s, t, a.globalId)
    ensures t.calls == s.calls + [Update(r.googleEventId, ConvertToGoogleEvent(a, env.timeZone))]
    ensures t.lookup == s.lookup
    ensures env.upsertFault(i) == NoFault <==> t.report[|s.report|] == Updated(a.globalId, r.googleEventId)
    ensures env.upsertFault(i) != RemoteFault ==> t.remote == s.remote[r.googleEventId := ConvertToGoogleEvent(a, env.timeZone)]
    ensures env.upsertFault(i) == RemoteFault ==> t.remote == s.remote
    ensures env.upsertFault(i) != NoFault ==> t.mirror == s.mirror
    ensures env.upsertFault(i) == NoFault ==> t.mirror == Overwrite(s.mirror, r.id, a)
    ensures env.upsertFault(i) != NoFault ==> t.report[|s.report|] == Failed(a.globalId, env.upsertFault(i))
  {
    var g := ConvertToGoogleEvent(a, env.timeZone);
    var s1 := s.(calls := s.calls + [Update(r.googleEventId, g)]);
    match env.upsertFault(i)
    case RemoteFault => s1.(report := s.report + [Failed(a.globalId, RemoteFault)])
    case StoreFault =>
      s1.(remote := s.remote[r.googleEventId := g], report := s.report + [Failed(a.globalId, StoreFault)])
    case NoFault =>
      s1.(mirror := Overwrite(s.mirror, r.id, a),
          remote := s.remote[r.googleEventId := g],
          report := s.report + [Updated(a.globalId, r.googleEventId)])
  }

  /**
   * CreateEvent: insert the payload into Google, then add a row linking the
   * appointment to the returned event id and save. A Guid already in the
   * table makes the save throw, like any other save failure.
   */
  function CreateEvent(s: State, i: nat, a: Appointment, env: Env): (t: State)
    ensures Reported(s, t, a.globalId)
    ensures t.calls == s.calls + [Insert(ConvertToGoogleEvent(a, env.timeZone))]
    ensures t.lookup == s.lookup
    ensures t.report[|s.report|].Created? ==>
      t.report[|s.report|] == Created(a.globalId, env.insertedId(i))
      && t.mirror == s.mirror + [NewRecord(env.newRecordId(i), a, env.insertedId(i))]
      && env.newRecordId(i) !in Ids(s.mirror)
    ensures !t.report[|s.report|].Created? ==> t.report[|s.report|].Failed? && t.mirror == s.mirror
    ensures t.report[|s.report|].Created? <==> env.upsertFault(i) == NoFault && env.newRecordId(i) !in Ids(s.mirror)
    ensures env.upsertFault(i) == RemoteFault ==> t.report[|s.report|] == Failed(a.globalId, RemoteFault)
    ensures env.upsertFault(i) != RemoteFault && !t.report[|s.report|].Created? ==>
      t.report[|s.report|] == Failed(a.globalId, StoreFault)
    ensures env.upsertFault(i) == RemoteFault ==> t.remote == s.remote
    ensures env.upsertFault(i) != RemoteFault ==>
      t.remote == s.remote[env.insertedId(i) := ConvertToGoogleEvent(a, env.timeZone)]
  {
    var g := ConvertToGoogleEvent(a, env.timeZone);
    var s1 := s.(calls := s.calls + [Insert(g)]);
    if env.upsertFault(i) == RemoteFault then
      s1.(report := s.report + [Failed(a.globalId, RemoteFault)])
    else
      var eventId := env.insertedId(i);
      var row := NewRecord(env.newRecordId(i), a, eventId);
      assert row.id == env.newRecordId(i);
      var s2 := s1.(remote := s.remote[eventId := g]);
      if env.upsertFault(i) == StoreFault || row.id in Ids(s.mirror) then
        s2.(report := s.report + [Failed(a.globalId, StoreFault)])
      else
        assert env.upsertFault(i) == NoFault;
        s2.(mirror := s.mirror + [row], report := s.report + [Created(a.globalId, eventId)])
  }

  /** The body of the first loop for the `i`-th appointment `a`. */
  function ProcessAppointment(s: State, i: nat, a: Appointment, env: Env, release: KeyRelease): (t: State)
    ensures Reported(s, t, a.globalId)
    ensures |t.calls| <= |s.calls| + 1
    ensures t.lookup.Keys <= s.lookup.Keys && s.lookup.Keys - t.lookup.Keys <= {a.globalId}
    ensures forall u :: u in t.lookup ==> t.lookup[u] == s.lookup[u]
    ensures release == Always || !t.report[|s.report|].Failed? ==> a.globalId !in t.lookup
    ensures forall r :: r in s.mirror && r.id !in LookupIds(s.lookup) ==> r in t.mirror
    ensures Ids(s.mirror) <= Ids(t.mirror)
    ensures a.globalId in s.lookup && !Differs(s.lookup[a.globalId], a) ==>
      t.calls == s.calls && t.mirror == s.mirror && t.remote == s.remote && t.report[|s.report|] == Unchanged(a.globalId)
    ensures a.globalId in s.lookup && Differs(s.lookup[a.globalId], a) ==>
      t.calls == s.calls + [Update(s.lookup[a.globalId].googleEventId, ConvertToGoogleEvent(a, env.timeZone))]
    ensures a.globalId !in s.lookup ==> t.calls == s.calls + [Insert(ConvertToGoogleEvent(a, env.timeZone))]
    ensures a.globalId in t.lookup <==>
      a.globalId in s.lookup && Differs(s.lookup[a.globalId], a) && env.upsertFault(i) != NoFault && release == OnSuccess
  {
    if a.globalId in s.lookup then
      var r := s.lookup[a.globalId];
      if Differs(r, a) then
        var t := UpdateEvent(s, i, a, r, env);
        OverwriteMembers(s.mirror, r.id, a);
        OverwriteKeepsIds(s.mirror, r.id, a);
        assert r.id in LookupIds(s.lookup);
        if env.upsertFault(i) != NoFault && release == OnSuccess then t
        else t.(lookup := s.lookup - {a.globalId})
      else
        s.(lookup := s.lookup - {a.globalId}, report := s.report + [Unchanged(a.globalId)])
    else
      CreateEvent(s, i, a, env)
  }


  /**
   * Appending one outcome about `src[n - 1]` to a report that lists the
   * first `n - 1` appointments in order gives one that lists the first `n`.
   */
  lemma ReportStep(s0: State, prev: State, t: State, src: seq<Appointment>, n: nat)
    requires 0 < n <= |src|
    requires |prev.report| == |s0.report| + (n - 1) && prev.report[..|s0.report|] == s0.report
    requires forall k :: 0 <= k < n - 1 ==> prev.report[|s0.report| + k].uid == src[k].globalId
    requires Reported(prev, t, src[n - 1].globalId)
    ensures |t.report| == |s0.report| + n && t.report[..|s0.report|] == s0.report
    ensures forall k :: 0 <= k < n ==> t.report[|s0.report| + k].uid == src[k].globalId
  {
    assert t.report[..|s0.report|] == t.report[..|prev.report|][..|s0.report|];
    forall k | 0 <= k < n - 1 ensures t.report[|s0.report| + k].uid == src[k].globalId {
      assert t.report[|s0.report| + k] == t.report[..|prev.report|][|s0.report| + k];
    }
  }

  /** The ids of the first `k` appointments. */
  function Seen(src: seq<Appointment>, k: nat): set<string> {
    set j | 0 <= j < k && j < |src| :: src[j].globalId
  }

  /** The first loop over the first `n` appointments, from state `s0`. */
  function ProcessAppointments(src: seq<Appointment>, n: nat, s0: State, env: Env, release: KeyRelease): (s: State)
    requires n <= |src|
    ensures |s.report| == |s0.report| + n && s.report[..|s0.report|] == s0.report
    ensures forall k :: 0 <= k < n ==> s.report[|s0.report| + k].uid == src[k].globalId
    ensures |s.calls| <= |s0.calls| + n
    ensures s.lookup.Keys <= s0.lookup.Keys
    ensures forall u :: u in s.lookup ==> s.lookup[u] == s0.lookup[u]
    ensures forall r :: r in s0.mirror && r.id !in LookupIds(s0.lookup) ==> r in s.mirror
    ensures Ids(s0.mirror) <= Ids(s.mirror)
    ensures forall u :: u in s0.lookup && u !in Seen(src, n) ==> u in s.lookup
  {
    if n == 0 then s0
    else
      var prev := ProcessAppointments(src, n - 1, s0, env, release);
      assert LookupIds(prev.lookup) <= LookupIds(s0.lookup);
      assert Seen(src, n) == Seen(src, n - 1) + {src[n - 1].globalId};
      var s := ProcessAppointment(prev, n - 1, src[n - 1], env, release);
      ReportStep(s0, prev, s, src, n);
      s
  }

  /**
   * DeleteEvent for the `j`-th leftover row: remove the row and save, then
   * delete the event from Google. A failed save stops before the Google call.
   */
  function DeleteEvent(s: State, j: nat, r: MirrorRecord, env: Env): (t: State)
    ensures Reported(s, t, r.calUid)
    ensures t.lookup == s.lookup
    ensures env.deleteFault(j) == StoreFault ==> t.mirror == s.mirror && t.calls == s.calls && t.remote == s.remote
    ensures env.deleteFault(j) != StoreFault ==>
      && t.mirror == RemoveRow(s.mirror, r.id)
      && t.calls == s.calls + [Delete(r.googleEventId)]
    ensures env.deleteFault(j) == NoFault <==> t.report[|s.report|] == Deleted(r.calUid, r.googleEventId)
    ensures env.deleteFault(j) != NoFault ==> t.report[|s.report|] == Failed(r.calUid, env.deleteFault(j))
    ensures env.deleteFault(j) == NoFault ==> t.remote == s.remote - {r.googleEventId}
    ensures env.deleteFault(j) != NoFault ==> t.remote == s.remote
  {
    match env.deleteFault(j)
    case StoreFault => s.(report := s.report + [Failed(r.calUid, StoreFault)])
    case RemoteFault =>
      s.(mirror := RemoveRow(s.mirror, r.id),
         calls := s.calls + [Delete(r.googleEventId)],
         report := s.report + [Failed(r.calUid, RemoteFault)])
    case NoFault =>
      s.(mirror := RemoveRow(s.mirror, r.id),
         remote := s.remote - {r.googleEventId},
         calls := s.calls + [Delete(r.googleEventId)],
         report := s.report + [Deleted(r.calUid, r.googleEventId)])
  }


  /** `ReportStep` for the delete loop, whose outcomes follow the leftover rows. */
  lemma DeleteReportStep(s0: State, prev: State, t: State, rows: seq<MirrorRecord>, n: nat)
    requires 0 < n <= |rows|
    requires |prev.report| == |s0.report| + (n - 1) && prev.report[..|s0.report|] == s0.report
    requires forall k :: 0 <= k < n - 1 ==> prev.report[|s0.report| + k].uid == rows[k].calUid
    requires Reported(prev, t, rows[n - 1].calUid)
    ensures |t.report| == |s0.report| + n && t.report[..|s0.report|] == s0.report
    ensures forall k :: 0 <= k < n ==> t.report[|s0.report| + k].uid == rows[k].calUid
  {
    assert t.report[..|s0.report|] == t.report[..|prev.report|][..|s0.report|];
    forall k | 0 <= k < n - 1 ensures t.report[|s0.report| + k].uid == rows[k].calUid {
      assert t.report[|s0.report| + k] == t.report[..|prev.report|][|s0.report| + k];
    }
  }

  /** The delete loop over the first `n` leftover rows, from state `s0`. */
  function DeleteEvents(rows: seq<MirrorRecord>, n: nat, s0: State, env: Env): (s: State)
    requires n <= |rows|
    ensures |s.report| == |s0.report| + n && s.report[..|s0.report|] == s0.report
    ensures forall k :: 0 <= k < n ==> s.report[|s0.report| + k].uid == rows[k].calUid
    ensures |s.calls| <= |s0.calls| + n
    ensures s.lookup == s0.lookup
    ensures forall r :: r in s.mirror ==> r in s0.mirror
    ensures forall r :: r in s0.mirror && r.id !in Ids(rows[..n]) ==> r in s.mirror
  {
    if n == 0 then s0
    else
      var prev := DeleteEvents(rows, n - 1, s0, env);
      assert Ids(rows[..n]) == Ids(rows[..n - 1]) + {rows[n - 1].id} by {
        assert rows[..n] == rows[..n - 1] + [rows[n - 1]];
      }
      var s := DeleteEvent(prev, n - 1, rows[n - 1], env);
      DeleteReportStep(s0, prev, s, rows, n);
      s
  }

  /** `xs` is `ys` with some rows dropped and the others kept in their order. */
  predicate SubsequenceOf(xs: seq<MirrorRecord>, ys: seq<MirrorRecord>)
    decreases |ys|
  {
    || |xs| == 0
    || (&& |ys| > 0
        && ((xs[0] == ys[0] && SubsequenceOf(xs[1..], ys[1..])) || SubsequenceOf(xs, ys[1..])))
  }

  /**
   * The rows still keyed in the lookup after the first loop, in dictionary
   * (load) order: the walk over `Values` visits each remaining key's row once.
   */
  function Leftovers(loaded: seq<MirrorRecord>, lookup: map<string, MirrorRecord>): (rest: seq<MirrorRecord>)
    ensures forall r :: r in rest <==> r in loaded && r.calUid in lookup
    ensures |rest| <= |loaded|
    ensures SubsequenceOf(rest, loaded)
    ensures DistinctUids(loaded) ==> DistinctUids(rest)
  {
    if |loaded| == 0 then []
    else
      var tail := Leftovers(loaded[1..], lookup);
      assert loaded == [loaded[0]] + loaded[1..];
      DistinctUidsCons(loaded[0], loaded[1..]);
      if loaded[0].calUid in lookup then
        var rest := [loaded[0]] + tail;
        assert rest[0] == loaded[0] && rest[1..] == tail;
        DistinctUidsCons(loaded[0], tail);
        rest
      else
        tail
  }

  /**
   * One pass. It aborts, changing nothing, exactly when two loaded rows
   * share a CalUid (ToDictionary throws and nothing catches it).
   */
  function Sync(mirror: seq<MirrorRecord>, remote: map<string, Event>, src: seq<Appointment>,
                env: Env, release: KeyRelease): (res: Result<State, string>)
    ensures res.Failure? <==> !DistinctUids(Window(mirror, env.today))
  {
    var loaded := Window(mirror, env.today);
    match ToDictionary(loaded)
    case Failure(u) => Failure(u)
    case Success(lookup) =>
      var s0 := State(mirror, remote, lookup, [], []);
      var s1 := ProcessAppointments(src, |src|, s0, env, release);
      var rest := Leftovers(loaded, s1.lookup);
      Success(DeleteEvents(rest, |rest|, s1, env))
  }
}
