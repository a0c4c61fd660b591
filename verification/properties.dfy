/**
 * Properties of a whole sync pass: what the delete loop does with each
 * leftover row, that every appointment is attempted whatever happened to the
 * ones before it, that a created row survives the rest of the pass, that rows
 * outside the window are never touched, which rows the delete loop may
 * remove, and how the update and create rules act on one appointment.
 */
module PassProperties {
  import opened Wrappers
  import opened Conversion
  import opened Mirror
  import opened Reconciliation

  /** The Outlook ids of a sequence of appointments. */
  function GlobalIds(src: seq<Appointment>): set<string> {
    set a | a in src :: a.globalId
  }

  /** Two rows of a table with a primary key and the same id are the same row. */
  lemma SameIdSameRow(rows: seq<MirrorRecord>, q1: MirrorRecord, q2: MirrorRecord)
    requires DistinctIds(rows) && q1 in rows && q2 in rows && q1.id == q2.id
    ensures q1 == q2
  {
    var i :| 0 <= i < |rows| && rows[i] == q1;
    var j :| 0 <= j < |rows| && rows[j] == q2;
    assert i == j;
  }

  /** Two different rows of a table with a primary key have different ids. */
  lemma IdsDiffer(rows: seq<MirrorRecord>, q1: MirrorRecord, q2: MirrorRecord)
    requires DistinctIds(rows) && q1 in rows && q2 in rows && q1 != q2
    ensures q1.id != q2.id
  {
    var i :| 0 <= i < |rows| && rows[i] == q1;
    var j :| 0 <= j < |rows| && rows[j] == q2;
  }

  /** The first loop over `m + 1` appointments is the loop over `m` followed by one more step. */
  lemma FirstLoopUnfold(src: seq<Appointment>, m: nat, s0: State, env: Env, release: KeyRelease)
    requires m < |src|
    ensures ProcessAppointments(src, m + 1, s0, env, release) ==
      ProcessAppointment(ProcessAppointments(src, m, s0, env, release), m, src[m], env, release)
  {
  }

  /** The delete loop over `m + 1` rows is the loop over `m` followed by one more delete. */
  lemma DeleteLoopUnfold(rows: seq<MirrorRecord>, m: nat, s0: State, env: Env)
    requires m < |rows|
    ensures DeleteEvents(rows, m + 1, s0, env) == DeleteEvent(DeleteEvents(rows, m, s0, env), m, rows[m], env)
  {
  }

  /** A pass that does not abort is the first loop followed by the delete loop over the leftovers. */
  lemma SyncUnfold(mirror: seq<MirrorRecord>, remote: map<string, Event>, src: seq<Appointment>,
                   env: Env, release: KeyRelease)
    requires Sync(mirror, remote, src, env, release).Success?
    ensures DistinctUids(Window(mirror, env.today))
    ensures var loaded := Window(mirror, env.today);
      var s1 := ProcessAppointments(src, |src|, State(mirror, remote, ToDictionary(loaded).value, [], []), env, release);
      var rest := Leftovers(loaded, s1.lookup);
      Sync(mirror, remote, src, env, release) == Success(DeleteEvents(rest, |rest|, s1, env))
  {
  }

  /**
   * The lookup built from the window holds exactly the loaded rows, each
   * under its own CalUid, so its ids are the loaded rows' ids.
   */
  lemma LoadedLookup(loaded: seq<MirrorRecord>)
    requires DistinctUids(loaded)
    ensures var lookup := ToDictionary(loaded).value;
      && (forall u :: u in lookup ==> lookup[u] in loaded && lookup[u].calUid == u)
      && LookupIds(lookup) == Ids(loaded)
  {
    var lookup := ToDictionary(loaded).value;
    forall u | u in lookup ensures lookup[u] in loaded && lookup[u].calUid == u {
      assert u in Uids(loaded);
      var q :| q in loaded && q.calUid == u;
      assert lookup[q.calUid] == q;
    }
    forall x | x in Ids(loaded) ensures x in LookupIds(lookup) {
      var q :| q in loaded && q.id == x;
      assert lookup[q.calUid] == q;
    }
  }

  /**
   * After `n` steps of the delete loop starting from a report of length
   * `base`, the `k`-th delete is reported as failed exactly when it failed.
   */
  predicate FaultsShown(n: nat, base: nat, s: State, env: Env) {
    && base + n <= |s.report|
    && forall k :: 0 <= k < n ==> (s.report[base + k].Failed? <==> env.deleteFault(k) != NoFault)
  }

  lemma DeleteFaultsStep(m: nat, base: nat, prev: State, s: State, env: Env)
    requires |prev.report| == base + m
    requires FaultsShown(m, base, prev, env)
    requires |s.report| == |prev.report| + 1 && s.report[..|prev.report|] == prev.report
    requires s.report[|prev.report|].Failed? <==> env.deleteFault(m) != NoFault
    ensures FaultsShown(m + 1, base, s, env)
  {
    forall k | 0 <= k < m
      ensures s.report[base + k].Failed? <==> env.deleteFault(k) != NoFault
    {
      assert s.report[base + k] == s.report[..|prev.report|][base + k];
    }
  }

  /**
   * The delete loop reports a failure at row `k` exactly when deleting that
   * row failed, and keeps the table's primary key.
   */
  lemma {:induction false} DeleteLoopFaults(rows: seq<MirrorRecord>, n: nat, s0: State, env: Env)
    requires n <= |rows|
    ensures FaultsShown(n, |s0.report|, DeleteEvents(rows, n, s0, env), env)
    ensures DistinctIds(s0.mirror) ==> DistinctIds(DeleteEvents(rows, n, s0, env).mirror)
  {
    if n > 0 {
      var m: nat := n - 1;
      DeleteLoopFaults(rows, m, s0, env);
      DeleteLoopUnfold(rows, m, s0, env);
      var prev := DeleteEvents(rows, m, s0, env);
      var s := DeleteEvents(rows, n, s0, env);
      DeleteFaultsStep(m, |s0.report|, prev, s, env);
    }
  }

  /** No save of the first `n` steps of the delete loop fails. */
  predicate NoStoreFault(env: Env, n: nat) {
    n == 0 || (env.deleteFault(n - 1) != StoreFault && NoStoreFault(env, n - 1))
  }

  /**
   * After `n` steps of the delete loop from `s0`: one Google delete per row,
   * in order, after the calls already made; exactly the rows with those ids
   * are gone from the table; a row whose Google delete succeeded is gone
   * from the calendar.
   */
  ghost predicate RemovedEach(rows: seq<MirrorRecord>, n: nat, s0: State, s: State, env: Env) {
    && n <= |rows|
    && |s.calls| == |s0.calls| + n && s.calls[..|s0.calls|] == s0.calls
    && (forall k :: 0 <= k < n ==> s.calls[|s0.calls| + k] == Delete(rows[k].googleEventId))
    && (forall r :: r in s.mirror <==> r in s0.mirror && r.id !in Ids(rows[..n]))
    && (forall k :: 0 <= k < n && env.deleteFault(k) == NoFault ==> rows[k].googleEventId !in s.remote)
  }

  lemma DeleteRemovesStep(rows: seq<MirrorRecord>, m: nat, s0: State, prev: State, s: State, env: Env)
    requires m < |rows|
    requires RemovedEach(rows, m, s0, prev, env)
    requires s.calls == prev.calls + [Delete(rows[m].googleEventId)]
    requires forall r :: r in s.mirror <==> r in prev.mirror && r.id != rows[m].id
    requires env.deleteFault(m) == NoFault ==> s.remote == prev.remote - {rows[m].googleEventId}
    requires env.deleteFault(m) != NoFault ==> s.remote == prev.remote
    ensures RemovedEach(rows, m + 1, s0, s, env)
  {
    assert rows[..m + 1] == rows[..m] + [rows[m]];
    assert Ids(rows[..m + 1]) == Ids(rows[..m]) + {rows[m].id};
    forall k | 0 <= k < m ensures s.calls[|s0.calls| + k] == Delete(rows[k].googleEventId) {
      assert s.calls[|s0.calls| + k] == prev.calls[|s0.calls| + k];
    }
  }

  /**
   * When no save of the delete loop fails, each leftover row is removed from
   * the table and gets exactly one Google delete call, in order; a row whose
   * Google call also succeeded is gone from the calendar.
   */
  lemma {:induction false} DeleteLoopRemovesEach(rows: seq<MirrorRecord>, n: nat, s0: State, env: Env)
    requires n <= |rows|
    requires NoStoreFault(env, n)
    ensures RemovedEach(rows, n, s0, DeleteEvents(rows, n, s0, env), env)
  {
    if n == 0 {
      assert rows[..0] == [];
    } else {
      var m: nat := n - 1;
      DeleteLoopRemovesEach(rows, m, s0, env);
      DeleteLoopUnfold(rows, m, s0, env);
      var prev := DeleteEvents(rows, m, s0, env);
      var s := DeleteEvents(rows, n, s0, env);
      DeleteRemovesStep(rows, m, s0, prev, s, env);
    }
  }

  /**
   * After `n` steps of the first loop starting from a report of length
   * `base`, no appointment among the first `n` whose key had to be released
   * is still in the lookup.
   */
  predicate KeysOut(src: seq<Appointment>, n: nat, base: nat, s: State, release: KeyRelease) {
    && n <= |src| && base + n <= |s.report|
    && forall k :: 0 <= k < n && (release == Always || !s.report[base + k].Failed?) ==>
         src[k].globalId !in s.lookup
  }

  lemma KeysReleasedStep(src: seq<Appointment>, m: nat, base: nat, prev: State, s: State, release: KeyRelease)
    requires m < |src|
    requires |prev.report| == base + m
    requires KeysOut(src, m, base, prev, release)
    requires Reported(prev, s, src[m].globalId)
    requires s.lookup.Keys <= prev.lookup.Keys
    requires release == Always || !s.report[|prev.report|].Failed? ==> src[m].globalId !in s.lookup
    ensures KeysOut(src, m + 1, base, s, release)
  {
    forall k | 0 <= k < m && (release == Always || !s.report[base + k].Failed?)
      ensures src[k].globalId !in s.lookup
    {
      assert s.report[base + k] == s.report[..|prev.report|][base + k];
    }
  }

  /**
   * The first loop leaves a key in the lookup only for an appointment whose
   * update failed, and then only when keys are released on success.
   */
  lemma {:induction false} KeysReleased(src: seq<Appointment>, n: nat, s0: State, env: Env, release: KeyRelease)
    requires n <= |src|
    ensures KeysOut(src, n, |s0.report|, ProcessAppointments(src, n, s0, env, release), release)
  {
    if n > 0 {
      var m: nat := n - 1;
      KeysReleased(src, m, s0, env, release);
      FirstLoopUnfold(src, m, s0, env, release);
      var prev := ProcessAppointments(src, m, s0, env, release);
      var s := ProcessAppointments(src, n, s0, env, release);
      KeysReleasedStep(src, m, |s0.report|, prev, s, release);
    }
  }

  /**
   * After `n` steps of the first loop, every appointment among the first
   * `n` reported as created is reported with the id Google returned and has
   * its row in the table, under an id outside `taken`.
   */
  ghost predicate CreatedKept(src: seq<Appointment>, n: nat, base: nat, s: State, env: Env, taken: set<RecordId>) {
    && n <= |src| && base + n <= |s.report|
    && forall k :: 0 <= k < n && s.report[base + k].Created? ==>
         && s.report[base + k] == Created(src[k].globalId, env.insertedId(k))
         && NewRecord(env.newRecordId(k), src[k], env.insertedId(k)) in s.mirror
         && env.newRecordId(k) !in taken
  }

  lemma CreatedRowsStep(src: seq<Appointment>, m: nat, base: nat, prev: State, s: State, env: Env, taken: set<RecordId>)
    requires m < |src|
    requires |prev.report| == base + m
    requires CreatedKept(src, m, base, prev, env, taken)
    requires LookupIds(prev.lookup) <= taken
    requires Reported(prev, s, src[m].globalId)
    requires forall r :: r in prev.mirror && r.id !in LookupIds(prev.lookup) ==> r in s.mirror
    requires s.report[|prev.report|].Created? ==>
      && s.report[|prev.report|] == Created(src[m].globalId, env.insertedId(m))
      && NewRecord(env.newRecordId(m), src[m], env.insertedId(m)) in s.mirror
      && env.newRecordId(m) !in taken
    ensures CreatedKept(src, m + 1, base, s, env, taken)
  {
    forall k | 0 <= k < m && s.report[base + k].Created?
      ensures s.report[base + k] == Created(src[k].globalId, env.insertedId(k))
      ensures NewRecord(env.newRecordId(k), src[k], env.insertedId(k)) in s.mirror
    {
      assert s.report[base + k] == s.report[..|prev.report|][base + k];
    }
  }

  /** What one step of the first loop does when it reports a creation. */
  lemma CreatedByStep(prev: State, i: nat, a: Appointment, env: Env, release: KeyRelease)
    requires ProcessAppointment(prev, i, a, env, release).report[|prev.report|].Created?
    ensures var s := ProcessAppointment(prev, i, a, env, release);
      && s.report[|prev.report|] == Created(a.globalId, env.insertedId(i))
      && NewRecord(env.newRecordId(i), a, env.insertedId(i)) in s.mirror
      && env.newRecordId(i) !in Ids(prev.mirror)
  {
    var s := ProcessAppointment(prev, i, a, env, release);
    assert a.globalId !in prev.lookup;
    assert s == CreateEvent(prev, i, a, env);
  }

  /** One step of the first loop keeps `CreatedKept`, with the ids taken before it. */
  lemma CreatedPersistStep(src: seq<Appointment>, m: nat, base: nat, prev: State, env: Env, release: KeyRelease,
                           taken: set<RecordId>)
    requires m < |src|
    requires |prev.report| == base + m
    requires CreatedKept(src, m, base, prev, env, taken)
    requires LookupIds(prev.lookup) <= taken <= Ids(prev.mirror)
    ensures CreatedKept(src, m + 1, base, ProcessAppointment(prev, m, src[m], env, release), env, taken)
  {
    var s := ProcessAppointment(prev, m, src[m], env, release);
    if s.report[|prev.report|].Created? {
      CreatedByStep(prev, m, src[m], env, release);
    }
    CreatedRowsStep(src, m, base, prev, s, env, taken);
  }

  /**
   * A row the first loop creates stays in the table for the rest of that
   * loop, and its id is not one the lookup started with.
   */
  lemma {:induction false} CreatedRowsPersist(src: seq<Appointment>, n: nat, s0: State, env: Env, release: KeyRelease)
    requires n <= |src|
    requires LookupIds(s0.lookup) <= Ids(s0.mirror)
    ensures CreatedKept(src, n, |s0.report|, ProcessAppointments(src, n, s0, env, release), env, LookupIds(s0.lookup))
  {
    if n > 0 {
      var m: nat := n - 1;
      CreatedRowsPersist(src, m, s0, env, release);
      FirstLoopUnfold(src, m, s0, env, release);
      var prev := ProcessAppointments(src, m, s0, env, release);
      assert LookupIds(prev.lookup) <= LookupIds(s0.lookup);
      CreatedPersistStep(src, m, |s0.report|, prev, env, release, LookupIds(s0.lookup));
    }
  }

  /** The first `|src|` outcomes of a pass are about the appointments, in Outlook order. */
  predicate AttemptedInOrder(src: seq<Appointment>, s: State) {
    && |src| <= |s.report|
    && forall k :: 0 <= k < |src| ==> s.report[k].uid == src[k].globalId
  }

  lemma PrefixUids(a: seq<Outcome>, b: seq<Outcome>, src: seq<Appointment>)
    requires |b| == |src| && |b| <= |a| && a[..|b|] == b
    requires forall k :: 0 <= k < |src| ==> b[k].uid == src[k].globalId
    ensures forall k :: 0 <= k < |src| ==> a[k].uid == src[k].globalId
  {
    forall k | 0 <= k < |src| ensures a[k].uid == src[k].globalId {
      assert a[k] == a[..|b|][k];
    }
  }

  lemma ReportHead(src: seq<Appointment>, s0: State, env: Env, release: KeyRelease, rest: seq<MirrorRecord>)
    requires s0.report == []
    ensures AttemptedInOrder(src, DeleteEvents(rest, |rest|, ProcessAppointments(src, |src|, s0, env, release), env))
  {
    var s1 := ProcessAppointments(src, |src|, s0, env, release);
    var s := DeleteEvents(rest, |rest|, s1, env);
    assert forall k :: 0 <= k < |src| ==> s1.report[k].uid == src[k].globalId;
    PrefixUids(s.report, s1.report, src);
  }

  /**
   * Every appointment is attempted, in Outlook order, whatever happened to
   * the ones before it.
   */
  lemma EveryEventAttempted(mirror: seq<MirrorRecord>, remote: map<string, Event>, src: seq<Appointment>,
                            env: Env, release: KeyRelease)
    requires Sync(mirror, remote, src, env, release).Success?
    ensures AttemptedInOrder(src, Sync(mirror, remote, src, env, release).value)
  {
    SyncUnfold(mirror, remote, src, env, release);
    var loaded := Window(mirror, env.today);
    var s0 := State(mirror, remote, ToDictionary(loaded).value, [], []);
    var s1 := ProcessAppointments(src, |src|, s0, env, release);
    ReportHead(src, s0, env, release, Leftovers(loaded, s1.lookup));
  }

  lemma TailUids(a: seq<Outcome>, n: nat, rest: seq<MirrorRecord>, loaded: seq<MirrorRecord>)
    requires |a| == n + |rest|
    requires forall k :: 0 <= k < |rest| ==> a[n + k].uid == rest[k].calUid
    requires forall r :: r in rest ==> r in loaded
    ensures forall k :: n <= k < |a| ==> a[k].uid in Uids(loaded)
  {
    forall k | n <= k < |a| ensures a[k].uid in Uids(loaded) {
      assert a[n + (k - n)].uid == rest[k - n].calUid;
      assert rest[k - n] in rest;
    }
  }

  lemma ReportTail(src: seq<Appointment>, s0: State, env: Env, release: KeyRelease, rest: seq<MirrorRecord>, loaded: seq<MirrorRecord>)
    requires s0.report == []
    requires forall r :: r in rest ==> r in loaded
    ensures var s := DeleteEvents(rest, |rest|, ProcessAppointments(src, |src|, s0, env, release), env);
      forall k :: |src| <= k < |s.report| ==> s.report[k].uid in Uids(loaded)
  {
    var s1 := ProcessAppointments(src, |src|, s0, env, release);
    var s := DeleteEvents(rest, |rest|, s1, env);
    TailUids(s.report, |s1.report|, rest, loaded);
  }

  /** Every outcome after the appointments' is a delete of a row the pass loaded. */
  lemma DeletesAreLoadedRows(mirror: seq<MirrorRecord>, remote: map<string, Event>, src: seq<Appointment>,
                             env: Env, release: KeyRelease)
    requires Sync(mirror, remote, src, env, release).Success?
    ensures var s := Sync(mirror, remote, src, env, release).value;
      forall k :: |src| <= k < |s.report| ==> s.report[k].uid in Uids(Window(mirror, env.today))
  {
    SyncUnfold(mirror, remote, src, env, release);
    var loaded := Window(mirror, env.today);
    var s0 := State(mirror, remote, ToDictionary(loaded).value, [], []);
    var s1 := ProcessAppointments(src, |src|, s0, env, release);
    ReportTail(src, s0, env, release, Leftovers(loaded, s1.lookup), loaded);
  }

  /** The uids of the outcomes from position `n` on: the deletes of a pass. */
  function DeletedUids(report: seq<Outcome>, n: nat): set<string> {
    set k | n <= k < |report| :: report[k].uid
  }

  lemma TailNotReleased(a: seq<Outcome>, b: seq<Outcome>, src: seq<Appointment>, rest: seq<MirrorRecord>,
                        lookup: map<string, MirrorRecord>, release: KeyRelease)
    requires |b| == |src| && |a| == |b| + |rest| && a[..|b|] == b
    requires forall k :: 0 <= k < |rest| ==> a[|b| + k].uid == rest[k].calUid
    requires forall r :: r in rest ==> r.calUid in lookup
    requires forall k :: 0 <= k < |src| && (release == Always || !b[k].Failed?) ==> src[k].globalId !in lookup
    ensures forall j :: 0 <= j < |src| && (release == Always || !a[j].Failed?) ==> src[j].globalId !in DeletedUids(a, |src|)
  {
    forall j | 0 <= j < |src| && (release == Always || !a[j].Failed?)
      ensures src[j].globalId !in DeletedUids(a, |src|)
    {
      assert a[j] == a[..|b|][j];
      forall k | |b| <= k < |a| ensures a[k].uid != src[j].globalId {
        assert a[|b| + (k - |b|)].uid == rest[k - |b|].calUid;
        assert rest[k - |b|] in rest;
      }
    }
  }

  /** The released-key fact of the first loop, for a state after it. */
  ghost predicate ReleasedBy(src: seq<Appointment>, s1: State, release: KeyRelease) {
    && |s1.report| == |src|
    && forall k :: 0 <= k < |src| && (release == Always || !s1.report[k].Failed?) ==> src[k].globalId !in s1.lookup
  }

  lemma FirstPhaseKeys(src: seq<Appointment>, s0: State, env: Env, release: KeyRelease)
    requires s0.report == []
    ensures ReleasedBy(src, ProcessAppointments(src, |src|, s0, env, release), release)
  {
    KeysReleased(src, |src|, s0, env, release);
  }

  lemma OnlyVanished(src: seq<Appointment>, s1: State, env: Env, release: KeyRelease, rest: seq<MirrorRecord>)
    requires ReleasedBy(src, s1, release)
    requires forall r :: r in rest ==> r.calUid in s1.lookup
    ensures var s := DeleteEvents(rest, |rest|, s1, env);
      forall j :: 0 <= j < |src| && (release == Always || !s.report[j].Failed?) ==> src[j].globalId !in DeletedUids(s.report, |src|)
  {
    var s := DeleteEvents(rest, |rest|, s1, env);
    TailNotReleased(s.report, s1.report, src, rest, s1.lookup, release);
  }

  /**
   * The delete loop only removes events that are no longer in Outlook, or,
   * as the source is written, events whose update failed in the same pass:
   * an appointment whose key had to be released is never deleted.
   */
  lemma DeletesOnlyVanishedFor(mirror: seq<MirrorRecord>, remote: map<string, Event>, src: seq<Appointment>,
                               env: Env, release: KeyRelease)
    requires Sync(mirror, remote, src, env, release).Success?
    ensures var s := Sync(mirror, remote, src, env, release).value;
      forall j :: 0 <= j < |src| && (release == Always || !s.report[j].Failed?) ==> src[j].globalId !in DeletedUids(s.report, |src|)
  {
    SyncUnfold(mirror, remote, src, env, release);
    var loaded := Window(mirror, env.today);
    var s0 := State(mirror, remote, ToDictionary(loaded).value, [], []);
    FirstPhaseKeys(src, s0, env, release);
    var s1 := ProcessAppointments(src, |src|, s0, env, release);
    OnlyVanished(src, s1, env, release, Leftovers(loaded, s1.lookup));
  }

  /** With keys released whatever the update did, only vanished events are deleted. */
  lemma DeletesOnlyVanished(mirror: seq<MirrorRecord>, remote: map<string, Event>, src: seq<Appointment>, env: Env)
    requires Sync(mirror, remote, src, env, Always).Success?
    ensures var s := Sync(mirror, remote, src, env, Always).value;
      GlobalIds(src) !! DeletedUids(s.report, |src|)
  {
    DeletesOnlyVanishedFor(mirror, remote, src, env, Always);
  }

  /**
   * A loaded row whose CalUid no appointment carries is still keyed after
   * the first loop, so the delete loop visits it.
   */
  lemma VanishedReachesDelete(mirror: seq<MirrorRecord>, remote: map<string, Event>, src: seq<Appointment>,
                              env: Env, release: KeyRelease, r: MirrorRecord)
    requires Sync(mirror, remote, src, env, release).Success?
    requires r in Window(mirror, env.today) && r.calUid !in GlobalIds(src)
    ensures var loaded := Window(mirror, env.today);
      var s1 := ProcessAppointments(src, |src|, State(mirror, remote, ToDictionary(loaded).value, [], []), env, release);
      r in Leftovers(loaded, s1.lookup)
  {
    SyncUnfold(mirror, remote, src, env, release);
    var loaded := Window(mirror, env.today);
    assert r.calUid in ToDictionary(loaded).value;
    assert r.calUid !in Seen(src, |src|);
  }

  /** A delete loop with no failing save has none among fewer rows either. */
  lemma {:induction false} NoStoreFaultDown(env: Env, n: nat, m: nat)
    requires m <= n && NoStoreFault(env, n)
    ensures NoStoreFault(env, m)
  {
    if m < n {
      var p: nat := n - 1;
      NoStoreFaultDown(env, p, m);
    }
  }

  /** A leftover row is deleted, and its event gets a Delete call, when no delete save fails. */
  lemma LeftoverDeleted(rest: seq<MirrorRecord>, s1: State, env: Env, r: MirrorRecord)
    requires r in rest && NoStoreFault(env, |rest|)
    ensures var s := DeleteEvents(rest, |rest|, s1, env);
      r !in s.mirror && Delete(r.googleEventId) in s.calls
  {
    DeleteLoopRemovesEach(rest, |rest|, s1, env);
    var k :| 0 <= k < |rest| && rest[k] == r;
    assert rest[..|rest|] == rest;
    assert r.id in Ids(rest);
    var s := DeleteEvents(rest, |rest|, s1, env);
    assert s.calls[|s1.calls| + k] == Delete(r.googleEventId);
  }

  /**
   * When no delete save fails, a loaded row whose CalUid no appointment
   * carries is gone from the table after the pass, and its Google event got
   * a Delete call.
   */
  lemma VanishedRowsDeleted(mirror: seq<MirrorRecord>, remote: map<string, Event>, src: seq<Appointment>,
                            env: Env, release: KeyRelease, r: MirrorRecord)
    requires Sync(mirror, remote, src, env, release).Success?
    requires NoStoreFault(env, |mirror|)
    requires r in Window(mirror, env.today) && r.calUid !in GlobalIds(src)
    ensures var s := Sync(mirror, remote, src, env, release).value;
      r !in s.mirror && Delete(r.googleEventId) in s.calls
  {
    SyncUnfold(mirror, remote, src, env, release);
    VanishedReachesDelete(mirror, remote, src, env, release, r);
    var loaded := Window(mirror, env.today);
    var s1 := ProcessAppointments(src, |src|, State(mirror, remote, ToDictionary(loaded).value, [], []), env, release);
    var rest := Leftovers(loaded, s1.lookup);
    NoStoreFaultDown(env, |mirror|, |rest|);
    LeftoverDeleted(rest, s1, env, r);
  }

  /** A row neither keyed in the lookup nor loaded survives both loops. */
  lemma SurvivesPass(src: seq<Appointment>, s0: State, env: Env, release: KeyRelease,
                     loaded: seq<MirrorRecord>, r: MirrorRecord)
    requires r in s0.mirror && r.id !in LookupIds(s0.lookup) && r.id !in Ids(loaded)
    ensures var s1 := ProcessAppointments(src, |src|, s0, env, release);
      var rest := Leftovers(loaded, s1.lookup);
      r in DeleteEvents(rest, |rest|, s1, env).mirror
  {
    var s1 := ProcessAppointments(src, |src|, s0, env, release);
    var rest := Leftovers(loaded, s1.lookup);
    assert rest[..|rest|] == rest;
    forall p | p in rest ensures p.id != r.id {
      assert p in loaded;
    }
  }

  /**
   * Rows outside the window (not recurring and starting before today) are
   * never loaded, so a pass neither updates nor deletes them.
   */
  lemma OutsideWindowUntouched(mirror: seq<MirrorRecord>, remote: map<string, Event>, src: seq<Appointment>,
                               env: Env, release: KeyRelease)
    requires DistinctIds(mirror)
    requires Sync(mirror, remote, src, env, release).Success?
    ensures forall r :: r in mirror && !InWindow(r, env.today) ==> r in Sync(mirror, remote, src, env, release).value.mirror
  {
    SyncUnfold(mirror, remote, src, env, release);
    var loaded := Window(mirror, env.today);
    var s0 := State(mirror, remote, ToDictionary(loaded).value, [], []);
    LoadedLookup(loaded);
    forall r | r in mirror && !InWindow(r, env.today)
      ensures r in Sync(mirror, remote, src, env, release).value.mirror
    {
      forall p | p in loaded ensures p.id != r.id {
        IdsDiffer(mirror, p, r);
      }
      SurvivesPass(src, s0, env, release, loaded, r);
    }
  }

  /** The delete loop keeps what the first loop created, when it only deletes rows with ids in `taken`. */
  lemma CreatedSurvive(src: seq<Appointment>, s1: State, env: Env, rest: seq<MirrorRecord>, taken: set<RecordId>)
    requires |s1.report| == |src| && CreatedKept(src, |src|, 0, s1, env, taken)
    requires forall p :: p in rest ==> p.id in taken
    ensures CreatedKept(src, |src|, 0, DeleteEvents(rest, |rest|, s1, env), env, taken)
  {
    var s := DeleteEvents(rest, |rest|, s1, env);
    assert rest[..|rest|] == rest;
    forall k | 0 <= k < |src| && s.report[k].Created?
      ensures s.report[k] == Created(src[k].globalId, env.insertedId(k))
      ensures NewRecord(env.newRecordId(k), src[k], env.insertedId(k)) in s.mirror
    {
      assert s.report[k] == s.report[..|s1.report|][k];
    }
  }

  /**
   * Every appointment the pass reports as created is reported with the id
   * Google returned, and its row, under a Guid no loaded row had, is in the
   * table at the end of the pass.
   */
  lemma CreatedIsCommitted(mirror: seq<MirrorRecord>, remote: map<string, Event>, src: seq<Appointment>,
                           env: Env, release: KeyRelease)
    requires Sync(mirror, remote, src, env, release).Success?
    ensures CreatedKept(src, |src|, 0, Sync(mirror, remote, src, env, release).value, env, Ids(Window(mirror, env.today)))
  {
    SyncUnfold(mirror, remote, src, env, release);
    var loaded := Window(mirror, env.today);
    var s0 := State(mirror, remote, ToDictionary(loaded).value, [], []);
    LoadedLookup(loaded);
    forall x | x in Ids(loaded) ensures x in Ids(mirror) {
      var p :| p in loaded && p.id == x;
    }
    CreatedRowsPersist(src, |src|, s0, env, release);
    var s1 := ProcessAppointments(src, |src|, s0, env, release);
    var rest := Leftovers(loaded, s1.lookup);
    forall p | p in rest ensures p.id in Ids(loaded) {
      assert p in loaded;
    }
    CreatedSurvive(src, s1, env, rest, Ids(loaded));
  }

  /** A one-row table, loaded on day 0: the row is in the window and keyed under its CalUid. */
  lemma OneRowLoaded(row: MirrorRecord)
    requires row == MirrorRecord(1, "A", "g", "old", 10, 20, "", false)
    ensures Window([row], 0) == [row] && DistinctUids([row])
    ensures ToDictionary([row]).value == map["A" := row]
  {
    assert Uids([row]) == {"A"};
  }

  /** The failing update of the counterexample below: the call is issued, nothing else changes. */
  lemma FailedUpdate(s0: State, a: Appointment, row: MirrorRecord, env: Env, release: KeyRelease)
    requires s0.lookup == map["A" := row] && s0.report == [] && row.summary == "old"
    requires a.globalId == "A" && a.subject == "new" && env.upsertFault(0) == RemoteFault
    ensures var s1 := ProcessAppointments([a], 1, s0, env, release);
      && s1.report == [Failed("A", RemoteFault)] && s1.mirror == s0.mirror
      && s1.lookup == (if release == OnSuccess then s0.lookup else map[])
  {
    FirstLoopUnfold([a], 0, s0, env, release);
  }

  /**
   * The source as written deletes an appointment whose update failed: the
   * key stays in the lookup, so the delete loop removes the row and the
   * Google event in the same pass although the appointment is still in
   * Outlook.
   */
  lemma FailedUpdateIsDeleted(remote: map<string, Event>, a: Appointment, env: Env)
    requires a.globalId == "A" && a.subject == "new"
    requires env.today == 0 && env.upsertFault(0) == RemoteFault && env.deleteFault(0) == NoFault
    ensures var row := MirrorRecord(1, "A", "g", "old", 10, 20, "", false);
      && Sync([row], remote, [a], env, OnSuccess).Success?
      && Sync([row], remote, [a], env, OnSuccess).value.report == [Failed("A", RemoteFault), Deleted("A", "g")]
      && Sync([row], remote, [a], env, OnSuccess).value.mirror == []
  {
    var row := MirrorRecord(1, "A", "g", "old", 10, 20, "", false);
    OneRowLoaded(row);
    var s0 := State([row], remote, map["A" := row], [], []);
    FailedUpdate(s0, a, row, env, OnSuccess);
    var s1 := ProcessAppointments([a], 1, s0, env, OnSuccess);
    assert Leftovers([row], s1.lookup) == [row];
    DeleteOnly(s1, row, env);
    SyncUnfold([row], remote, [a], env, OnSuccess);
    assert Sync([row], remote, [a], env, OnSuccess) == Success(DeleteEvents([row], 1, s1, env));
  }

  /** The delete loop over the counterexample's one leftover row. */
  lemma DeleteOnly(s1: State, row: MirrorRecord, env: Env)
    requires s1.mirror == [row] && s1.report == [Failed("A", RemoteFault)] && env.deleteFault(0) == NoFault
    ensures var s := DeleteEvents([row], 1, s1, env);
      s.report == [Failed("A", RemoteFault), Deleted(row.calUid, row.googleEventId)] && s.mirror == []
  {
    DeleteLoopUnfold([row], 0, s1, env);
    assert RemoveRow([row], row.id) == [];
    assert [Failed("A", RemoteFault)] + [Deleted(row.calUid, row.googleEventId)]
        == [Failed("A", RemoteFault), Deleted(row.calUid, row.googleEventId)];
  }

  /** With the key released whatever the update did, the same pass keeps the row for the next pass to retry. */
  lemma FailedUpdateIsKept(remote: map<string, Event>, a: Appointment, env: Env)
    requires a.globalId == "A" && a.subject == "new"
    requires env.today == 0 && env.upsertFault(0) == RemoteFault && env.deleteFault(0) == NoFault
    ensures var row := MirrorRecord(1, "A", "g", "old", 10, 20, "", false);
      && Sync([row], remote, [a], env, Always).Success?
      && Sync([row], remote, [a], env, Always).value.report == [Failed("A", RemoteFault)]
      && Sync([row], remote, [a], env, Always).value.mirror == [row]
  {
    var row := MirrorRecord(1, "A", "g", "old", 10, 20, "", false);
    OneRowLoaded(row);
    var s0 := State([row], remote, map["A" := row], [], []);
    FailedUpdate(s0, a, row, env, Always);
    var s1 := ProcessAppointments([a], 1, s0, env, Always);
    assert Leftovers([row], s1.lookup) == [];
    SyncUnfold([row], remote, [a], env, Always);
    assert Sync([row], remote, [a], env, Always) == Success(DeleteEvents([], 0, s1, env));
  }
}
