/**
 * Idempotence of the sync. When every Google call and every save of a pass
 * succeeds, the Outlook appointments have distinct GlobalAppointmentIDs and
 * lie in the window (the Outlook query only returns items starting today or
 * later), the pass leaves the mirror table in sync with Outlook; and a pass
 * over a table in sync with Outlook issues no call, changes no row and
 * reports every appointment as unchanged. So running the sync twice in a
 * row does nothing the second time.
 */
module Idempotence {
  import opened Wrappers
  import opened Conversion
  import opened Mirror
  import opened Reconciliation
  import opened PassProperties

  /** No two appointments share a GlobalAppointmentID. */
  predicate DistinctGlobalIds(src: seq<Appointment>) {
    forall i, j :: 0 <= i < j < |src| ==> src[i].globalId != src[j].globalId
  }

  lemma SeenStep(src: seq<Appointment>, k: nat)
    requires k < |src|
    ensures Seen(src, k + 1) == Seen(src, k) + {src[k].globalId}
  {
    assert src[k].globalId in Seen(src, k + 1);
  }

  lemma NotSeenYet(src: seq<Appointment>, k: nat)
    requires DistinctGlobalIds(src) && k < |src|
    ensures src[k].globalId !in Seen(src, k)
  {
  }

  lemma SeenAll(src: seq<Appointment>)
    ensures Seen(src, |src|) == GlobalIds(src)
  {
    forall u | u in GlobalIds(src) ensures u in Seen(src, |src|) {
      var a :| a in src && a.globalId == u;
      var j :| 0 <= j < |src| && src[j] == a;
    }
  }

  /** The row agrees, in the four compared fields, with every appointment carrying its CalUid. */
  ghost predicate Agrees(r: MirrorRecord, src: seq<Appointment>) {
    forall j :: 0 <= j < |src| && src[j].globalId == r.calUid ==> !Differs(r, src[j])
  }

  /** Some row of the window carries the appointment's id. */
  ghost predicate HasRow(rows: seq<MirrorRecord>, a: Appointment, today: int) {
    exists r :: r in rows && InWindow(r, today) && r.calUid == a.globalId
  }

  /** No two rows of the window share a CalUid. */
  ghost predicate WindowUnique(rows: seq<MirrorRecord>, today: int) {
    forall r1, r2 :: r1 in rows && r2 in rows && InWindow(r1, today) && InWindow(r2, today) && r1.calUid == r2.calUid ==> r1 == r2
  }

  /**
   * The table is in sync with Outlook: a primary key, every row of the
   * window mirrors an appointment and agrees with it, and every appointment
   * has exactly one row in the window.
   */
  ghost predicate InSync(rows: seq<MirrorRecord>, src: seq<Appointment>, today: int) {
    && DistinctIds(rows)
    && WindowUnique(rows, today)
    && (forall r :: r in rows && InWindow(r, today) ==> r.calUid in GlobalIds(src) && Agrees(r, src))
    && (forall j :: 0 <= j < |src| ==> HasRow(rows, src[j], today))
  }

  /** A window with a primary key and no CalUid twice loads without a duplicate key. */
  lemma UniqueWindowLoads(rows: seq<MirrorRecord>, today: int)
    requires DistinctIds(rows) && WindowUnique(rows, today)
    ensures DistinctUids(Window(rows, today))
  {
    var w := Window(rows, today);
    forall i, j | 0 <= i < j < |w| ensures w[i].calUid != w[j].calUid {
      assert w[i].id != w[j].id;
    }
  }

  /** An appointment whose row agrees with it is left alone, and its key leaves the lookup. */
  lemma UnchangedFacts(s: State, i: nat, a: Appointment, env: Env, release: KeyRelease)
    requires a.globalId in s.lookup && !Differs(s.lookup[a.globalId], a)
    ensures ProcessAppointment(s, i, a, env, release) ==
      s.(lookup := s.lookup - {a.globalId}, report := s.report + [Unchanged(a.globalId)])
  {
  }

  // ---------------------------------------------------------------------
  // A pass over a table in sync with Outlook is quiet.
  // ---------------------------------------------------------------------

  /** Every appointment's id is keyed in the lookup, under a row that agrees with it. */
  ghost predicate Ready(src: seq<Appointment>, lookup: map<string, MirrorRecord>) {
    forall k :: 0 <= k < |src| ==> src[k].globalId in lookup && !Differs(lookup[src[k].globalId], src[k])
  }

  /** After `n` quiet steps from `s0`: nothing changed but the lookup and the report. */
  ghost predicate QuietAt(src: seq<Appointment>, n: nat, s0: State, s: State) {
    && n <= |src|
    && s.mirror == s0.mirror && s.remote == s0.remote && s.calls == s0.calls
    && s.lookup == s0.lookup - Seen(src, n)
    && |s.report| == n
    && forall k :: 0 <= k < n ==> s.report[k] == Unchanged(src[k].globalId)
  }

  lemma QuietStep(src: seq<Appointment>, m: nat, s0: State, prev: State, env: Env, release: KeyRelease)
    requires DistinctGlobalIds(src) && Ready(src, s0.lookup) && m < |src|
    requires QuietAt(src, m, s0, prev)
    ensures QuietAt(src, m + 1, s0, ProcessAppointment(prev, m, src[m], env, release))
  {
    var uid := src[m].globalId;
    NotSeenYet(src, m);
    SeenStep(src, m);
    assert uid in prev.lookup && prev.lookup[uid] == s0.lookup[uid];
    UnchangedFacts(prev, m, src[m], env, release);
    var t := ProcessAppointment(prev, m, src[m], env, release);
    assert t.lookup == s0.lookup - Seen(src, m + 1);
    forall k | 0 <= k < m + 1 ensures t.report[k] == Unchanged(src[k].globalId) {
      assert t.report == prev.report + [Unchanged(uid)];
    }
  }

  lemma {:induction false} QuietPhase(src: seq<Appointment>, n: nat, s0: State, env: Env, release: KeyRelease)
    requires n <= |src| && s0.report == []
    requires DistinctGlobalIds(src) && Ready(src, s0.lookup)
    ensures QuietAt(src, n, s0, ProcessAppointments(src, n, s0, env, release))
  {
    if n == 0 {
      assert s0.lookup - Seen(src, 0) == s0.lookup;
    } else {
      var m: nat := n - 1;
      QuietPhase(src, m, s0, env, release);
      FirstLoopUnfold(src, m, s0, env, release);
      QuietStep(src, m, s0, ProcessAppointments(src, m, s0, env, release), env, release);
    }
  }

  /** Nothing left in the lookup leaves nothing to delete. */
  lemma {:induction false} LeftoversNone(loaded: seq<MirrorRecord>, lookup: map<string, MirrorRecord>)
    requires lookup == map[]
    ensures Leftovers(loaded, lookup) == []
  {
    if |loaded| > 0 {
      LeftoversNone(loaded[1..], lookup);
    }
  }

  /** The loaded lookup of a table in sync holds every appointment, under a row agreeing with it, and nothing else. */
  lemma InSyncLookup(rows: seq<MirrorRecord>, src: seq<Appointment>, today: int)
    requires InSync(rows, src, today)
    requires DistinctUids(Window(rows, today))
    ensures Ready(src, ToDictionary(Window(rows, today)).value)
    ensures ToDictionary(Window(rows, today)).value.Keys <= GlobalIds(src)
  {
    var loaded := Window(rows, today);
    var lookup := ToDictionary(loaded).value;
    LoadedLookup(loaded);
    forall k | 0 <= k < |src| ensures src[k].globalId in lookup && !Differs(lookup[src[k].globalId], src[k]) {
      var q :| q in rows && InWindow(q, today) && q.calUid == src[k].globalId;
      assert q in loaded;
    }
  }

  /** From a lookup holding exactly the appointments, each agreeing with its row, both loops do nothing. */
  lemma QuietRun(src: seq<Appointment>, s0: State, loaded: seq<MirrorRecord>, env: Env, release: KeyRelease)
    requires s0.report == [] && DistinctGlobalIds(src)
    requires Ready(src, s0.lookup) && s0.lookup.Keys <= GlobalIds(src)
    ensures var s1 := ProcessAppointments(src, |src|, s0, env, release);
      var rest := Leftovers(loaded, s1.lookup);
      DeleteEvents(rest, |rest|, s1, env) == s1 && QuietAt(src, |src|, s0, s1)
  {
    QuietPhase(src, |src|, s0, env, release);
    SeenAll(src);
    var s1 := ProcessAppointments(src, |src|, s0, env, release);
    assert s1.lookup == map[];
    LeftoversNone(loaded, s1.lookup);
  }

  /**
   * A pass over a table in sync with Outlook issues no Google call, leaves
   * the table and the calendar as they are, and reports every appointment,
   * in order, as unchanged, whatever the environment's faults.
   */
  lemma QuietOnInSync(rows: seq<MirrorRecord>, remote: map<string, Event>, src: seq<Appointment>,
                      env: Env, release: KeyRelease)
    requires DistinctGlobalIds(src) && InSync(rows, src, env.today)
    ensures Sync(rows, remote, src, env, release).Success?
    ensures var s := Sync(rows, remote, src, env, release).value;
      && s.calls == [] && s.mirror == rows && s.remote == remote
      && |s.report| == |src|
      && forall k :: 0 <= k < |src| ==> s.report[k] == Unchanged(src[k].globalId)
  {
    UniqueWindowLoads(rows, env.today);
    SyncUnfold(rows, remote, src, env, release);
    var loaded := Window(rows, env.today);
    InSyncLookup(rows, src, env.today);
    QuietRun(src, State(rows, remote, ToDictionary(loaded).value, [], []), loaded, env, release);
  }

  // ---------------------------------------------------------------------
  // A pass in which everything succeeds leaves the table in sync.
  // ---------------------------------------------------------------------

  /** No Google call or save of the first `n` appointments fails. */
  predicate UpsertsOk(env: Env, n: nat) {
    n == 0 || (env.upsertFault(n - 1) == NoFault && UpsertsOk(env, n - 1))
  }

  /** The Guids drawn for the first `n` appointments. */
  function NewIds(env: Env, n: nat): set<RecordId> {
    if n == 0 then {} else NewIds(env, n - 1) + {env.newRecordId(n - 1)}
  }

  /** Each of the first `n` Guids is new: not in `taken` and not drawn before. */
  predicate FreshIds(env: Env, n: nat, taken: set<RecordId>) {
    n == 0 || (FreshIds(env, n - 1, taken) && env.newRecordId(n - 1) !in taken + NewIds(env, n - 1))
  }

  lemma {:induction false} UpsertOkAt(env: Env, n: nat, k: nat)
    requires UpsertsOk(env, n) && k < n
    ensures env.upsertFault(k) == NoFault
  {
    var m: nat := n - 1;
    if k < m {
      UpsertOkAt(env, m, k);
    }
  }

  lemma {:induction false} FreshAt(env: Env, n: nat, taken: set<RecordId>, k: nat)
    requires FreshIds(env, n, taken) && k < n
    ensures env.newRecordId(k) !in taken + NewIds(env, k)
  {
    var m: nat := n - 1;
    if k < m {
      FreshAt(env, m, taken, k);
    }
  }

  /** What holds of the loaded lookup and the appointments throughout the first loop. */
  ghost predicate Setting(src: seq<Appointment>, lookup: map<string, MirrorRecord>, today: int) {
    && DistinctGlobalIds(src)
    && (forall j :: 0 <= j < |src| ==> src[j].start >= today)
    && (forall u :: u in lookup ==> lookup[u].calUid == u && InWindow(lookup[u], today))
  }

  /**
   * A row during the first loop: still keyed in the lookup, outside the
   * window, or carrying the id of an appointment already processed and
   * agreeing with it.
   */
  ghost predicate RowOk(r: MirrorRecord, src: seq<Appointment>, k: nat, today: int, lookup: map<string, MirrorRecord>) {
    || (r.calUid in lookup && lookup[r.calUid] == r)
    || !InWindow(r, today)
    || (r.calUid in Seen(src, k) && Agrees(r, src))
  }

  /** The invariant of the first loop after `k` successful steps from the loaded lookup `L`. */
  ghost predicate Phase1(src: seq<Appointment>, k: nat, L: map<string, MirrorRecord>, today: int,
                         s: State, base: set<RecordId>, env: Env) {
    && k <= |src|
    && DistinctIds(s.mirror)
    && s.lookup == L - Seen(src, k)
    && (forall u :: u in s.lookup ==> s.lookup[u] in s.mirror)
    && (forall r :: r in s.mirror ==> RowOk(r, src, k, today, s.lookup))
    && (forall j :: 0 <= j < k ==> HasRow(s.mirror, src[j], today))
    && WindowUnique(s.mirror, today)
    && Ids(s.mirror) <= base + NewIds(env, k)
  }

  lemma DistinctIdsAppend(rows: seq<MirrorRecord>, row: MirrorRecord)
    requires DistinctIds(rows) && row.id !in Ids(rows)
    ensures DistinctIds(rows + [row])
    ensures Ids(rows + [row]) == Ids(rows) + {row.id}
  {
    var out := rows + [row];
    forall i, j | 0 <= i < j < |out| ensures out[i].id != out[j].id {
      if j == |rows| {
        assert out[i] in rows;
      }
    }
    assert out[|rows|] == row;
    forall x | x in Ids(out) ensures x in Ids(rows) + {row.id} {
      var q :| q in out && q.id == x;
    }
  }

  lemma Phase1Start(src: seq<Appointment>, L: map<string, MirrorRecord>, today: int, s0: State, env: Env)
    requires Setting(src, L, today)
    requires DistinctIds(s0.mirror) && s0.lookup == L
    requires forall u :: u in L ==> L[u] in s0.mirror
    requires forall r :: r in s0.mirror && InWindow(r, today) ==> r.calUid in L && L[r.calUid] == r
    ensures Phase1(src, 0, L, today, s0, Ids(s0.mirror), env)
  {
    assert L - Seen(src, 0) == L;
  }

  /** Releasing the key of the `k`-th appointment keeps the lookup equal to the loaded one minus the ids seen. */
  lemma ReleaseStep(src: seq<Appointment>, k: nat, L: map<string, MirrorRecord>,
                    lookup: map<string, MirrorRecord>, lookup': map<string, MirrorRecord>)
    requires DistinctGlobalIds(src) && k < |src|
    requires lookup == L - Seen(src, k) && lookup' == lookup - {src[k].globalId}
    ensures lookup' == L - Seen(src, k + 1)
  {
    SeenStep(src, k);
  }

  /** An id that was not loaded leaves the lookup as it is. */
  lemma UnloadedStep(src: seq<Appointment>, k: nat, L: map<string, MirrorRecord>, lookup: map<string, MirrorRecord>)
    requires DistinctGlobalIds(src) && k < |src|
    requires lookup == L - Seen(src, k) && src[k].globalId !in lookup
    ensures src[k].globalId !in L && lookup == L - Seen(src, k + 1)
  {
    NotSeenYet(src, k);
    SeenStep(src, k);
  }

  /** The row an appointment is matched with is a loaded row of the table, in the window, under the appointment's id. */
  lemma PendingRow(src: seq<Appointment>, k: nat, L: map<string, MirrorRecord>, today: int,
                   prev: State, base: set<RecordId>, env: Env)
    requires Setting(src, L, today) && k < |src|
    requires Phase1(src, k, L, today, prev, base, env)
    requires src[k].globalId in prev.lookup
    ensures var r := prev.lookup[src[k].globalId];
      r in prev.mirror && r.calUid == src[k].globalId && InWindow(r, today)
  {
  }

  lemma UnchangedStep(src: seq<Appointment>, k: nat, L: map<string, MirrorRecord>, today: int,
                      prev: State, t: State, base: set<RecordId>, env: Env)
    requires Setting(src, L, today) && k < |src|
    requires Phase1(src, k, L, today, prev, base, env)
    requires src[k].globalId in prev.lookup && !Differs(prev.lookup[src[k].globalId], src[k])
    requires t.mirror == prev.mirror && t.lookup == prev.lookup - {src[k].globalId}
    ensures Phase1(src, k + 1, L, today, t, base, env)
  {
    var uid := src[k].globalId;
    var r := prev.lookup[uid];
    NotSeenYet(src, k);
    SeenStep(src, k);
    ReleaseStep(src, k, L, prev.lookup, t.lookup);
    PendingRow(src, k, L, today, prev, base, env);
    assert Agrees(r, src);
    NewIdsGrow(env, k);
    UnchangedRowsOk(src, k, today, prev, t, r);
  }

  lemma UnchangedRowsOk(src: seq<Appointment>, k: nat, today: int, prev: State, t: State, r: MirrorRecord)
    requires k < |src| && src[k].globalId in prev.lookup && prev.lookup[src[k].globalId] == r
    requires r.calUid == src[k].globalId && Agrees(r, src)
    requires Seen(src, k + 1) == Seen(src, k) + {src[k].globalId}
    requires forall q :: q in prev.mirror ==> RowOk(q, src, k, today, prev.lookup)
    requires t.mirror == prev.mirror && t.lookup == prev.lookup - {src[k].globalId}
    ensures forall q :: q in t.mirror ==> RowOk(q, src, k + 1, today, t.lookup)
  {
    forall q | q in t.mirror ensures RowOk(q, src, k + 1, today, t.lookup) {
      assert RowOk(q, src, k, today, prev.lookup);
    }
  }

  /** The table after overwriting row `r` with the appointment's fields: `r` replaced, every other row kept. */
  lemma OverwriteShape(rows: seq<MirrorRecord>, r: MirrorRecord, a: Appointment)
    requires DistinctIds(rows) && r in rows
    ensures var out := Overwrite(rows, r.id, a);
      && WithFields(r, a) in out
      && (forall q :: q in out ==> q == WithFields(r, a) || (q in rows && q.id != r.id))
      && (forall q :: q in rows && q.id != r.id ==> q in out)
      && DistinctIds(out) && Ids(out) == Ids(rows)
  {
    var out := Overwrite(rows, r.id, a);
    OverwriteMembers(rows, r.id, a);
    OverwriteKeepsIds(rows, r.id, a);
    forall q | q in out ensures q == WithFields(r, a) || (q in rows && q.id != r.id) {
      if !(q in rows && q.id != r.id) {
        var q' :| q' in rows && q'.id == r.id && q == WithFields(q', a);
        SameIdSameRow(rows, q', r);
      }
    }
  }

  /** The shape of the table after an update of the row `r` into `w`, as the update step needs it. */
  ghost predicate Replaced(prev: State, t: State, r: MirrorRecord, w: MirrorRecord) {
    && w in t.mirror
    && (forall q :: q in t.mirror ==> q == w || (q in prev.mirror && q.id != r.id))
    && (forall q :: q in prev.mirror && q.id != r.id ==> q in t.mirror)
  }

  lemma UpdatedLookup(prev: State, t: State, r: MirrorRecord, w: MirrorRecord, uid: string)
    requires DistinctIds(prev.mirror) && r in prev.mirror && r.calUid == uid
    requires forall u :: u in prev.lookup ==> prev.lookup[u] in prev.mirror && prev.lookup[u].calUid == u
    requires Replaced(prev, t, r, w)
    requires t.lookup == prev.lookup - {uid}
    ensures forall u :: u in t.lookup ==> t.lookup[u] in t.mirror
  {
    forall u | u in t.lookup ensures t.lookup[u] in t.mirror {
      var v := prev.lookup[u];
      IdsDiffer(prev.mirror, v, r);
    }
  }

  lemma UpdatedRowsOk(src: seq<Appointment>, k: nat, today: int, prev: State, t: State, r: MirrorRecord, w: MirrorRecord)
    requires k < |src| && r in prev.mirror && r.calUid == src[k].globalId
    requires src[k].globalId in prev.lookup && prev.lookup[src[k].globalId] == r
    requires forall q :: q in prev.mirror ==> RowOk(q, src, k, today, prev.lookup)
    requires Replaced(prev, t, r, w)
    requires w.calUid == src[k].globalId && src[k].globalId in Seen(src, k + 1) && Agrees(w, src)
    requires Seen(src, k) <= Seen(src, k + 1)
    requires t.lookup == prev.lookup - {src[k].globalId}
    ensures forall q :: q in t.mirror ==> RowOk(q, src, k + 1, today, t.lookup)
  {
    forall q | q in t.mirror ensures RowOk(q, src, k + 1, today, t.lookup) {
      if q != w {
        assert RowOk(q, src, k, today, prev.lookup);
      }
    }
  }

  lemma UpdatedHasRows(src: seq<Appointment>, k: nat, today: int, prev: State, t: State, r: MirrorRecord, w: MirrorRecord)
    requires k < |src| && DistinctGlobalIds(src)
    requires DistinctIds(prev.mirror) && r in prev.mirror && r.calUid == src[k].globalId
    requires forall j :: 0 <= j < k ==> HasRow(prev.mirror, src[j], today)
    requires Replaced(prev, t, r, w) && InWindow(w, today) && w.calUid == src[k].globalId
    ensures forall j :: 0 <= j < k + 1 ==> HasRow(t.mirror, src[j], today)
  {
    forall j | 0 <= j < k + 1 ensures HasRow(t.mirror, src[j], today) {
      if j < k {
        assert HasRow(prev.mirror, src[j], today);
        var q :| q in prev.mirror && InWindow(q, today) && q.calUid == src[j].globalId;
        IdsDiffer(prev.mirror, q, r);
        assert q in t.mirror;
      } else {
        assert w in t.mirror;
      }
    }
  }

  lemma UpdatedUnique(today: int, prev: State, t: State, r: MirrorRecord, w: MirrorRecord)
    requires WindowUnique(prev.mirror, today) && r in prev.mirror && InWindow(r, today)
    requires Replaced(prev, t, r, w) && w.calUid == r.calUid
    ensures WindowUnique(t.mirror, today)
  {
    forall q | q in t.mirror && InWindow(q, today) && q != w ensures q in prev.mirror && q.calUid != r.calUid {
      assert q in prev.mirror && q.id != r.id;
    }
  }

  lemma NewIdsGrow(env: Env, k: nat)
    ensures NewIds(env, k) <= NewIds(env, k + 1)
  {
  }

  lemma UpdatedStep(src: seq<Appointment>, k: nat, L: map<string, MirrorRecord>, today: int,
                    prev: State, t: State, base: set<RecordId>, env: Env, r: MirrorRecord)
    requires Setting(src, L, today) && k < |src|
    requires Phase1(src, k, L, today, prev, base, env)
    requires src[k].globalId in prev.lookup && r == prev.lookup[src[k].globalId]
    requires Replaced(prev, t, r, WithFields(r, src[k]))
    requires DistinctIds(t.mirror) && Ids(t.mirror) == Ids(prev.mirror)
    requires t.lookup == prev.lookup - {src[k].globalId}
    ensures Phase1(src, k + 1, L, today, t, base, env)
  {
    var a := src[k];
    var uid := a.globalId;
    var w := WithFields(r, a);
    NotSeenYet(src, k);
    SeenStep(src, k);
    NewIdsGrow(env, k);
    PendingRow(src, k, L, today, prev, base, env);
    assert w.calUid == uid && InWindow(w, today) && Agrees(w, src);
    ReleaseStep(src, k, L, prev.lookup, t.lookup);
    UpdatedLookup(prev, t, r, w, uid);
    UpdatedRowsOk(src, k, today, prev, t, r, w);
    UpdatedHasRows(src, k, today, prev, t, r, w);
    UpdatedUnique(today, prev, t, r, w);
  }

  lemma CreatedStep(src: seq<Appointment>, k: nat, L: map<string, MirrorRecord>, today: int,
                    prev: State, t: State, base: set<RecordId>, env: Env)
    requires Setting(src, L, today) && k < |src|
    requires Phase1(src, k, L, today, prev, base, env)
    requires src[k].globalId !in prev.lookup
    requires env.newRecordId(k) !in Ids(prev.mirror)
    requires t.mirror == prev.mirror + [NewRecord(env.newRecordId(k), src[k], env.insertedId(k))]
    requires t.lookup == prev.lookup
    ensures Phase1(src, k + 1, L, today, t, base, env)
  {
    var a := src[k];
    var uid := a.globalId;
    var row := NewRecord(env.newRecordId(k), a, env.insertedId(k));
    NotSeenYet(src, k);
    SeenStep(src, k);
    DistinctIdsAppend(prev.mirror, row);
    UnloadedStep(src, k, L, prev.lookup);
    NewIdsGrow(env, k);
    assert row in t.mirror && InWindow(row, today) && Agrees(row, src);
    forall q | q in t.mirror ensures RowOk(q, src, k + 1, today, t.lookup) {
      if q != row {
        assert RowOk(q, src, k, today, prev.lookup);
      }
    }
    forall q | q in prev.mirror && InWindow(q, today) ensures q.calUid != uid {
      assert RowOk(q, src, k, today, prev.lookup);
    }
    forall j | 0 <= j < k + 1 ensures HasRow(t.mirror, src[j], today) {
      if j < k {
        assert HasRow(prev.mirror, src[j], today);
        var q :| q in prev.mirror && InWindow(q, today) && q.calUid == src[j].globalId;
        assert q in t.mirror;
      }
    }
  }

  lemma UpdatedFacts(s: State, i: nat, a: Appointment, env: Env, release: KeyRelease)
    requires a.globalId in s.lookup && Differs(s.lookup[a.globalId], a) && env.upsertFault(i) == NoFault
    ensures var t := ProcessAppointment(s, i, a, env, release);
      t.mirror == Overwrite(s.mirror, s.lookup[a.globalId].id, a) && t.lookup == s.lookup - {a.globalId}
  {
  }

  lemma CreatedFacts(s: State, i: nat, a: Appointment, env: Env, release: KeyRelease)
    requires a.globalId !in s.lookup && env.upsertFault(i) == NoFault && env.newRecordId(i) !in Ids(s.mirror)
    ensures var t := ProcessAppointment(s, i, a, env, release);
      t.mirror == s.mirror + [NewRecord(env.newRecordId(i), a, env.insertedId(i))] && t.lookup == s.lookup
  {
  }

  lemma Phase1Step(src: seq<Appointment>, m: nat, L: map<string, MirrorRecord>, today: int,
                   prev: State, base: set<RecordId>, env: Env, release: KeyRelease)
    requires Setting(src, L, today) && m < |src|
    requires Phase1(src, m, L, today, prev, base, env)
    requires env.upsertFault(m) == NoFault && env.newRecordId(m) !in base + NewIds(env, m)
    ensures Phase1(src, m + 1, L, today, ProcessAppointment(prev, m, src[m], env, release), base, env)
  {
    var a := src[m];
    var t := ProcessAppointment(prev, m, a, env, release);
    if a.globalId in prev.lookup {
      if Differs(prev.lookup[a.globalId], a) {
        var r := prev.lookup[a.globalId];
        UpdatedFacts(prev, m, a, env, release);
        OverwriteShape(prev.mirror, r, a);
        UpdatedStep(src, m, L, today, prev, t, base, env, r);
      } else {
        UnchangedFacts(prev, m, a, env, release);
        UnchangedStep(src, m, L, today, prev, t, base, env);
      }
    } else {
      CreatedFacts(prev, m, a, env, release);
      CreatedStep(src, m, L, today, prev, t, base, env);
    }
  }

  lemma {:induction false} Phase1Holds(src: seq<Appointment>, n: nat, L: map<string, MirrorRecord>, today: int,
                                       s0: State, base: set<RecordId>, env: Env, release: KeyRelease)
    requires n <= |src| && Setting(src, L, today)
    requires Phase1(src, 0, L, today, s0, base, env)
    requires UpsertsOk(env, |src|) && FreshIds(env, |src|, base)
    ensures Phase1(src, n, L, today, ProcessAppointments(src, n, s0, env, release), base, env)
  {
    if n > 0 {
      var m: nat := n - 1;
      Phase1Holds(src, m, L, today, s0, base, env, release);
      FirstLoopUnfold(src, m, s0, env, release);
      UpsertOkAt(env, |src|, m);
      FreshAt(env, |src|, base, m);
      Phase1Step(src, m, L, today, ProcessAppointments(src, m, s0, env, release), base, env, release);
    }
  }

  /** A leftover row is not among the rows that are processed or outside the window, so those survive the delete loop. */
  lemma KeptRows(src: seq<Appointment>, L: map<string, MirrorRecord>, today: int, s1: State,
                 base: set<RecordId>, env: Env, rest: seq<MirrorRecord>, loaded: seq<MirrorRecord>)
    requires Setting(src, L, today)
    requires Phase1(src, |src|, L, today, s1, base, env)
    requires forall p :: p in rest <==> p in loaded && p.calUid in s1.lookup
    requires forall p :: p in loaded ==> p.calUid in L && L[p.calUid] == p
    ensures forall r :: r in s1.mirror && (r.calUid !in s1.lookup || !InWindow(r, today)) ==> r.id !in Ids(rest)
  {
    forall r, p | r in s1.mirror && (r.calUid !in s1.lookup || !InWindow(r, today)) && p in rest
      ensures r.id != p.id
    {
      assert s1.lookup[p.calUid] == p;
      IdsDiffer(s1.mirror, p, r);
    }
  }

  /** After the first loop, the delete loop removing exactly the leftover rows leaves the table in sync. */
  lemma Phase2InSync(src: seq<Appointment>, L: map<string, MirrorRecord>, today: int, s1: State,
                     base: set<RecordId>, env: Env, rest: seq<MirrorRecord>, loaded: seq<MirrorRecord>,
                     rows: seq<MirrorRecord>)
    requires Setting(src, L, today)
    requires Phase1(src, |src|, L, today, s1, base, env)
    requires forall p :: p in rest <==> p in loaded && p.calUid in s1.lookup
    requires forall p :: p in loaded ==> p.calUid in L && L[p.calUid] == p
    requires forall u :: u in L ==> L[u] in loaded
    requires forall r :: r in rows <==> r in s1.mirror && r.id !in Ids(rest)
    requires DistinctIds(rows)
    ensures InSync(rows, src, today)
  {
    KeptRows(src, L, today, s1, base, env, rest, loaded);
    SeenAll(src);
    forall r | r in rows && InWindow(r, today) ensures r.calUid in GlobalIds(src) && Agrees(r, src) {
      assert RowOk(r, src, |src|, today, s1.lookup);
    }
    forall j | 0 <= j < |src| ensures HasRow(rows, src[j], today) {
      assert HasRow(s1.mirror, src[j], today);
      var q :| q in s1.mirror && InWindow(q, today) && q.calUid == src[j].globalId;
      assert q.calUid in Seen(src, |src|);
      assert q in rows;
    }
  }

  /** Both loops of a pass in which everything succeeds, from the loaded lookup, end in sync. */
  lemma SyncedAfter(src: seq<Appointment>, s0: State, loaded: seq<MirrorRecord>, env: Env, release: KeyRelease)
    requires Setting(src, s0.lookup, env.today) && DistinctIds(s0.mirror)
    requires forall p :: p in loaded ==> p in s0.mirror && p.calUid in s0.lookup && s0.lookup[p.calUid] == p
    requires forall u :: u in s0.lookup ==> s0.lookup[u] in loaded
    requires forall r :: r in s0.mirror && InWindow(r, env.today) ==> r in loaded
    requires UpsertsOk(env, |src|) && FreshIds(env, |src|, Ids(s0.mirror)) && NoStoreFault(env, |loaded|)
    ensures var s1 := ProcessAppointments(src, |src|, s0, env, release);
      var rest := Leftovers(loaded, s1.lookup);
      InSync(DeleteEvents(rest, |rest|, s1, env).mirror, src, env.today)
  {
    var today := env.today;
    var L := s0.lookup;
    Phase1Start(src, L, today, s0, env);
    Phase1Holds(src, |src|, L, today, s0, Ids(s0.mirror), env, release);
    var s1 := ProcessAppointments(src, |src|, s0, env, release);
    var rest := Leftovers(loaded, s1.lookup);
    NoStoreFaultDown(env, |loaded|, |rest|);
    DeletePhaseInSync(src, L, today, s1, Ids(s0.mirror), env, loaded);
  }

  /** After the first loop, a delete loop whose saves all succeed leaves the table in sync. */
  lemma DeletePhaseInSync(src: seq<Appointment>, L: map<string, MirrorRecord>, today: int, s1: State,
                          base: set<RecordId>, env: Env, loaded: seq<MirrorRecord>)
    requires Setting(src, L, today)
    requires Phase1(src, |src|, L, today, s1, base, env)
    requires forall p :: p in loaded ==> p.calUid in L && L[p.calUid] == p
    requires forall u :: u in L ==> L[u] in loaded
    requires NoStoreFault(env, |Leftovers(loaded, s1.lookup)|)
    ensures var rest := Leftovers(loaded, s1.lookup);
      InSync(DeleteEvents(rest, |rest|, s1, env).mirror, src, today)
  {
    var rest := Leftovers(loaded, s1.lookup);
    DeleteLoopResult(rest, s1, env);
    Phase2InSync(src, L, today, s1, base, env, rest, loaded, DeleteEvents(rest, |rest|, s1, env).mirror);
  }

  /** A delete loop whose saves all succeed removes exactly the rows with the leftover ids and keeps the primary key. */
  lemma DeleteLoopResult(rest: seq<MirrorRecord>, s1: State, env: Env)
    requires NoStoreFault(env, |rest|) && DistinctIds(s1.mirror)
    ensures var rows := DeleteEvents(rest, |rest|, s1, env).mirror;
      && (forall r :: r in rows <==> r in s1.mirror && r.id !in Ids(rest))
      && DistinctIds(rows)
  {
    DeleteLoopRemovesEach(rest, |rest|, s1, env);
    DeleteLoopFaults(rest, |rest|, s1, env);
    assert rest[..|rest|] == rest;
  }

  /**
   * A pass in which every Google call and every save succeeds and every new
   * Guid is fresh leaves the table in sync with the appointments, when these
   * have distinct ids and start no earlier than today.
   */
  lemma FirstPassSyncs(mirror: seq<MirrorRecord>, remote: map<string, Event>, src: seq<Appointment>,
                       env: Env, release: KeyRelease)
    requires DistinctIds(mirror)
    requires Sync(mirror, remote, src, env, release).Success?
    requires DistinctGlobalIds(src) && forall j :: 0 <= j < |src| ==> src[j].start >= env.today
    requires UpsertsOk(env, |src|) && FreshIds(env, |src|, Ids(mirror)) && NoStoreFault(env, |mirror|)
    ensures InSync(Sync(mirror, remote, src, env, release).value.mirror, src, env.today)
  {
    SyncUnfold(mirror, remote, src, env, release);
    var loaded := Window(mirror, env.today);
    var L := ToDictionary(loaded).value;
    LoadedLookup(loaded);
    forall p | p in loaded ensures p.calUid in L {
      assert p.calUid in Uids(loaded);
    }
    NoStoreFaultDown(env, |mirror|, |loaded|);
    SyncedAfter(src, State(mirror, remote, L, [], []), loaded, env, release);
  }

  /**
   * Idempotence: after a pass in which everything succeeded, a second pass
   * on the same day over the same appointments issues no create, update or
   * delete, changes neither the table nor the calendar, and reports every
   * appointment as unchanged.
   */
  lemma SecondPassIsQuiet(mirror: seq<MirrorRecord>, remote: map<string, Event>, src: seq<Appointment>,
                          env: Env, env2: Env, release: KeyRelease)
    requires DistinctIds(mirror)
    requires Sync(mirror, remote, src, env, release).Success?
    requires DistinctGlobalIds(src) && forall j :: 0 <= j < |src| ==> src[j].start >= env.today
    requires UpsertsOk(env, |src|) && FreshIds(env, |src|, Ids(mirror)) && NoStoreFault(env, |mirror|)
    requires env2.today == env.today
    ensures var s := Sync(mirror, remote, src, env, release).value;
      && Sync(s.mirror, s.remote, src, env2, release).Success?
      && var s' := Sync(s.mirror, s.remote, src, env2, release).value;
      && s'.calls == [] && s'.mirror == s.mirror && s'.remote == s.remote
      && forall k :: 0 <= k < |src| ==> s'.report[k] == Unchanged(src[k].globalId)
  {
    var s := Sync(mirror, remote, src, env, release).value;
    FirstPassSyncs(mirror, remote, src, env, release);
    QuietOnInSync(s.mirror, s.remote, src, env2, release);
  }
}
