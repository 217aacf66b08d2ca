/**
 * The two keyed-store updates beside the ledger: the attendance upsert of
 * `POST /api/attendance`, keyed by (student, date), and the COALESCE-style
 * partial update of `PUT /api/announcements/:id`.
 */
module Keyed {
  import opened Common
  import opened Ledger

  // ---------------------------------------------------------------------------
  // Attendance (index.js:792-837)

  /** One entry of an attendance batch as sent; the handler does not validate it. */
  datatype AttendanceEntry = AttendanceEntry(
    studentId: string, klass: Option<string>, date: Option<Date>,
    status: Option<string>, remarks: Option<string>)

  /** A row of `attendance`, unique on (student_id, attendance_date). */
  datatype AttendanceRecord = AttendanceRecord(
    studentId: string, klass: Option<string>, date: Date,
    status: Option<string>, remarks: Option<string>, markedBy: string)

  type AttendanceKey = (string, Date)

  /** The conflict key of an entry; a missing date means today. */
  function EntryKey(e: AttendanceEntry, today: Date): AttendanceKey {
    (e.studentId, e.date.GetOr(today))
  }

  /** Every row is stored under its own (student, date). */
  predicate KeyedByStudentDate(t: map<AttendanceKey, AttendanceRecord>) {
    forall k :: k in t ==> t[k].studentId == k.0 && t[k].date == k.1
  }

  /**
   * `INSERT … ON CONFLICT (student_id, attendance_date) DO UPDATE SET status,
   * remarks, marked_by`: a new key gets the whole entry; an existing one keeps
   * its class and takes the entry's status and remarks and the marker.
   */
  function Upsert(t: map<AttendanceKey, AttendanceRecord>, e: AttendanceEntry, today: Date, actor: string)
    : (t': map<AttendanceKey, AttendanceRecord>)
    ensures t'.Keys == t.Keys + {EntryKey(e, today)}
    ensures forall k :: k in t && k != EntryKey(e, today) ==> t'[k] == t[k]
    ensures var k := EntryKey(e, today);
            && t'[k].status == e.status && t'[k].remarks == e.remarks && t'[k].markedBy == actor
            && t'[k].klass == (if k in t then t[k].klass else e.klass)
    ensures KeyedByStudentDate(t) ==> KeyedByStudentDate(t')
  {
    var k := EntryKey(e, today);
    if k in t then t[k := t[k].(status := e.status, remarks := e.remarks, markedBy := actor)]
    else t[k := AttendanceRecord(e.studentId, e.klass, k.1, e.status, e.remarks, actor)]
  }

  /** The batch applied entry by entry, in order. */
  function UpsertAll(t: map<AttendanceKey, AttendanceRecord>, es: seq<AttendanceEntry>, today: Date, actor: string)
    : map<AttendanceKey, AttendanceRecord>
    decreases |es|
  {
    if es == [] then t
    else Upsert(UpsertAll(t, es[..|es| - 1], today, actor), es[|es| - 1], today, actor)
  }

  /** The keys a batch touches. */
  function BatchKeys(es: seq<AttendanceEntry>, today: Date): set<AttendanceKey> {
    set i | 0 <= i < |es| :: EntryKey(es[i], today)
  }

  /** After a batch there is exactly one row for every old key and every key of the batch. */
  lemma {:induction false} UpsertAllKeys(t: map<AttendanceKey, AttendanceRecord>, es: seq<AttendanceEntry>, today: Date, actor: string)
    ensures UpsertAll(t, es, today, actor).Keys == t.Keys + BatchKeys(es, today)
    ensures KeyedByStudentDate(t) ==> KeyedByStudentDate(UpsertAll(t, es, today, actor))
    decreases |es|
  {
    if es != [] {
      var init := es[..|es| - 1];
      UpsertAllKeys(t, init, today, actor);
      assert BatchKeys(es, today) == BatchKeys(init, today) + {EntryKey(es[|es| - 1], today)} by {
        forall k | k in BatchKeys(es, today) ensures k in BatchKeys(init, today) + {EntryKey(es[|es| - 1], today)} {
          var i :| 0 <= i < |es| && k == EntryKey(es[i], today);
          if i < |es| - 1 {
            assert init[i] == es[i];
          }
        }
        forall k | k in BatchKeys(init, today) ensures k in BatchKeys(es, today) {
          var i :| 0 <= i < |init| && k == EntryKey(init[i], today);
          assert es[i] == init[i];
        }
      }
    }
  }

  /** Rows whose key no entry of the batch names are left exactly as they were. */
  lemma {:induction false} UpsertAllUntouched(t: map<AttendanceKey, AttendanceRecord>, es: seq<AttendanceEntry>,
                                              today: Date, actor: string, k: AttendanceKey)
    requires k in t
    requires forall i :: 0 <= i < |es| ==> EntryKey(es[i], today) != k
    ensures k in UpsertAll(t, es, today, actor) && UpsertAll(t, es, today, actor)[k] == t[k]
    decreases |es|
  {
    if es != [] {
      var init := es[..|es| - 1];
      UpsertAllUntouched(t, init, today, actor, k);
    }
  }

  /**
   * The last entry for a key wins: the row holds that entry's status and
   * remarks, whatever earlier entries of the batch said.
   */
  lemma {:induction false} LastWriteWins(t: map<AttendanceKey, AttendanceRecord>, es: seq<AttendanceEntry>,
                                         today: Date, actor: string, j: int)
    requires 0 <= j < |es|
    requires forall m :: j < m < |es| ==> EntryKey(es[m], today) != EntryKey(es[j], today)
    ensures var t' := UpsertAll(t, es, today, actor);
            var k := EntryKey(es[j], today);
            k in t' && t'[k].status == es[j].status && t'[k].remarks == es[j].remarks && t'[k].markedBy == actor
    decreases |es|
  {
    var init := es[..|es| - 1];
    if j < |es| - 1 {
      LastWriteWins(t, init, today, actor, j);
    }
  }

  /** The row each entry of a batch leaves behind, in batch order. */
  function StepRows(t: map<AttendanceKey, AttendanceRecord>, es: seq<AttendanceEntry>, today: Date, actor: string)
    : (rs: seq<AttendanceRecord>)
    ensures |rs| == |es|
    decreases |es|
  {
    if es == [] then []
    else StepRows(t, es[..|es| - 1], today, actor) + [UpsertAll(t, es, today, actor)[EntryKey(es[|es| - 1], today)]]
  }

  /** Extending a prefix of the batch by one entry is one more upsert and one more row. */
  lemma UpsertAllSnoc(t: map<AttendanceKey, AttendanceRecord>, es: seq<AttendanceEntry>, today: Date, actor: string, n: int)
    requires 0 <= n < |es|
    ensures UpsertAll(t, es[..n + 1], today, actor) == Upsert(UpsertAll(t, es[..n], today, actor), es[n], today, actor)
    ensures StepRows(t, es[..n + 1], today, actor)
         == StepRows(t, es[..n], today, actor) + [UpsertAll(t, es[..n + 1], today, actor)[EntryKey(es[n], today)]]
  {
    assert es[..n + 1][..n] == es[..n];
  }

  /**
   * The row the i-th entry leaves behind sits under that entry's key and
   * carries its status and remarks and the marker.
   */
  lemma {:induction false} StepRowsAt(t: map<AttendanceKey, AttendanceRecord>, es: seq<AttendanceEntry>,
                                      today: Date, actor: string, i: int)
    requires KeyedByStudentDate(t) && 0 <= i < |es|
    ensures var row := StepRows(t, es, today, actor)[i];
            && (row.studentId, row.date) == EntryKey(es[i], today)
            && row.status == es[i].status && row.remarks == es[i].remarks && row.markedBy == actor
    decreases |es|
  {
    var init := es[..|es| - 1];
    if i < |es| - 1 {
      StepRowsAt(t, init, today, actor, i);
      assert init[i] == es[i];
    } else {
      UpsertAllKeys(t, init, today, actor);
    }
  }

  /** A row that existed before the batch keeps its class, however often it is overwritten. */
  lemma {:induction false} ClassKept(t: map<AttendanceKey, AttendanceRecord>, es: seq<AttendanceEntry>,
                                     today: Date, actor: string, k: AttendanceKey)
    requires k in t
    ensures var t' := UpsertAll(t, es, today, actor);
            k in t' && t'[k].klass == t[k].klass
    decreases |es|
  {
    if es != [] {
      ClassKept(t, es[..|es| - 1], today, actor, k);
    }
  }

  /** A key new to the table takes its class from the first entry of the batch that names it. */
  lemma {:induction false} ClassFromFirstEntry(t: map<AttendanceKey, AttendanceRecord>, es: seq<AttendanceEntry>,
                                               today: Date, actor: string, j: int)
    requires 0 <= j < |es| && EntryKey(es[j], today) !in t
    requires forall m :: 0 <= m < j ==> EntryKey(es[m], today) != EntryKey(es[j], today)
    ensures var t' := UpsertAll(t, es, today, actor);
            var k := EntryKey(es[j], today);
            k in t' && t'[k].klass == es[j].klass
    decreases |es|
  {
    var init := es[..|es| - 1];
    var k := EntryKey(es[j], today);
    if j < |es| - 1 {
      ClassFromFirstEntry(t, init, today, actor, j);
    } else {
      UpsertAllKeys(t, init, today, actor);
      forall i | 0 <= i < |init| ensures EntryKey(init[i], today) != k {
        assert init[i] == es[i];
      }
      assert k !in BatchKeys(init, today);
    }
  }

  // ---------------------------------------------------------------------------
  // Announcements (index.js:929-959)

  /** A row of `announcements`. */
  datatype Announcement = Announcement(
    id: string, title: string, content: string, category: string,
    targetAudience: string, priority: string, startDate: Option<Date>,
    endDate: Option<Date>, isActive: bool, updatedAt: Date)

  /** The body of an update; a missing or null field is `None`. It is not validated. */
  datatype AnnouncementPatch = AnnouncementPatch(
    title: Option<string>, content: Option<string>, category: Option<string>,
    targetAudience: Option<string>, priority: Option<string>,
    startDate: Option<Date>, endDate: Option<Date>, isActive: Option<bool>)

  /**
   * `SET title = COALESCE($1, title), …, end_date = $7, …`: every field but
   * `end_date` keeps its old value when the patch leaves it null; `end_date`
   * always takes the patch's value, so an omitted one clears it.
   */
  function ApplyPatch(a: Announcement, p: AnnouncementPatch, now: Date): (a': Announcement)
    ensures a'.id == a.id && a'.updatedAt == now
    ensures a'.endDate == p.endDate
    ensures p.title.None? ==> a'.title == a.title
    ensures p.title.Some? ==> a'.title == p.title.value
    ensures p.content.None? ==> a'.content == a.content
    ensures p.content.Some? ==> a'.content == p.content.value
    ensures p.category.None? ==> a'.category == a.category
    ensures p.category.Some? ==> a'.category == p.category.value
    ensures p.targetAudience.None? ==> a'.targetAudience == a.targetAudience
    ensures p.targetAudience.Some? ==> a'.targetAudience == p.targetAudience.value
    ensures p.priority.None? ==> a'.priority == a.priority
    ensures p.priority.Some? ==> a'.priority == p.priority.value
    ensures p.startDate.None? ==> a'.startDate == a.startDate
    ensures p.startDate.Some? ==> a'.startDate == p.startDate
    ensures p.isActive.None? ==> a'.isActive == a.isActive
    ensures p.isActive.Some? ==> a'.isActive == p.isActive.value
  {
    Announcement(a.id, p.title.GetOr(a.title), p.content.GetOr(a.content),
                 p.category.GetOr(a.category), p.targetAudience.GetOr(a.targetAudience),
                 p.priority.GetOr(a.priority), if p.startDate.Some? then p.startDate else a.startDate,
                 p.endDate, p.isActive.GetOr(a.isActive), now)
  }

  /** The patch that names no field. */
  const EmptyPatch := AnnouncementPatch(None, None, None, None, None, None, None, None)

  /** An update naming no field changes nothing but clearing `end_date` (and the timestamp). */
  lemma EmptyPatchClearsEndDate(a: Announcement, now: Date)
    ensures ApplyPatch(a, EmptyPatch, now) == a.(endDate := None, updatedAt := now)
  {
  }

  /** Sending the same update twice leaves the row as sending it once. */
  lemma PatchIdempotent(a: Announcement, p: AnnouncementPatch, now: Date)
    ensures ApplyPatch(ApplyPatch(a, p, now), p, now) == ApplyPatch(a, p, now)
  {
  }

  /** Two updates in a row act as one whose fields are the later non-null ones (and the later end date). */
  function Then(p: AnnouncementPatch, q: AnnouncementPatch): AnnouncementPatch {
    AnnouncementPatch(
      if q.title.Some? then q.title else p.title,
      if q.content.Some? then q.content else p.content,
      if q.category.Some? then q.category else p.category,
      if q.targetAudience.Some? then q.targetAudience else p.targetAudience,
      if q.priority.Some? then q.priority else p.priority,
      if q.startDate.Some? then q.startDate else p.startDate,
      q.endDate,
      if q.isActive.Some? then q.isActive else p.isActive)
  }

  lemma PatchesCompose(a: Announcement, p: AnnouncementPatch, q: AnnouncementPatch, t1: Date, t2: Date)
    ensures ApplyPatch(ApplyPatch(a, p, t1), q, t2) == ApplyPatch(a, Then(p, q), t2)
  {
  }
}
