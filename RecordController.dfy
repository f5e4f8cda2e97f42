/** The record endpoints (backend/controllers/recordController.js): batch
    ingestion, the filtered and paged list, the critical records of the last 24
    hours, the per-test-type statistics of a patient, and the soft delete. */
module RecordController {
  import opened Js
  import opened Dates
  import opened Sorting
  import opened ListOps
  import opened PatientModel
  import opened PatientRecordModel

  const NOT_FOUND: int := 404

  datatype Failure = HttpError(status: int) | SchemaError(paths: seq<RecordPath>)

  // ---------------------------------------------------------------------------
  // Ingestion

  datatype Reading = Reading(testType: string, value: string)

  /** The validated request body of POST /records. */
  datatype RecordBatch = RecordBatch(
    patientId: nat,
    readings: seq<Reading>,
    symptoms: Option<seq<string>>,
    treatmentNotes: Option<string>,
    isCritical: Option<bool>)

  /** One document of the batch, as the casting insertMany stores it: the
      reading's test type and trimmed value, the body's symptoms (or []),
      trimmed notes (or ''), and flag (`isCritical || false`), the date default
      and `isActive: true`. */
  function BuildRecord(body: RecordBatch, reading: Reading, recordedBy: Option<nat>, now: int, id: nat): Record
  {
    Record(id, body.patientId, reading.testType, Trim(reading.value),
           if body.symptoms.Some? then body.symptoms.value else [],
           Some(Trim(if body.treatmentNotes.Some? then body.treatmentNotes.value else "")),
           body.isCritical == Some(true), now, recordedBy, true)
  }

  /** `readings.map(...)`: one record per reading and in order. The k-th record
      carries the k-th reading and the next free id; all share the patient, the
      author, the date and the body's flag, and all are active. */
  function BuildRecords(body: RecordBatch, recordedBy: Option<nat>, now: int, firstId: nat): (rs: seq<Record>)
    ensures |rs| == |body.readings|
    ensures forall k | 0 <= k < |rs| ::
      rs[k].id == firstId + k && rs[k].patientId == body.patientId
      && rs[k].testType == body.readings[k].testType && rs[k].value == Trim(body.readings[k].value)
      && rs[k].recordedBy == recordedBy && rs[k].date == now && rs[k].isActive
      && rs[k].isCritical == (body.isCritical == Some(true))
  {
    seq(|body.readings|, k requires 0 <= k < |body.readings| =>
      BuildRecord(body, body.readings[k], recordedBy, now, firstId + k))
  }

  /** Ingestion stores the flag of the body and never the classifier's: a heart
      rate of 120 or more sent without a flag is stored as not critical, although
      the pre-save classifier would flag it. */
  lemma IngestionIgnoresClassifier(patientId: nat, n: nat, recordedBy: Option<nat>, now: int, firstId: nat)
    requires n >= 120
    ensures var body := RecordBatch(patientId, [Reading(HEART_RATE, NatToString(n))], None, None, None);
      var rs := BuildRecords(body, recordedBy, now, firstId);
      |rs| == 1 && !rs[0].isCritical && Classify(rs[0])
  {
    var v := NatToString(n);
    NumeralHasNoWhiteSpace(n);
    assert IntToString(n) == v;
    TrimNoWhiteSpace(v);
    ThresholdsOnNumerals(n, 0, 0);
    var body := RecordBatch(patientId, [Reading(HEART_RATE, v)], None, None, None);
    var rs := BuildRecords(body, recordedBy, now, firstId);
    assert rs[0].value == v && rs[0].testType == HEART_RATE;
    assert ReadingCritical(HEART_RATE, v);
  }

  /** The schema errors of the first document that fails validation, if any. */
  function FirstErrors(rs: seq<Record>): (errs: seq<RecordPath>)
    ensures errs == [] <==> forall k | 0 <= k < |rs| :: RecordErrors(rs[k]) == []
  {
    if rs == [] then []
    else if RecordErrors(rs[0]) != [] then RecordErrors(rs[0])
    else FirstErrors(rs[1..])
  }

  /** POST /records. The patient lookup is by id only, so a soft-deleted patient
      still passes; insertMany validates every document first and stores either
      all or none, and runs neither save hook, so no patient flag changes. */
  method CreatePatientRecord(db: Db, body: RecordBatch, userId: Option<nat>, now: int)
    returns (result: Result<seq<Record>, Failure>)
    requires db.Valid()
    modifies db
    ensures db.Valid()
    ensures db.patients == old(db.patients)
    ensures body.patientId >= |old(db.patients)| ==>
      result == Err(HttpError(NOT_FOUND)) && db.records == old(db.records)
    ensures body.patientId < |old(db.patients)| ==>
      var built := BuildRecords(body, userId, now, |old(db.records)|);
      if FirstErrors(built) != [] then
        result == Err(SchemaError(FirstErrors(built))) && db.records == old(db.records)
      else
        result == Ok(built) && db.records == old(db.records) + built
  {
    if body.patientId >= |db.patients| {
      return Err(HttpError(NOT_FOUND));
    }
    var records := BuildRecords(body, userId, now, |db.records|);
    var errs := FirstErrors(records);
    if errs != [] {
      return Err(SchemaError(errs));
    }
    db.records := db.records + records;
    result := Ok(records);
  }

  /** The response count is the number of readings. */
  lemma CreatedCount(body: RecordBatch, userId: Option<nat>, now: int, firstId: nat)
    ensures |BuildRecords(body, userId, now, firstId)| == |body.readings|
  {
  }

  // ---------------------------------------------------------------------------
  // The filtered list

  /** The filters of GET /records after validation; `new Date(startDate)` and
      `new Date(endDate)` are given as instants. */
  datatype RecordCriteria = RecordCriteria(
    patientId: Option<nat>,
    testType: Option<string>,
    isCritical: Option<string>,
    startDate: Option<int>,
    endDate: Option<int>)

  /** The query string of GET /records: page and limit are numbers. */
  datatype RecordListQuery = RecordListQuery(page: int, limit: int, criteria: RecordCriteria)

  /** The Mongo query object the handler builds; `isActive: true` is always present. */
  datatype RecordFilter = RecordFilter(
    patientId: Option<nat>,
    testType: Option<string>,
    isCritical: Option<bool>,
    dateFrom: Option<int>,
    dateTo: Option<int>)

  predicate FilterMatches(r: Record, f: RecordFilter) {
    r.isActive
    && (f.patientId.Some? ==> r.patientId == f.patientId.value)
    && (f.testType.Some? ==> r.testType == f.testType.value)
    && (f.isCritical.Some? ==> r.isCritical == f.isCritical.value)
    && (f.dateFrom.Some? ==> r.date >= f.dateFrom.value)
    && (f.dateTo.Some? ==> r.date <= f.dateTo.value)
  }

  /** What the list promises: active records only; equality on the patient and
      on a non-empty test type when given; the critical flag equal to
      (param === 'true') when the parameter is present; an inclusive date range. */
  predicate ListedRecord(r: Record, c: RecordCriteria) {
    r.isActive
    && (c.patientId.None? || r.patientId == c.patientId.value)
    && (c.testType.None? || c.testType.value == [] || r.testType == c.testType.value)
    && (c.isCritical.None? || (r.isCritical <==> c.isCritical.value == "true"))
    && (c.startDate.None? || c.startDate.value <= r.date)
    && (c.endDate.None? || r.date <= c.endDate.value)
  }

  /** The query object, built field by field as the handler does. */
  method BuildRecordFilter(c: RecordCriteria) returns (f: RecordFilter)
    ensures forall r :: FilterMatches(r, f) <==> ListedRecord(r, c)
  {
    f := RecordFilter(None, None, None, None, None);
    if c.patientId.Some? {
      f := f.(patientId := c.patientId);
    }
    if c.testType.Some? && c.testType.value != [] {
      f := f.(testType := c.testType);
    }
    if c.isCritical.Some? {
      f := f.(isCritical := Some(c.isCritical.value == "true"));
    }
    if c.startDate.Some? || c.endDate.Some? {
      if c.startDate.Some? {
        f := f.(dateFrom := c.startDate);
      }
      if c.endDate.Some? {
        f := f.(dateTo := c.endDate);
      }
    }
  }

  function DateOf(r: Record): int { r.date }

  /** `countDocuments(query)`: the matching records in storage order. */
  function Matching(records: seq<Record>, c: RecordCriteria): (rs: seq<Record>)
    ensures forall r :: r in rs <==> r in records && ListedRecord(r, c)
  {
    WhereMembers(records, r => ListedRecord(r, c));
    Where(records, r => ListedRecord(r, c))
  }

  /** `find(query).sort({ date: -1 })`: the matching records, newest first. */
  function ListedRecords(records: seq<Record>, c: RecordCriteria): (rs: seq<Record>)
    ensures multiset(rs) == multiset(Matching(records, c))
    ensures SortedDesc(rs, DateOf)
    ensures forall r :: r in rs <==> r in records && ListedRecord(r, c)
  {
    var m := Matching(records, c);
    SortDescCorrect(m, DateOf);
    var rs := SortDesc(m, DateOf);
    assert forall r :: r in rs <==> r in multiset(m);
    rs
  }

  datatype RecordPage = RecordPage(records: seq<Record>, currentPage: int, totalPages: nat,
                                   totalRecords: nat, limit: int)

  /** GET /records: the sorted matches, `.skip((page - 1) * limit).limit(limit)`,
      with the total count and `Math.ceil(total / limit)` pages. Page and limit
      are positive once validated. */
  function GetPatientRecords(records: seq<Record>, q: RecordListQuery): (p: RecordPage)
    requires q.page >= 1 && q.limit >= 1
    ensures p.records == PageOf(ListedRecords(records, q.criteria), q.page, q.limit)
    ensures |p.records| <= q.limit
    ensures forall k | 0 <= k < |p.records| :: p.records[k] in records && ListedRecord(p.records[k], q.criteria)
    ensures forall i, j | 0 <= i < j < |p.records| :: p.records[i].date >= p.records[j].date
    ensures p.totalRecords == |Matching(records, q.criteria)|
    ensures p.totalPages == TotalPages(p.totalRecords, q.limit)
  {
    var all := ListedRecords(records, q.criteria);
    var pg := PageOf(all, q.page, q.limit);
    PageSorted(all, q.page, q.limit);
    PageMembers(all, q.page, q.limit);
    var total := |Matching(records, q.criteria)|;
    SameCount(all, Matching(records, q.criteria));
    RecordPage(pg, q.page, TotalPages(total, q.limit), total, q.limit)
  }

  lemma SameCount(a: seq<Record>, b: seq<Record>)
    requires multiset(a) == multiset(b)
    ensures |a| == |b|
  {
    assert |multiset(a)| == |multiset(b)|;
  }

  lemma PageMembers(s: seq<Record>, page: int, limit: int)
    requires page >= 1 && limit >= 1
    ensures forall k | 0 <= k < |PageOf(s, page, limit)| :: PageOf(s, page, limit)[k] in s
  {
  }

  lemma PageSorted(s: seq<Record>, page: int, limit: int)
    requires page >= 1 && limit >= 1 && SortedDesc(s, DateOf)
    ensures var pg := PageOf(s, page, limit);
      forall i, j | 0 <= i < j < |pg| :: pg[i].date >= pg[j].date
  {
    var pg := PageOf(s, page, limit);
    forall i, j | 0 <= i < j < |pg| ensures pg[i].date >= pg[j].date {
      assert DateOf(s[Skip(page, limit) + i]) >= DateOf(s[Skip(page, limit) + j]);
    }
  }

  // ---------------------------------------------------------------------------
  // Critical records

  predicate CriticalInLastDay(r: Record, now: int) {
    r.isCritical && r.isActive && r.date >= now - DAY_MS
  }

  /** GET /records/critical: critical, active and dated at or after now - 24h,
      newest first. */
  function GetCriticalRecords(records: seq<Record>, now: int): (rs: seq<Record>)
    ensures forall r :: r in rs <==> r in records && CriticalInLastDay(r, now)
    ensures forall i, j | 0 <= i < j < |rs| :: rs[i].date >= rs[j].date
    ensures multiset(rs) == multiset(Where(records, r => CriticalInLastDay(r, now)))
  {
    var matching := Where(records, r => CriticalInLastDay(r, now));
    WhereMembers(records, r => CriticalInLastDay(r, now));
    SortDescCorrect(matching, DateOf);
    var rs := SortDesc(matching, DateOf);
    assert forall r :: r in rs <==> r in multiset(matching);
    rs
  }

  /** A soft-deleted record is never listed as critical, although it still
      counts for the patient flag. */
  lemma DeletedRecordOnlyCountsForFlag(r: Record, now: int)
    requires r.isCritical && !r.isActive && r.date >= now - DAY_MS
    ensures GetCriticalRecords([r], now) == []
    ensures PatientFlag([r], r.patientId, now)
  {
    WindowBoundary(r.(isActive := true), now);
    assert r.(isActive := true).(isActive := false) == r;
    assert !CriticalInLastDay(r, now);
    assert Where([r], r => CriticalInLastDay(r, now)) == [];
  }

  // ---------------------------------------------------------------------------
  // Statistics

  datatype TypeStats = TypeStats(count: nat, latestDate: int, criticalCount: nat)

  predicate InPatientGroup(r: Record, patientId: nat, testType: string) {
    r.isActive && r.patientId == patientId && r.testType == testType
  }

  function MaxDate(rs: seq<Record>): (m: int)
    requires rs != []
    ensures forall k | 0 <= k < |rs| :: rs[k].date <= m
    ensures exists k | 0 <= k < |rs| :: rs[k].date == m
  {
    if |rs| == 1 then rs[0].date
    else
      var m := MaxDate(rs[1..]);
      assert forall k | 1 <= k < |rs| :: rs[k] == rs[1..][k - 1];
      if rs[0].date >= m then rs[0].date else m
  }

  function IsCritical(r: Record): bool { r.isCritical }

  function Group(records: seq<Record>, patientId: nat, testType: string): seq<Record>
  {
    Where(records, r => InPatientGroup(r, patientId, testType))
  }

  /** GET /records/statistics/:patientId: `$match` active records of the patient,
      `$group` by test type with the count, the latest date and the critical count. */
  function GetRecordStatistics(records: seq<Record>, patientId: nat): (stats: map<string, TypeStats>)
    ensures forall t :: t in stats <==> exists k | 0 <= k < |records| :: InPatientGroup(records[k], patientId, t)
  {
    var types := set k | 0 <= k < |records| && records[k].isActive && records[k].patientId == patientId
                       :: records[k].testType;
    TypesAreGroups(records, patientId);
    map t | t in types ::
      TypeStats(|Group(records, patientId, t)|, MaxDate(Group(records, patientId, t)),
                |Where(Group(records, patientId, t), IsCritical)|)
  }

  lemma TypesAreGroups(records: seq<Record>, patientId: nat)
    ensures forall t | t in (set k | 0 <= k < |records| && records[k].isActive && records[k].patientId == patientId
                                :: records[k].testType) :: Group(records, patientId, t) != []
  {
    forall t | t in (set k | 0 <= k < |records| && records[k].isActive && records[k].patientId == patientId
                       :: records[k].testType)
      ensures Group(records, patientId, t) != []
    {
      var k :| 0 <= k < |records| && records[k].isActive && records[k].patientId == patientId
               && records[k].testType == t;
      WhereMembers(records, r => InPatientGroup(r, patientId, t));
      assert records[k] in Group(records, patientId, t);
    }
  }

  /** Each group counts its records, never more critical ones than records, and
      its latest date is the largest date in the group. */
  lemma StatisticsBounds(records: seq<Record>, patientId: nat, t: string)
    requires t in GetRecordStatistics(records, patientId)
    ensures var s := GetRecordStatistics(records, patientId)[t];
      s.count >= 1 && s.criticalCount <= s.count
      && (forall k | 0 <= k < |records| && InPatientGroup(records[k], patientId, t) :: records[k].date <= s.latestDate)
      && (exists k | 0 <= k < |records| && InPatientGroup(records[k], patientId, t) :: records[k].date == s.latestDate)
  {
    var g := Group(records, patientId, t);
    WhereMembers(records, r => InPatientGroup(r, patientId, t));
    var s := GetRecordStatistics(records, patientId)[t];
    forall k | 0 <= k < |records| && InPatientGroup(records[k], patientId, t)
      ensures records[k].date <= s.latestDate
    {
      assert records[k] in g;
      var j :| 0 <= j < |g| && g[j] == records[k];
    }
    var j :| 0 <= j < |g| && g[j].date == s.latestDate;
    assert g[j] in records;
    var k :| 0 <= k < |records| && records[k] == g[j];
  }

  // ---------------------------------------------------------------------------
  // Soft delete

  /** DELETE /records/:id: `findByIdAndUpdate(id, { isActive: false })`. Only the
      flag changes; a query update runs no save hook, so the patient flag is left
      as it was. */
  method DeletePatientRecord(db: Db, id: nat) returns (result: Result<(), Failure>)
    requires db.Valid()
    modifies db
    ensures db.Valid()
    ensures db.patients == old(db.patients)
    ensures id >= |old(db.records)| ==> result == Err(HttpError(NOT_FOUND)) && db.records == old(db.records)
    ensures id < |old(db.records)| ==>
      result == Ok(()) && db.records == old(db.records)[id := old(db.records)[id].(isActive := false)]
  {
    if id >= |db.records| {
      return Err(HttpError(NOT_FOUND));
    }
    db.records := db.records[id := db.records[id].(isActive := false)];
    result := Ok(());
  }
}
