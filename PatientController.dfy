/** The patient endpoints (backend/controllers/patientController.js): the
    monitor list with its filters, sort and paging, the critical patients, the
    dashboard statistics, the update and the soft delete. */
module PatientController {
  import opened Js
  import opened Dates
  import opened Sorting
  import opened ListOps
  import opened PatientModel
  import opened PatientRecordModel

  const NOT_FOUND: int := 404

  datatype Failure = HttpError(status: int) | SchemaError(paths: seq<PatientPath>)

  // ---------------------------------------------------------------------------
  // The monitor list

  /** The query string of GET /patients; a parameter that is absent is None and
      takes the destructuring default (page 1, limit 10, sortBy 'createdAt',
      sortOrder 'desc'). */
  datatype PatientListQuery = PatientListQuery(
    page: Option<int>,
    limit: Option<int>,
    sortBy: Option<string>,
    sortOrder: Option<string>,
    search: Option<string>,
    isCritical: Option<string>)

  /** The Mongo query object; `isActive: true` is always present. */
  datatype PatientFilter = PatientFilter(namePattern: Option<string>, isCritical: Option<bool>)

  /** `nameMatches(pattern, name)` stands for the case-insensitive regular
      expression test `{ $regex: search, $options: 'i' }`. */
  predicate FilterMatches(p: Patient, f: PatientFilter, nameMatches: (string, string) -> bool) {
    p.isActive
    && (f.namePattern.Some? ==> nameMatches(f.namePattern.value, p.name))
    && (f.isCritical.Some? ==> p.isCritical == f.isCritical.value)
  }

  /** What the list promises: active patients only; a non-empty search is
      matched against the name; the critical flag equals (param === 'true') when
      the parameter is present. */
  predicate ListedPatient(p: Patient, q: PatientListQuery, nameMatches: (string, string) -> bool) {
    p.isActive
    && (q.search.None? || q.search.value == [] || nameMatches(q.search.value, p.name))
    && (q.isCritical.None? || (p.isCritical <==> q.isCritical.value == "true"))
  }

  /** The query object, built field by field as the handler does. */
  method BuildPatientFilter(q: PatientListQuery, nameMatches: (string, string) -> bool) returns (f: PatientFilter)
    ensures forall p :: FilterMatches(p, f, nameMatches) <==> ListedPatient(p, q, nameMatches)
  {
    f := PatientFilter(None, None);
    if q.search.Some? && q.search.value != [] {
      f := f.(namePattern := q.search);
    }
    if q.isCritical.Some? {
      f := f.(isCritical := Some(q.isCritical.value == "true"));
    }
  }

  /** `sortOrder === 'asc' ? 1 : -1`, with 'desc' as the default. */
  function SortDirection(sortOrder: Option<string>): (d: int)
    ensures d == 1 || d == -1
    ensures d == 1 <==> sortOrder == Some("asc")
  {
    if OrDefault(sortOrder, "desc") == "asc" then 1 else -1
  }

  /** The numeric sort field named by `sortBy` (default 'createdAt'). Only the
      two timestamps are modelled; any other name sorts on a constant, which
      keeps the storage order. */
  function SortKey(sortBy: Option<string>): (key: Patient -> int)
    ensures sortBy.None? || sortBy == Some("createdAt") ==> forall p :: key(p) == p.createdAt
    ensures sortBy == Some("updatedAt") ==> forall p :: key(p) == p.updatedAt
  {
    var field := OrDefault(sortBy, "createdAt");
    if field == "createdAt" then (p: Patient) => p.createdAt
    else if field == "updatedAt" then (p: Patient) => p.updatedAt
    else (p: Patient) => 0
  }

  datatype PatientPage = PatientPage(patients: seq<Patient>, currentPage: int, totalPages: nat,
                                     totalPatients: nat, limit: int)

  function Matching(patients: seq<Patient>, q: PatientListQuery, nameMatches: (string, string) -> bool): (ps: seq<Patient>)
    ensures forall p :: p in ps <==> p in patients && ListedPatient(p, q, nameMatches)
  {
    WhereMembers(patients, p => ListedPatient(p, q, nameMatches));
    Where(patients, p => ListedPatient(p, q, nameMatches))
  }

  /** `find(query).sort({ [sortBy]: direction })`: the matches in the requested
      order, ascending iff sortOrder is 'asc'. */
  function Ordered(patients: seq<Patient>, q: PatientListQuery, nameMatches: (string, string) -> bool): (ps: seq<Patient>)
    ensures multiset(ps) == multiset(Matching(patients, q, nameMatches))
    ensures forall p :: p in ps <==> p in patients && ListedPatient(p, q, nameMatches)
    ensures q.sortOrder == Some("asc") ==>
      forall i, j | 0 <= i < j < |ps| :: SortKey(q.sortBy)(ps[i]) <= SortKey(q.sortBy)(ps[j])
    ensures q.sortOrder != Some("asc") ==>
      forall i, j | 0 <= i < j < |ps| :: SortKey(q.sortBy)(ps[i]) >= SortKey(q.sortBy)(ps[j])
  {
    var m := Matching(patients, q, nameMatches);
    var ps := SortBy(m, SortKey(q.sortBy), SortDirection(q.sortOrder));
    SortByCorrect(m, SortKey(q.sortBy), SortDirection(q.sortOrder));
    assert forall p :: p in ps <==> p in multiset(m);
    ps
  }

  /** GET /patients: the ordered matches, `.skip((page - 1) * limit).limit(limit)`,
      with the total count and `Math.ceil(total / limit)` pages. Query validation
      makes page and limit positive integers. */
  function GetPatients(patients: seq<Patient>, q: PatientListQuery, nameMatches: (string, string) -> bool): (r: PatientPage)
    requires OrDefault(q.page, 1) >= 1 && OrDefault(q.limit, 10) >= 1
    ensures r.currentPage == OrDefault(q.page, 1) && r.limit == OrDefault(q.limit, 10)
    ensures r.patients == PageOf(Ordered(patients, q, nameMatches), r.currentPage, r.limit)
    ensures |r.patients| <= r.limit
    ensures forall k | 0 <= k < |r.patients| ::
      r.patients[k] in patients && ListedPatient(r.patients[k], q, nameMatches)
    ensures r.totalPatients == |Matching(patients, q, nameMatches)|
    ensures r.totalPages == TotalPages(r.totalPatients, r.limit)
  {
    var page := OrDefault(q.page, 1);
    var limit := OrDefault(q.limit, 10);
    var all := Ordered(patients, q, nameMatches);
    var pg := PageOf(all, page, limit);
    PageMembers(all, page, limit);
    var total := |Matching(patients, q, nameMatches)|;
    SameCount(all, Matching(patients, q, nameMatches));
    PatientPage(pg, page, TotalPages(total, limit), total, limit)
  }

  lemma PageMembers(s: seq<Patient>, page: int, limit: int)
    requires page >= 1 && limit >= 1
    ensures forall k | 0 <= k < |PageOf(s, page, limit)| :: PageOf(s, page, limit)[k] in s
  {
  }

  lemma SameCount(a: seq<Patient>, b: seq<Patient>)
    requires multiset(a) == multiset(b)
    ensures |a| == |b|
  {
    assert |multiset(a)| == |multiset(b)|;
  }

  // ---------------------------------------------------------------------------
  // Critical patients and statistics

  predicate CriticalAndActive(p: Patient) { p.isCritical && p.isActive }

  function UpdatedAt(p: Patient): int { p.updatedAt }

  /** GET /patients/critical: critical and active, most recently updated first. */
  function GetCriticalPatients(patients: seq<Patient>): (ps: seq<Patient>)
    ensures forall p :: p in ps <==> p in patients && CriticalAndActive(p)
    ensures forall i, j | 0 <= i < j < |ps| :: ps[i].updatedAt >= ps[j].updatedAt
    ensures multiset(ps) == multiset(Where(patients, CriticalAndActive))
  {
    var m := Where(patients, CriticalAndActive);
    WhereMembers(patients, CriticalAndActive);
    SortDescCorrect(m, UpdatedAt);
    var ps := SortDesc(m, UpdatedAt);
    assert forall p :: p in ps <==> p in multiset(m);
    ps
  }

  datatype Statistics = Statistics(totalPatients: nat, criticalPatients: nat, activePatients: nat, stablePatients: int)

  /** `countDocuments` over the stored patients. */
  function Count(patients: seq<Patient>, p: Patient -> bool): (n: nat)
    ensures n <= |patients|
  {
    if patients == [] then 0
    else (if p(patients[0]) then 1 else 0) + Count(patients[1..], p)
  }

  predicate Active(p: Patient) { p.isActive }

  /** Anything counted under a stronger filter is counted under the weaker one. */
  lemma {:induction false} CountMonotone(patients: seq<Patient>, p: Patient -> bool, q: Patient -> bool)
    requires forall x :: p(x) ==> q(x)
    ensures Count(patients, p) <= Count(patients, q)
  {
    if patients != [] {
      CountMonotone(patients[1..], p, q);
    }
  }

  /** GET /patients/statistics: the first and third counts use the same filter,
      so the total is the active count; the stable count is active minus critical
      and is never negative. */
  function GetStatistics(patients: seq<Patient>): (s: Statistics)
    ensures s.totalPatients == s.activePatients
    ensures s.criticalPatients <= s.activePatients <= |patients|
    ensures s.stablePatients == s.activePatients - s.criticalPatients >= 0
  {
    var total := Count(patients, Active);
    var critical := Count(patients, CriticalAndActive);
    var active := Count(patients, Active);
    CountMonotone(patients, CriticalAndActive, Active);
    Statistics(total, critical, active, active - critical)
  }

  /** Three active patients of whom two are critical give (3, 2, 1). */
  lemma StatisticsExample(patients: seq<Patient>)
    requires |patients| == 3 && forall k | 0 <= k < 3 :: patients[k].isActive
    requires patients[0].isCritical && patients[1].isCritical && !patients[2].isCritical
    ensures GetStatistics(patients) == Statistics(3, 2, 3, 1)
  {
    var t1 := patients[1..];
    var t2 := t1[1..];
    var t3 := t2[1..];
    assert t3 == [];
    assert Count(t2, Active) == 1 && Count(t2, CriticalAndActive) == 0;
    assert Count(t1, Active) == 2 && Count(t1, CriticalAndActive) == 1;
    assert Count(patients, Active) == 3 && Count(patients, CriticalAndActive) == 2;
  }

  // ---------------------------------------------------------------------------
  // Update

  /** The validated body of PUT /patients/:id: every key is optional, and
      `isActive`, not in the request schema, never reaches the handler. */
  datatype PatientUpdate = PatientUpdate(
    name: Option<string>,
    dob: Option<Date>,
    contact: Option<string>,
    email: Option<string>,
    medicalHistory: Option<string>,
    bloodPressure: Option<string>,
    heartRate: Option<string>,
    respiratoryRate: Option<string>,
    oxygenLevel: Option<string>,
    isCritical: Option<bool>)

  /** `runValidators: true`: the validators of the paths present in the update,
      on the cast values, in schema order. */
  function UpdateErrors(u: PatientUpdate, today: Date): (errs: seq<PatientPath>)
    ensures NamePath in errs <==> u.name.Some? && !NameValid(CastName(u.name.value))
    ensures DobPath in errs <==> u.dob.Some? && !DobValid(u.dob.value, today)
    ensures ContactPath in errs <==> u.contact.Some? && !ContactValid(u.contact.value)
    ensures EmailPath in errs <==> u.email.Some? && !EmailValid(CastEmail(u.email.value))
    ensures MedicalHistoryPath in errs <==> u.medicalHistory.Some? && !MedicalHistoryValid(u.medicalHistory.value)
  {
    FailedPaths(u.name.None? || NameValid(CastName(u.name.value)),
                u.dob.None? || DobValid(u.dob.value, today),
                u.contact.None? || ContactValid(u.contact.value),
                u.email.None? || EmailValid(CastEmail(u.email.value)),
                u.medicalHistory.None? || MedicalHistoryValid(u.medicalHistory.value))
  }

  /** `{ ...req.body, updatedBy: req.userId }` merged into the stored patient with
      the setters applied and `updatedAt` bumped by the timestamps option. */
  function ApplyUpdate(p: Patient, u: PatientUpdate, userId: Option<nat>, now: int): (r: Patient)
    ensures r.id == p.id && r.isActive == p.isActive && r.createdBy == p.createdBy && r.createdAt == p.createdAt
    ensures r.updatedBy == userId && r.updatedAt == now
    ensures r.isCritical == OrDefault(u.isCritical, p.isCritical)
    ensures r.name == (if u.name.Some? then CastName(u.name.value) else p.name)
    ensures r.email == (if u.email.Some? then CastEmail(u.email.value) else p.email)
    ensures r.dob == OrDefault(u.dob, p.dob) && r.contact == OrDefault(u.contact, p.contact)
    ensures r.medicalHistory == OrDefault(u.medicalHistory, p.medicalHistory)
    ensures r.bloodPressure == OrDefault(u.bloodPressure, p.bloodPressure)
    ensures r.heartRate == OrDefault(u.heartRate, p.heartRate)
    ensures r.respiratoryRate == OrDefault(u.respiratoryRate, p.respiratoryRate)
    ensures r.oxygenLevel == OrDefault(u.oxygenLevel, p.oxygenLevel)
  {
    p.(name := if u.name.Some? then CastName(u.name.value) else p.name,
       dob := OrDefault(u.dob, p.dob),
       contact := OrDefault(u.contact, p.contact),
       email := if u.email.Some? then CastEmail(u.email.value) else p.email,
       medicalHistory := OrDefault(u.medicalHistory, p.medicalHistory),
       bloodPressure := OrDefault(u.bloodPressure, p.bloodPressure),
       heartRate := OrDefault(u.heartRate, p.heartRate),
       respiratoryRate := OrDefault(u.respiratoryRate, p.respiratoryRate),
       oxygenLevel := OrDefault(u.oxygenLevel, p.oxygenLevel),
       isCritical := OrDefault(u.isCritical, p.isCritical),
       updatedBy := userId,
       updatedAt := now)
  }

  /** Validating only the updated paths is enough: an update that passes its
      validators keeps a valid stored patient valid. */
  lemma UpdateKeepsPatientValid(p: Patient, u: PatientUpdate, userId: Option<nat>, now: int, today: Date)
    requires PatientSchemaValid(p, today) && UpdateErrors(u, today) == []
    ensures PatientSchemaValid(ApplyUpdate(p, u, userId, now), today)
  {
    var r := ApplyUpdate(p, u, userId, now);
    assert forall path :: PathValid(p, path, today);
    forall path ensures PathValid(r, path, today) {
      assert path !in UpdateErrors(u, today);
    }
  }

  /** The client decides the critical flag: whatever the records say, an update
      carrying isCritical stores exactly that value. */
  lemma ClientWritesCriticalFlag(p: Patient, u: PatientUpdate, userId: Option<nat>, now: int)
    requires u.isCritical.Some?
    ensures ApplyUpdate(p, u, userId, now).isCritical == u.isCritical.value
  {
  }

  /** PUT /patients/:id: `findByIdAndUpdate` with `runValidators: true`. The
      update is cast and validated before the lookup, so an invalid update fails
      even for a missing id; a missing id then gives 404. No save hook runs. A
      soft-deleted patient is found and updated like any other. */
  method UpdatePatient(db: Db, id: nat, u: PatientUpdate, userId: Option<nat>, now: int, today: Date)
    returns (result: Result<Patient, Failure>)
    requires db.Valid()
    modifies db
    ensures db.Valid()
    ensures db.records == old(db.records)
    ensures UpdateErrors(u, today) != [] ==>
      result == Err(SchemaError(UpdateErrors(u, today))) && db.patients == old(db.patients)
    ensures UpdateErrors(u, today) == [] && id >= |old(db.patients)| ==>
      result == Err(HttpError(NOT_FOUND)) && db.patients == old(db.patients)
    ensures UpdateErrors(u, today) == [] && id < |old(db.patients)| ==>
      var updated := ApplyUpdate(old(db.patients)[id], u, userId, now);
      result == Ok(updated) && db.patients == old(db.patients)[id := updated]
  {
    var errs := UpdateErrors(u, today);
    if errs != [] {
      return Err(SchemaError(errs));
    }
    if id >= |db.patients| {
      return Err(HttpError(NOT_FOUND));
    }
    var updated := ApplyUpdate(db.patients[id], u, userId, now);
    db.patients := db.patients[id := updated];
    result := Ok(updated);
  }

  // ---------------------------------------------------------------------------
  // Soft delete

  /** DELETE /patients/:id: `findByIdAndUpdate(id, { isActive: false })`; only the
      flag and the `updatedAt` timestamp change, and a missing id gives 404. */
  method DeletePatient(db: Db, id: nat, now: int) returns (result: Result<(), Failure>)
    requires db.Valid()
    modifies db
    ensures db.Valid()
    ensures db.records == old(db.records)
    ensures id >= |old(db.patients)| ==> result == Err(HttpError(NOT_FOUND)) && db.patients == old(db.patients)
    ensures id < |old(db.patients)| ==>
      result == Ok(()) && db.patients == old(db.patients)[id := old(db.patients)[id].(isActive := false, updatedAt := now)]
  {
    if id >= |db.patients| {
      return Err(HttpError(NOT_FOUND));
    }
    db.patients := db.patients[id := db.patients[id].(isActive := false, updatedAt := now)];
    result := Ok(());
  }

  /** A deleted patient leaves the monitor list, the critical list and the counts. */
  lemma DeletedPatientIsHidden(p: Patient, now: int, q: PatientListQuery, nameMatches: (string, string) -> bool)
    ensures var d := p.(isActive := false, updatedAt := now);
      !ListedPatient(d, q, nameMatches) && !CriticalAndActive(d) && !Active(d)
  {
  }
}
