/** `AboutService`: the statistics shown on the about page and the updates
    of experience and reference entries. Today's date is a parameter; the
    two tables are sequences of rows with unique ids. */
module AboutService {
  import opened Wrappers
  import opened Text
  import opened ExceptionHandler

  type Id = nat

  /** A calendar date (`LocalDate`). */
  datatype Date = Date(year: int, month: int, day: int)

  predicate ValidDate(d: Date)
  {
    1 <= d.month <= 12 && 1 <= d.day <= 31
  }

  /** Chronological order of dates. */
  predicate DateBefore(a: Date, b: Date)
  {
    a.year < b.year || (a.year == b.year && (a.month < b.month || (a.month == b.month && a.day < b.day)))
  }

  predicate DateAtMost(a: Date, b: Date)
  {
    a == b || DateBefore(a, b)
  }

  /** Java's `int` division, which truncates toward zero. */
  function JavaDiv(a: int, b: int): (q: int)
    requires b > 0
    ensures a >= 0 ==> q == a / b
    ensures a < 0 ==> q == -((-a) / b)
  {
    if a >= 0 then a / b else -((-a) / b)
  }

  /** `Period.between(start, end).getYears()`: the difference in months,
      moved one month toward zero when the day of the month has not been
      reached, truncated to whole years. */
  function YearsBetween(start: Date, end: Date): int
  {
    var totalMonths := (end.year * 12 + end.month) - (start.year * 12 + start.month);
    var days := end.day - start.day;
    var months :=
      if totalMonths > 0 && days < 0 then totalMonths - 1
      else if totalMonths < 0 && days > 0 then totalMonths + 1
      else totalMonths;
    JavaDiv(months, 12)
  }

  /** The first day of the career the about page counts from. */
  const CAREER_START: Date := Date(2019, 11, 1)

  /** From the career start on, the year count is the number of anniversaries
      passed: the last anniversary is not after today and the next one is. */
  lemma YearsAreWholeYears(today: Date)
    requires ValidDate(today) && DateAtMost(CAREER_START, today)
    ensures YearsBetween(CAREER_START, today) >= 0
    ensures DateAtMost(Date(2019 + YearsBetween(CAREER_START, today), 11, 1), today)
    ensures DateBefore(today, Date(2020 + YearsBetween(CAREER_START, today), 11, 1))
  {
    var totalMonths := (today.year * 12 + today.month) - (2019 * 12 + 11);
    assert totalMonths >= 0;
    var y := totalMonths / 12;
    assert YearsBetween(CAREER_START, today) == y;
    assert y * 12 <= totalMonths < y * 12 + 12;
  }

  /** Before the career start the count is never positive. */
  lemma YearsBeforeStart(today: Date)
    requires ValidDate(today) && DateBefore(today, CAREER_START)
    ensures YearsBetween(CAREER_START, today) <= 0
  {
  }

  /** An `Experience` row. */
  datatype Experience = Experience(
    id: Id,
    company: string,
    title: string,
    period: string,
    isCurrent: Option<bool>,
    technologies: seq<string>,
    description: Option<string>,
    leaveReason: Option<string>,
    displayOrder: Option<int>)

  /** A `ReferenceJob` row. */
  datatype Reference = Reference(
    id: Id,
    name: string,
    currentCompany: Option<string>,
    currentTitle: Option<string>,
    workedTogether: Option<string>,
    roleWhenWorked: Option<string>)

  datatype ExperienceRequest = ExperienceRequest(
    company: string,
    title: string,
    period: string,
    isCurrent: Option<bool>,
    technologies: seq<string>,
    description: Option<string>,
    leaveReason: Option<string>,
    displayOrder: Option<int>)

  datatype ReferenceRequest = ReferenceRequest(
    name: string,
    currentCompany: Option<string>,
    currentTitle: Option<string>,
    workedTogether: Option<string>,
    roleWhenWorked: Option<string>)

  /** `StatsResponse`. */
  datatype Stats = Stats(yearsOfExperience: string, companyCount: nat, technologyCount: nat, referenceCount: nat)

  /** Every technology entry of every experience, in order (`flatMap`). */
  function AllTechnologies(experiences: seq<Experience>): (r: seq<string>)
    ensures forall t :: t in r <==> exists i :: 0 <= i < |experiences| && t in experiences[i].technologies
  {
    if experiences == [] then []
    else
      var rest := AllTechnologies(experiences[1..]);
      assert forall t :: (exists i :: 0 <= i < |experiences| && t in experiences[i].technologies) <==>
                         (t in experiences[0].technologies ||
                          exists i :: 0 <= i < |experiences[1..]| && t in experiences[1..][i].technologies) by {
        forall t ensures (exists i :: 0 <= i < |experiences| && t in experiences[i].technologies) ==>
                         (t in experiences[0].technologies ||
                          exists i :: 0 <= i < |experiences[1..]| && t in experiences[1..][i].technologies) {
          if exists i :: 0 <= i < |experiences| && t in experiences[i].technologies {
            var i :| 0 <= i < |experiences| && t in experiences[i].technologies;
            if i > 0 {
              assert t in experiences[1..][i - 1].technologies;
            }
          }
        }
      }
      experiences[0].technologies + rest
  }

  /** The key under which a technology is counted: trimmed, then lower-cased. */
  function TechKey(t: string): string
  {
    Lower(JavaTrim(t))
  }

  /** The key of every entry, in order. */
  function TechKeys(ts: seq<string>): (r: seq<string>)
    ensures |r| == |ts|
    ensures forall i :: 0 <= i < |ts| ==> r[i] == TechKey(ts[i])
  {
    seq(|ts|, i requires 0 <= i < |ts| => TechKey(ts[i]))
  }

  /** The non-empty strings among `keys`, as a set. */
  function NonEmptySet(keys: seq<string>): set<string>
  {
    set k | k in keys && k != []
  }

  lemma {:induction false} NonEmptySetBound(keys: seq<string>)
    ensures |NonEmptySet(keys)| <= |keys|
  {
    if keys != [] {
      var init := keys[..|keys| - 1];
      NonEmptySetBound(init);
      assert keys == init + [keys[|keys| - 1]];
      assert NonEmptySet(keys) <= NonEmptySet(init) + {keys[|keys| - 1]};
      SubsetCard(NonEmptySet(keys), NonEmptySet(init) + {keys[|keys| - 1]});
    }
  }

  lemma SubsetCard<T>(a: set<T>, b: set<T>)
    requires a <= b
    ensures |a| <= |b|
  {
    assert b == a + (b - a);
  }

  /** The set the stream collects: the distinct non-empty keys. */
  function TechSet(ts: seq<string>): set<string>
  {
    NonEmptySet(TechKeys(ts))
  }

  /** A string is counted exactly when it is non-empty and is the key of some
      entry. */
  lemma TechSetMembers(ts: seq<string>, s: string)
    ensures s in TechSet(ts) <==> s != [] && exists i :: 0 <= i < |ts| && TechKey(ts[i]) == s
  {
    var keys := TechKeys(ts);
    if s in keys {
      var i :| 0 <= i < |keys| && keys[i] == s;
      assert TechKey(ts[i]) == s;
    }
  }

  /** There are never more distinct technologies than entries. */
  lemma TechSetBound(ts: seq<string>)
    ensures |TechSet(ts)| <= |ts|
  {
    NonEmptySetBound(TechKeys(ts));
  }

  /** Case and surrounding blanks do not matter: an entry whose key is
      already present adds nothing. */
  lemma TechSetIgnoresVariants(ts: seq<string>, t: string)
    requires exists i :: 0 <= i < |ts| && TechKey(ts[i]) == TechKey(t)
    ensures TechSet(ts + [t]) == TechSet(ts)
  {
    var i :| 0 <= i < |ts| && TechKey(ts[i]) == TechKey(t);
    var keys := TechKeys(ts);
    TechKeysAppend(ts, t);
    assert keys[i] == TechKey(t);
    NonEmptySetPresent(keys, TechKey(t));
  }

  lemma TechKeysAppend(ts: seq<string>, t: string)
    ensures TechKeys(ts + [t]) == TechKeys(ts) + [TechKey(t)]
  {
    var a := TechKeys(ts + [t]);
    var b := TechKeys(ts) + [TechKey(t)];
    assert |a| == |b|;
    forall i | 0 <= i < |a| ensures a[i] == b[i] {
      if i < |ts| {
        assert (ts + [t])[i] == ts[i];
      } else {
        assert (ts + [t])[i] == t;
      }
    }
  }

  lemma NonEmptySetPresent(keys: seq<string>, k: string)
    requires k in keys
    ensures NonEmptySet(keys + [k]) == NonEmptySet(keys)
  {
    forall s ensures s in NonEmptySet(keys + [k]) <==> s in NonEmptySet(keys) {
      assert s in keys + [k] <==> s in keys;
    }
  }

  /** `calculateStats`. */
  function CalculateStats(experiences: seq<Experience>, references: seq<Reference>, today: Date): Stats
  {
    Stats(IntToString(YearsBetween(CAREER_START, today)) + "+",
          |experiences|,
          |TechSet(AllTechnologies(experiences))|,
          |references|)
  }

  /** What the statistics count: one company per experience, one per
      reference, the distinct non-empty technology keys (never more than the
      entries), and the year count followed by "+". */
  lemma StatsCounts(experiences: seq<Experience>, references: seq<Reference>, today: Date)
    ensures CalculateStats(experiences, references, today).companyCount == |experiences|
    ensures CalculateStats(experiences, references, today).referenceCount == |references|
    ensures CalculateStats(experiences, references, today).technologyCount <= |AllTechnologies(experiences)|
    ensures forall s :: s in TechSet(AllTechnologies(experiences)) <==>
              s != [] && exists t :: t in AllTechnologies(experiences) && TechKey(t) == s
    ensures CalculateStats(experiences, references, today).yearsOfExperience ==
              IntToString(YearsBetween(CAREER_START, today)) + "+"
    ensures var y := CalculateStats(experiences, references, today).yearsOfExperience;
            |y| >= 2 && y[|y| - 1] == '+'
  {
    var ts := AllTechnologies(experiences);
    TechSetBound(ts);
    forall s ensures s in TechSet(ts) <==> s != [] && exists t :: t in ts && TechKey(t) == s {
      TechSetMembers(ts, s);
    }
  }

  /** The row whose key is `id`, or -1: the repositories' `findById` over
      either table. */
  function IndexOfRow<T>(rows: seq<T>, key: T -> Id, id: Id): (r: int)
    ensures -1 <= r < |rows|
    ensures r >= 0 ==> key(rows[r]) == id
    ensures r < 0 ==> forall j :: 0 <= j < |rows| ==> key(rows[j]) != id
  {
    if rows == [] then -1
    else if key(rows[0]) == id then 0
    else
      var k := IndexOfRow(rows[1..], key, id);
      if k < 0 then -1 else k + 1
  }

  function ExperienceId(e: Experience): Id { e.id }

  function ReferenceId(r: Reference): Id { r.id }

  /** The experience row with that id, or -1. */
  function IndexOfExperience(rows: seq<Experience>, id: Id): (r: int)
    ensures -1 <= r < |rows|
    ensures r >= 0 ==> rows[r].id == id
    ensures r < 0 ==> forall j :: 0 <= j < |rows| ==> rows[j].id != id
  {
    IndexOfRow(rows, ExperienceId, id)
  }

  /** The reference row with that id, or -1. */
  function IndexOfReference(rows: seq<Reference>, id: Id): (r: int)
    ensures -1 <= r < |rows|
    ensures r >= 0 ==> rows[r].id == id
    ensures r < 0 ==> forall j :: 0 <= j < |rows| ==> rows[j].id != id
  {
    IndexOfRow(rows, ReferenceId, id)
  }

  predicate UniqueExperienceIds(rows: seq<Experience>)
  {
    forall i, j :: 0 <= i < |rows| && 0 <= j < |rows| && rows[i].id == rows[j].id ==> i == j
  }

  predicate UniqueReferenceIds(rows: seq<Reference>)
  {
    forall i, j :: 0 <= i < |rows| && 0 <= j < |rows| && rows[i].id == rows[j].id ==> i == j
  }

  /** `updateExperienceFromRequest`: every field of the request is copied
      onto the row; the id stays. */
  function ApplyExperience(e: Experience, req: ExperienceRequest): Experience
  {
    Experience(e.id, req.company, req.title, req.period, req.isCurrent, req.technologies,
               req.description, req.leaveReason, req.displayOrder)
  }

  /** `updateReferenceFromRequest`. */
  function ApplyReference(r: Reference, req: ReferenceRequest): Reference
  {
    Reference(r.id, req.name, req.currentCompany, req.currentTitle, req.workedTogether, req.roleWhenWorked)
  }

  /** `updateExperience`: not-found for an unknown id; otherwise the row
      takes the request's fields and its id is returned. */
  function AfterUpdateExperience(rows: seq<Experience>, id: Id, req: ExperienceRequest): (Result<Id, Failure>, seq<Experience>)
  {
    var i := IndexOfExperience(rows, id);
    if i < 0 then (Err(ResourceNotFound("Experience", "id")), rows)
    else (Ok(id), rows[i := ApplyExperience(rows[i], req)])
  }

  /** `updateReference`, likewise. */
  function AfterUpdateReference(rows: seq<Reference>, id: Id, req: ReferenceRequest): (Result<Id, Failure>, seq<Reference>)
  {
    var i := IndexOfReference(rows, id);
    if i < 0 then (Err(ResourceNotFound("Reference", "id")), rows)
    else (Ok(id), rows[i := ApplyReference(rows[i], req)])
  }

  /** An unknown id fails with not-found and changes nothing; a known id
      gets the request's fields, keeps its id, and no other row changes. */
  lemma UpdateExperienceOutcomes(rows: seq<Experience>, id: Id, req: ExperienceRequest)
    requires UniqueExperienceIds(rows)
    ensures (forall j :: 0 <= j < |rows| ==> rows[j].id != id) ==>
              AfterUpdateExperience(rows, id, req) == (Err(ResourceNotFound("Experience", "id")), rows)
    ensures (exists j :: 0 <= j < |rows| && rows[j].id == id) ==>
              AfterUpdateExperience(rows, id, req).0 == Ok(id) &&
              |AfterUpdateExperience(rows, id, req).1| == |rows| &&
              UniqueExperienceIds(AfterUpdateExperience(rows, id, req).1) &&
              forall j :: 0 <= j < |rows| ==>
                AfterUpdateExperience(rows, id, req).1[j] ==
                  if rows[j].id == id
                  then Experience(id, req.company, req.title, req.period, req.isCurrent, req.technologies,
                                  req.description, req.leaveReason, req.displayOrder)
                  else rows[j]
  {
  }

  /** The same for references. */
  lemma UpdateReferenceOutcomes(rows: seq<Reference>, id: Id, req: ReferenceRequest)
    requires UniqueReferenceIds(rows)
    ensures (forall j :: 0 <= j < |rows| ==> rows[j].id != id) ==>
              AfterUpdateReference(rows, id, req) == (Err(ResourceNotFound("Reference", "id")), rows)
    ensures (exists j :: 0 <= j < |rows| && rows[j].id == id) ==>
              AfterUpdateReference(rows, id, req).0 == Ok(id) &&
              |AfterUpdateReference(rows, id, req).1| == |rows| &&
              UniqueReferenceIds(AfterUpdateReference(rows, id, req).1) &&
              forall j :: 0 <= j < |rows| ==>
                AfterUpdateReference(rows, id, req).1[j] ==
                  if rows[j].id == id
                  then Reference(id, req.name, req.currentCompany, req.currentTitle, req.workedTogether,
                                 req.roleWhenWorked)
                  else rows[j]
  {
  }

  /** An update never changes the counts of companies and references. */
  lemma UpdatesKeepCounts(exps: seq<Experience>, refs: seq<Reference>, id: Id,
                          ereq: ExperienceRequest, rreq: ReferenceRequest, today: Date)
    ensures CalculateStats(AfterUpdateExperience(exps, id, ereq).1, refs, today).companyCount ==
              CalculateStats(exps, refs, today).companyCount
    ensures CalculateStats(exps, AfterUpdateReference(refs, id, rreq).1, today).referenceCount ==
              CalculateStats(exps, refs, today).referenceCount
  {
  }

  class AboutService {
    var experiences: seq<Experience>
    var references: seq<Reference>

    ghost predicate Valid()
      reads this
    {
      UniqueExperienceIds(experiences) && UniqueReferenceIds(references)
    }

    constructor (exps: seq<Experience>, refs: seq<Reference>)
      requires UniqueExperienceIds(exps) && UniqueReferenceIds(refs)
      ensures Valid() && experiences == exps && references == refs
    {
      experiences := exps;
      references := refs;
    }

    /** The statistics part of `getAboutInfo`. */
    function Stats(today: Date): Stats
      reads this
    {
      CalculateStats(experiences, references, today)
    }

    /** `updateExperience`. */
    method UpdateExperience(id: Id, req: ExperienceRequest) returns (r: Result<Id, Failure>)
      requires Valid()
      modifies this
      ensures Valid()
      ensures (r, experiences) == AfterUpdateExperience(old(experiences), id, req)
      ensures references == old(references)
    {
      var i := IndexOfExperience(experiences, id);
      if i < 0 {
        return Err(ResourceNotFound("Experience", "id"));
      }
      UpdateExperienceOutcomes(experiences, id, req);
      experiences := experiences[i := ApplyExperience(experiences[i], req)];
      r := Ok(id);
    }

    /** `updateReference`. */
    method UpdateReference(id: Id, req: ReferenceRequest) returns (r: Result<Id, Failure>)
      requires Valid()
      modifies this
      ensures Valid()
      ensures (r, references) == AfterUpdateReference(old(references), id, req)
      ensures experiences == old(experiences)
    {
      var i := IndexOfReference(references, id);
      if i < 0 {
        return Err(ResourceNotFound("Reference", "id"));
      }
      UpdateReferenceOutcomes(references, id, req);
      references := references[i := ApplyReference(references[i], req)];
      r := Ok(id);
    }
  }
}
