/** Admission requests: evaluated, reviewed as often as one likes, and turned into at most one person each. */
module Admissions {
  import opened Core
  import opened Census
  import opened Tables
  import opened Store
  import opened Codes
  import opened People

  /** What the evaluator answered; the service itself is not part of this model. */
  datatype Verdict = Verdict(accepted: bool, confidence: real, profession: int)

  const AUTO_ACCEPT_THRESHOLD: real := 0.85

  ghost function CodeFor(w: World, profession: int): string {
    NextCode(TakenCodes(w.roster.people),
             PrefixOf(if profession in w.catalog.professions then w.catalog.professions[profession] else "GEN"))
  }

  function Applicant(camp: int, profession: int, code: string): NewPerson {
    NewPerson(camp, profession, None, Some(code))
  }

  const NO_DRAWS := Draws("", "", "")

  /** Creates the person of an admission and links it; all of it or nothing. */
  ghost function Enroll(w: World, id: int, profession: int): Response
    requires id in w.admissions
  {
    var a := w.admissions[id];
    var created := Create(w, a.camp, Applicant(a.camp, profession, CodeFor(w, profession)), NO_DRAWS);
    if created.outcome.Refused? then Response(w, created.outcome)
    else Response(created.world.(admissions := w.admissions[id := a.(person := Some(w.nextId))]), Done)
  }

  method EnrollApplicant(db: Database, id: int, profession: int) returns (o: Outcome)
    requires id in db.admissions
    modifies db
    ensures Response(db.Snapshot(), o) == Enroll(old(db.Snapshot()), id, profession)
  {
    var admission := db.admissions[id];
    var name := if profession in db.catalog.professions then db.catalog.professions[profession] else "GEN";
    var code := GenerateIdentificationCode(TakenCodes(db.people), name);
    var person;
    o, person := CreatePerson(db, admission.camp, Applicant(admission.camp, profession, code), NO_DRAWS);
    if o.Done? {
      db.admissions := db.admissions[id := admission.(person := Some(person))];
    }
  }

  function Filed(w: World, camp: int, v: Verdict, decision: Decision): World {
    w.(admissions := w.admissions[w.nextId := Admission(camp, Some(v.profession), decision, None)], nextId := w.nextId + 1)
  }

  /** A confident acceptance enrols at once, in the transaction that files the request. */
  ghost function Apply(w: World, camp: int, v: Verdict): Response {
    if camp !in w.catalog.camps || w.catalog.professions == map[] then Refuse(w, 404)
    else if v.profession !in w.catalog.professions then Refuse(w, 400)
    else if v.accepted && v.confidence > AUTO_ACCEPT_THRESHOLD then
      if v.profession == 0 then Refuse(w, 400)
      else
        var r := Enroll(Filed(w, camp, v, ACCEPTED), w.nextId, v.profession);
        Commit(w, r.outcome, r.world)
    else Response(Filed(w, camp, v, UNDECIDED), Done)
  }

  method CreateAdmission(db: Database, camp: int, v: Verdict) returns (o: Outcome)
    modifies db
    ensures Response(db.Snapshot(), o) == Apply(old(db.Snapshot()), camp, v)
  {
    o := Need(camp in db.catalog.camps, 404);
    :- o;
    :- Need(db.catalog.professions != map[], 404);
    :- Need(v.profession in db.catalog.professions, 400);
    if v.accepted && v.confidence > AUTO_ACCEPT_THRESHOLD {
      o := AutoAcceptAdmission(db, camp, v);
    } else {
      var id := db.NewId();
      db.admissions := db.admissions[id := Admission(camp, Some(v.profession), UNDECIDED, None)];
      o := Done;
    }
  }

  method AutoAcceptAdmission(db: Database, camp: int, v: Verdict) returns (o: Outcome)
    modifies db
    ensures var w := old(db.Snapshot());
            if v.profession == 0 then o == Refused(400) && db.Snapshot() == w
            else
              var r := Enroll(Filed(w, camp, v, ACCEPTED), w.nextId, v.profession);
              Response(db.Snapshot(), o) == Commit(w, r.outcome, r.world)
  {
    o := Need(v.profession != 0, 400);
    :- o;
    var before := db.Snapshot();
    var id := db.NewId();
    db.admissions := db.admissions[id := Admission(camp, Some(v.profession), ACCEPTED, None)];
    assert db.Snapshot() == Filed(before, camp, v, ACCEPTED) && id == before.nextId;
    o := EnrollApplicant(db, id, v.profession);
    if o.Refused? {
      db.Rollback(before);
    }
  }

  function Decided(w: World, id: int, accept: bool): World
    requires id in w.admissions
  {
    w.(admissions := w.admissions[id := w.admissions[id].(decision := if accept then ACCEPTED else TURNED_DOWN)])
  }

  function ProfessionFor(a: Admission, corrected: Option<int>): Option<int> {
    if corrected.Some? then corrected else a.aiProfession
  }

  /** A review overwrites the decision; accepting enrols the applicant unless a person is linked already. */
  ghost function ReviewOf(w: World, id: int, accept: bool, corrected: Option<int>): Response {
    if id !in w.admissions then Refuse(w, 404)
    else if corrected.Some? && corrected.value !in w.catalog.professions then Refuse(w, 400)
    else
      var a := w.admissions[id];
      if !accept || a.person.Some? then Response(Decided(w, id, accept), Done)
      else if ProfessionFor(a, corrected).None? then Refuse(w, 400)
      else
        var r := Enroll(Decided(w, id, accept), id, ProfessionFor(a, corrected).value);
        Commit(w, r.outcome, r.world)
  }

  method ReviewAdmission(db: Database, id: int, accept: bool, corrected: Option<int>) returns (o: Outcome)
    modifies db
    ensures Response(db.Snapshot(), o) == ReviewOf(old(db.Snapshot()), id, accept, corrected)
  {
    o := Need(id in db.admissions, 404);
    :- o;
    :- Need(corrected.None? || corrected.value in db.catalog.professions, 400);
    var before := db.Snapshot();
    var admission := db.admissions[id];
    db.admissions := db.admissions[id := admission.(decision := if accept then ACCEPTED else TURNED_DOWN)];
    if !accept || admission.person.Some? {
      return Done;
    }
    var profession := if corrected.Some? then corrected else admission.aiProfession;
    if profession.None? {
      db.Rollback(before);
      return Refused(400);
    }
    o := EnrollApplicant(db, id, profession.value);
    if o.Refused? {
      db.Rollback(before);
    }
  }

  // ---------------------------------------------------------------------------------------------
  // What every step keeps
  // ---------------------------------------------------------------------------------------------

  /** All accepted admissions, but possibly one in the middle of being enrolled, have their person; nobody shares one. */
  ghost predicate LinkedBut(rows: map<int, Admission>, people: set<int>, nextId: int, pending: Option<int>) {
    && (forall a | a in rows :: a < nextId)
    && (forall p | p in people :: p < nextId)
    && (forall a | a in rows && rows[a].decision == ACCEPTED && pending != Some(a) :: rows[a].person.Some?)
    && (forall a | a in rows && rows[a].person.Some? :: rows[a].person.value in people)
    && (forall a, b | a in rows && b in rows && a != b && rows[a].person.Some? :: rows[a].person != rows[b].person)
  }

  /** Accepted admissions have their person, and no two admissions share one. */
  ghost predicate Linked(w: World) {
    LinkedBut(w.admissions, w.roster.people.Keys, w.nextId, None)
  }

  /** Rows and people stay, and a link once set stays. */
  ghost predicate LinksOnlyGrow(w: World, v: World) {
    && RowsOnlyGrow(w.admissions, v.admissions)
    && w.roster.people.Keys <= v.roster.people.Keys
  }

  ghost predicate RowsOnlyGrow(before: map<int, Admission>, after: map<int, Admission>) {
    && before.Keys <= after.Keys
    && forall a | a in before && before[a].person.Some? :: after[a].person == before[a].person
  }

  /** Every person that appeared belongs to an admission that had nobody before. */
  ghost predicate CreatesOnlyLinked(w: World, v: World) {
    forall p | p in v.roster.people && p !in w.roster.people ::
      exists a :: a in v.admissions && v.admissions[a].person == Some(p) && (a in w.admissions ==> w.admissions[a].person.None?)
  }

  /** Only admissions, the id sequence and new person rows change. */
  ghost predicate TouchesPeopleOnly(w: World, v: World) {
    && v == w.(admissions := v.admissions, roster := v.roster, nextId := v.nextId)
    && v.nextId >= w.nextId
    && v.roster.healthLog == w.roster.healthLog && v.roster.campLog == w.roster.campLog
    && w.roster.people.Keys <= v.roster.people.Keys
    && (forall p | p in v.roster.people ::
          if p in w.roster.people && p < w.nextId then v.roster.people[p] == w.roster.people[p] else w.nextId <= p < v.nextId)
  }

  lemma EnrollEffect(w: World, id: int, profession: int)
    requires id in w.admissions
    ensures var r := Enroll(w, id, profession);
            r.outcome.Done? ==>
              && r.world.admissions == w.admissions[id := w.admissions[id].(person := Some(w.nextId))]
              && r.world.roster.people.Keys == w.roster.people.Keys + {w.nextId}
              && r.world.nextId == w.nextId + 1
  {}

  ghost predicate PeopleBelow(w: World) {
    forall p | p in w.roster.people :: p < w.nextId
  }

  lemma EnrollFrame(w: World, id: int, profession: int)
    requires id in w.admissions && PeopleBelow(w)
    ensures var r := Enroll(w, id, profession); r.outcome.Done? ==> TouchesPeopleOnly(w, r.world)
  {}

  lemma ApplyFrame(w: World, camp: int, v: Verdict)
    requires PeopleBelow(w)
    ensures TouchesPeopleOnly(w, Apply(w, camp, v).world)
  {
    var r := Apply(w, camp, v);
    if r.outcome.Done? && v.accepted && v.confidence > AUTO_ACCEPT_THRESHOLD {
      var filed := Filed(w, camp, v, ACCEPTED);
      EnrollFrame(filed, w.nextId, v.profession);
      FrameComposes(w, filed, r.world);
    }
  }

  lemma ReviewFrame(w: World, id: int, accept: bool, corrected: Option<int>)
    requires PeopleBelow(w)
    ensures TouchesPeopleOnly(w, ReviewOf(w, id, accept, corrected).world)
  {
    if id in w.admissions {
      var decided := Decided(w, id, accept);
      if ProfessionFor(w.admissions[id], corrected).Some? {
        EnrollFrame(decided, id, ProfessionFor(w.admissions[id], corrected).value);
        var r := Enroll(decided, id, ProfessionFor(w.admissions[id], corrected).value);
        if r.outcome.Done? { FrameComposes(w, decided, r.world); }
      }
    }
  }

  lemma FrameComposes(w: World, mid: World, v: World)
    requires mid == w.(admissions := mid.admissions, nextId := mid.nextId) && w.nextId <= mid.nextId
    requires PeopleBelow(w) && TouchesPeopleOnly(mid, v)
    ensures TouchesPeopleOnly(w, v)
  {}

  lemma LinkingFinishes(rows: map<int, Admission>, people: set<int>, nextId: int, id: int)
    requires LinkedBut(rows, people, nextId, Some(id))
    requires id in rows && rows[id].person.None?
    ensures var linked := rows[id := rows[id].(person := Some(nextId))];
            LinkedBut(linked, people + {nextId}, nextId + 1, None) && RowsOnlyGrow(rows, linked)
  {}

  /** Filing an application does nothing, files it undecided, or files it accepted with its person. */
  lemma ApplyShape(w: World, camp: int, v: Verdict)
    ensures var after, id := Apply(w, camp, v).world, w.nextId;
            || after == w
            || after == Filed(w, camp, v, UNDECIDED)
            || (&& after.admissions == w.admissions[id := Admission(camp, Some(v.profession), ACCEPTED, Some(id + 1))]
                && after.roster.people.Keys == w.roster.people.Keys + {id + 1}
                && after.nextId == id + 2)
  {
    EnrollEffect(Filed(w, camp, v, ACCEPTED), w.nextId, v.profession);
  }

  lemma ApplyKeepsLinks(w: World, camp: int, v: Verdict)
    requires Linked(w)
    ensures var after := Apply(w, camp, v).world; Linked(after) && LinksOnlyGrow(w, after) && CreatesOnlyLinked(w, after)
  {
    ApplyShape(w, camp, v);
    var after, id := Apply(w, camp, v).world, w.nextId;
    if after.nextId == id + 2 {
      var rows := w.admissions[id := Admission(camp, Some(v.profession), ACCEPTED, None)];
      LinkingFinishes(rows, w.roster.people.Keys, id + 1, id);
      assert after.admissions == rows[id := rows[id].(person := Some(id + 1))];
      assert after.admissions[id].person == Some(id + 1);
    } else {
      assert after.roster == w.roster;
    }
  }

  lemma ReviewKeepsLinks(w: World, id: int, accept: bool, corrected: Option<int>)
    requires Linked(w)
    ensures var after := ReviewOf(w, id, accept, corrected).world;
            Linked(after) && LinksOnlyGrow(w, after) && CreatesOnlyLinked(w, after)
  {
    var after := ReviewOf(w, id, accept, corrected).world;
    if after != w {
      var decided := Decided(w, id, accept);
      if !accept || w.admissions[id].person.Some? {
        assert after == decided && decided.roster == w.roster;
      } else {
        var profession := ProfessionFor(w.admissions[id], corrected).value;
        EnrollEffect(decided, id, profession);
        LinkingFinishes(decided.admissions, w.roster.people.Keys, w.nextId, id);
        assert after.admissions[id].person == Some(w.nextId);
      }
    }
  }
}
