/** The hospital routes (hospitals.js): a role-scoped list, a single
    hospital with a hospital-scope check, and SUPERADMIN-only creation, editing
    and soft deletion. Both reads include the hospital's users. */
module Hospitals {
  import opened Domain
  import opened Seqs
  import opened Store
  import opened Auth

  /** A hospital as the reads return it, with `include: { users }`. */
  datatype HospitalView = HospitalView(hospital: Hospital, users: seq<User>)

  function View(t: Tables, h: Hospital): (v: HospitalView)
    ensures v.hospital == h
    ensures forall u :: u in v.users <==> u in t.users && u.hospitalId == Some(h.id)
  {
    HospitalView(h, Filter(t.users, (u: User) => u.hospitalId == Some(h.id)))
  }

  function Views(t: Tables, hs: seq<Hospital>): (vs: seq<HospitalView>)
    ensures |vs| == |hs| && forall i :: 0 <= i < |hs| ==> vs[i] == View(t, hs[i])
  {
    seq(|hs|, i requires 0 <= i < |hs| => View(t, hs[i]))
  }

  /** Which hospitals `GET /` shows: the active ones, and for an ADMIN only
      its own. */
  ghost predicate Shown(actor: User, h: Hospital) {
    h.isActive && (actor.role == Admin ==> actor.hospitalId == Some(h.id))
  }

  /** `GET /` behind `checkRole('SUPERADMIN', 'ADMIN')` (lines 9-49): every
      other role is refused before the handler runs, so its empty-list branch
      is never reached; an ADMIN without a hospital makes the query filter on
      a null id, which the database client rejects (500). */
  function ListHospitals(t: Tables, actor: User): (r: Outcome<seq<HospitalView>>)
    ensures r == Err(Forbidden) <==> actor.role !in {SuperAdmin, Admin}
    ensures r == Err(ServerError) <==> actor.role == Admin && actor.hospitalId.None?
    ensures r.Ok? <==> actor.role == SuperAdmin || (actor.role == Admin && actor.hospitalId.Some?)
    ensures r.Ok? ==> r.value == Views(t, Filter(t.hospitals, (h: Hospital) => Shown(actor, h)))
  {
    if !Permits([SuperAdmin, Admin], actor) then Err(Forbidden)
    else if actor.role == SuperAdmin then
      FilterSame(t.hospitals, (h: Hospital) => h.isActive, (h: Hospital) => Shown(actor, h));
      Ok(Views(t, Filter(t.hospitals, (h: Hospital) => h.isActive)))
    else if actor.hospitalId.None? then Err(ServerError)
    else
      var own := actor.hospitalId.value;
      FilterSame(t.hospitals, (h: Hospital) => h.id == own && h.isActive, (h: Hospital) => Shown(actor, h));
      Ok(Views(t, Filter(t.hospitals, (h: Hospital) => h.id == own && h.isActive)))
  }

  /** A successful list holds the view of a hospital exactly when the
      hospital is in the table and shown to the actor. */
  lemma {:induction false} ListedHospitals(t: Tables, actor: User, h: Hospital)
    requires ListHospitals(t, actor).Ok?
    ensures View(t, h) in ListHospitals(t, actor).value <==> h in t.hospitals && Shown(actor, h)
  {
    var shown := Filter(t.hospitals, (g: Hospital) => Shown(actor, g));
    var vs := ListHospitals(t, actor).value;
    if View(t, h) in vs {
      var i :| 0 <= i < |vs| && vs[i] == View(t, h);
      assert shown[i] in shown;
    }
    if h in t.hospitals && Shown(actor, h) {
      assert h in shown;
      var i :| 0 <= i < |shown| && shown[i] == h;
      assert vs[i] == View(t, h);
    }
  }

  /** An ADMIN's list holds at most one hospital, its own. */
  lemma AdminSeesOwnHospitalOnly(t: Tables, actor: User)
    requires Valid(t) && actor.role == Admin && actor.hospitalId.Some?
    ensures var r := ListHospitals(t, actor).value;
      |r| <= 1 && forall v :: v in r ==> v.hospital.id == actor.hospitalId.value && v.hospital.isActive
  {
    var shown := Filter(t.hospitals, (h: Hospital) => Shown(actor, h));
    if |shown| > 1 {
      assert shown[0].id == actor.hospitalId.value == shown[1].id;
      FilterIncreasing(t.hospitals, (h: Hospital) => Shown(actor, h), HospitalId);
      assert false;
    }
    forall v | v in ListHospitals(t, actor).value ensures v.hospital.id == actor.hospitalId.value && v.hospital.isActive {
      var i :| 0 <= i < |shown| && ListHospitals(t, actor).value[i] == v;
    }
  }

  /** `GET /:id` (lines 52-82), open to every role: 404 for a missing or
      deactivated hospital, then 403 for a hospital other than the actor's
      own unless the actor is a SUPERADMIN. */
  function GetHospital(t: Tables, actor: User, id: Id): (r: Outcome<HospitalView>)
    ensures r == Err(NotFound) <==> FindHospital(t.hospitals, id).None? || !FindHospital(t.hospitals, id).value.isActive
    ensures r == Err(Forbidden) <==>
      && FindHospital(t.hospitals, id).Some? && FindHospital(t.hospitals, id).value.isActive
      && actor.role != SuperAdmin && actor.hospitalId != Some(id)
    ensures r.Ok? <==>
      && FindHospital(t.hospitals, id).Some? && FindHospital(t.hospitals, id).value.isActive
      && (actor.role == SuperAdmin || actor.hospitalId == Some(id))
    ensures r.Ok? ==> r.value.hospital in t.hospitals && r.value.hospital.id == id && r.value.hospital.isActive
    ensures r.Ok? ==> r.value == View(t, FindHospital(t.hospitals, id).value)
  {
    match FindHospital(t.hospitals, id)
    case None => Err(NotFound)
    case Some(h) =>
      if !h.isActive then Err(NotFound)
      else if actor.role != SuperAdmin && actor.hospitalId != Some(h.id) then Err(Forbidden)
      else Ok(View(t, h))
  }

  /** `POST /` behind `checkRole('SUPERADMIN')` (lines 85-105); a new hospital
      is active. */
  function CreateHospital(t: Tables, actor: User, info: HospitalInfo): (r: (Tables, Outcome<Hospital>))
    ensures r.1.Err? <==> actor.role != SuperAdmin
    ensures r.1.Err? ==> r == (t, Err(Forbidden))
    ensures r.1.Ok? ==>
      && r.0 == t.(hospitals := t.hospitals + [r.1.value], tick := t.tick + 1)
      && r.1.value.info == info && r.1.value.isActive
      && r.1.value.id == r.1.value.createdAt == t.tick
  {
    if !Permits([SuperAdmin], actor) then (t, Err(Forbidden))
    else
      var h := Hospital(t.tick, info, true, t.tick);
      (t.(hospitals := t.hospitals + [h], tick := t.tick + 1), Ok(h))
  }

  /** The columns after an update: each given field replaces the stored one. */
  function Merged(stored: HospitalInfo, given: HospitalInfo): HospitalInfo {
    HospitalInfo(given.name.OrElse(stored.name), given.address.OrElse(stored.address), given.city.OrElse(stored.city),
                 given.state.OrElse(stored.state), given.country.OrElse(stored.country),
                 given.phone.OrElse(stored.phone), given.email.OrElse(stored.email))
  }

  /** `update({ where: { id }, data })` of one hospital; an unknown id makes
      the update throw (500). */
  function Rewrite(t: Tables, id: Id, f: Hospital -> Hospital): (r: (Tables, Outcome<Hospital>))
    ensures r.1.Err? <==> FindHospital(t.hospitals, id).None?
    ensures r.1.Err? ==> r == (t, Err(ServerError))
    ensures r.1.Ok? ==>
      var i := HospitalIndex(t.hospitals, id);
      r.1.value == f(t.hospitals[i]) && r.0 == t.(hospitals := t.hospitals[i := r.1.value])
  {
    var i := HospitalIndex(t.hospitals, id);
    if i < 0 then (t, Err(ServerError))
    else (t.(hospitals := t.hospitals[i := f(t.hospitals[i])]), Ok(f(t.hospitals[i])))
  }

  /** `PUT /:id` behind `checkRole('SUPERADMIN')` (lines 108-129): the given
      columns change, nothing else; a deactivated hospital stays deactivated. */
  function UpdateHospital(t: Tables, actor: User, id: Id, info: HospitalInfo): (r: (Tables, Outcome<Hospital>))
    ensures actor.role != SuperAdmin ==> r == (t, Err(Forbidden))
    ensures actor.role == SuperAdmin ==> r == Rewrite(t, id, (h: Hospital) => h.(info := Merged(h.info, info)))
  {
    if !Permits([SuperAdmin], actor) then (t, Err(Forbidden))
    else Rewrite(t, id, (h: Hospital) => h.(info := Merged(h.info, info)))
  }

  /** `DELETE /:id` behind `checkRole('SUPERADMIN')` (lines 132-144): only
      `isActive` becomes false; the row stays. */
  function DeleteHospital(t: Tables, actor: User, id: Id): (r: (Tables, Outcome<Hospital>))
    ensures actor.role != SuperAdmin ==> r == (t, Err(Forbidden))
    ensures actor.role == SuperAdmin ==> r == Rewrite(t, id, (h: Hospital) => h.(isActive := false))
  {
    if !Permits([SuperAdmin], actor) then (t, Err(Forbidden))
    else Rewrite(t, id, (h: Hospital) => h.(isActive := false))
  }

  /** An update touches only the given columns, keeps the id, the stamp and
      the active flag, and gives back the stored values for every column the
      request leaves out. */
  lemma UpdateTouchesOnlyGivenColumns(t: Tables, actor: User, id: Id, info: HospitalInfo)
    requires UpdateHospital(t, actor, id, info).1.Ok?
    ensures var before, after := FindHospital(t.hospitals, id).value, UpdateHospital(t, actor, id, info).1.value;
      && after.id == before.id && after.createdAt == before.createdAt && after.isActive == before.isActive
      && (info.name.None? ==> after.info.name == before.info.name)
      && (info.name.Some? ==> after.info.name == info.name)
      && (info.email.None? ==> after.info.email == before.info.email)
      && (info.email.Some? ==> after.info.email == info.email)
      && |UpdateHospital(t, actor, id, info).0.hospitals| == |t.hospitals|
  {
  }

  /** Soft deletion: the row and its columns remain, and from then on the
      hospital is in nobody's list and its page answers 404. */
  lemma DeletedHospitalHidden(t: Tables, actor: User, id: Id, viewer: User)
    requires Valid(t) && DeleteHospital(t, actor, id).1.Ok?
    ensures var after := DeleteHospital(t, actor, id).0;
      && |after.hospitals| == |t.hospitals|
      && FindHospital(after.hospitals, id).Some?
      && FindHospital(after.hospitals, id).value == FindHospital(t.hospitals, id).value.(isActive := false)
      && GetHospital(after, viewer, id) == Err(NotFound)
      && (ListHospitals(after, viewer).Ok? ==> forall v :: v in ListHospitals(after, viewer).value ==> v.hospital.id != id)
  {
    var after := DeleteHospital(t, actor, id).0;
    var i := HospitalIndex(t.hospitals, id);
    ReplaceChrono(t.hospitals, i, t.hospitals[i].(isActive := false), HospitalId, HospitalStamp, t.tick);
    assert after.hospitals[i].id == id;
    var j := HospitalIndex(after.hospitals, id);
    IncreasingUnique(after.hospitals, HospitalId, i, j);
    OnlyRowWithId(after.hospitals, i, id);
    if ListHospitals(after, viewer).Ok? {
      var shown := Filter(after.hospitals, (h: Hospital) => Shown(viewer, h));
      forall v | v in ListHospitals(after, viewer).value ensures v.hospital.id != id {
        var k :| 0 <= k < |shown| && ListHospitals(after, viewer).value[k] == v;
        assert shown[k] in after.hospitals && shown[k].isActive;
      }
    }
  }

  /** With distinct ids, an inactive row is the only row with its id, so no
      active row has it. */
  lemma OnlyRowWithId(hs: seq<Hospital>, i: nat, id: Id)
    requires Increasing(hs, HospitalId) && i < |hs| && hs[i].id == id && !hs[i].isActive
    ensures forall h :: h in hs && h.id == id ==> !h.isActive
  {
    forall h | h in hs && h.id == id ensures !h.isActive {
      var m :| 0 <= m < |hs| && hs[m] == h;
      IncreasingUnique(hs, HospitalId, m, i);
    }
  }

  /** Deleting twice is deleting once. */
  lemma DeleteIdempotent(t: Tables, actor: User, id: Id)
    ensures DeleteHospital(DeleteHospital(t, actor, id).0, actor, id).0 == DeleteHospital(t, actor, id).0
  {
    var r := DeleteHospital(t, actor, id);
    if r.1.Ok? {
      var i := HospitalIndex(t.hospitals, id);
      FirstIndexAgrees(r.0.hospitals, (h: Hospital) => h.id == id, t.hospitals, (h: Hospital) => h.id == id);
      assert r.0.hospitals[i := r.0.hospitals[i].(isActive := false)] == r.0.hospitals;
    }
  }

  lemma CreateHospitalKeepsValid(t: Tables, actor: User, info: HospitalInfo)
    requires Valid(t)
    ensures Valid(CreateHospital(t, actor, info).0)
  {
    var r := CreateHospital(t, actor, info);
    if r.1.Ok? {
      AppendChrono(t.hospitals, r.1.value, HospitalId, HospitalStamp, t.tick, t.tick + 1);
      ChronoLater(t.users, UserId, UserStamp, t.tick, t.tick + 1);
      ChronoLater(t.leads, LeadId, LeadStamp, t.tick, t.tick + 1);
      ChronoLater(t.documents, DocumentId, DocumentId, t.tick, t.tick + 1);
      ChronoLater(t.remarks, RemarkId, RemarkStamp, t.tick, t.tick + 1);
      ChronoLater(t.rates, RateId, RateId, t.tick, t.tick + 1);
    }
  }

  lemma RewriteKeepsValid(t: Tables, id: Id, f: Hospital -> Hospital)
    requires Valid(t)
    requires forall h :: f(h).id == h.id && f(h).createdAt == h.createdAt
    ensures Valid(Rewrite(t, id, f).0)
  {
    var r := Rewrite(t, id, f);
    if r.1.Ok? {
      var i := HospitalIndex(t.hospitals, id);
      ReplaceChrono(t.hospitals, i, r.1.value, HospitalId, HospitalStamp, t.tick);
    }
  }

  /** The handler of `POST /`. */
  method HandleCreateHospital(db: Db, actor: User, info: HospitalInfo) returns (r: Outcome<Hospital>)
    modifies db
    ensures (db.Snapshot(), r) == CreateHospital(old(db.Snapshot()), actor, info)
  {
    if actor.role != SuperAdmin {
      return Err(Forbidden);
    }
    var h := Hospital(db.tick, info, true, db.tick);
    db.hospitals, db.tick := db.hospitals + [h], db.tick + 1;
    r := Ok(h);
  }

  /** The handler of `PUT /:id`. */
  method HandleUpdateHospital(db: Db, actor: User, id: Id, info: HospitalInfo) returns (r: Outcome<Hospital>)
    modifies db
    ensures (db.Snapshot(), r) == UpdateHospital(old(db.Snapshot()), actor, id, info)
  {
    if actor.role != SuperAdmin {
      return Err(Forbidden);
    }
    var i := HospitalIndex(db.hospitals, id);
    if i < 0 {
      return Err(ServerError);
    }
    var h := db.hospitals[i];
    h := h.(info := Merged(h.info, info));
    db.hospitals := db.hospitals[i := h];
    r := Ok(h);
  }

  /** The handler of `DELETE /:id`. */
  method HandleDeleteHospital(db: Db, actor: User, id: Id) returns (r: Outcome<Hospital>)
    modifies db
    ensures (db.Snapshot(), r) == DeleteHospital(old(db.Snapshot()), actor, id)
  {
    if actor.role != SuperAdmin {
      return Err(Forbidden);
    }
    var i := HospitalIndex(db.hospitals, id);
    if i < 0 {
      return Err(ServerError);
    }
    var h := db.hospitals[i].(isActive := false);
    db.hospitals := db.hospitals[i := h];
    r := Ok(h);
  }
}
