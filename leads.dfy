/** The lead routes that write (leads.js): create, with the duplicate-phone
    audit row, the points rule and the round-robin sales person; update;
    delete, with its document cascade; and reassignment. Each route is a
    function from the tables before the request to the tables after it and
    the response, and a handler on `Store.Db` that makes the same writes in
    the order the route makes them. */
module Leads {
  import opened Domain
  import opened Seqs
  import opened Store
  import Points
  import RoundRobin
  import Auth

  /** The body of `POST /leads`. */
  datatype LeadInput = LeadInput(
    name: Option<string>,
    phone: Option<string>,
    remarks: Option<string>,
    hospitalId: Option<Id>,
    pointsOverride: Option<int>,
    specialisation: Option<string>,
    partnerId: Option<Id>,
    status: Option<LeadStatus>)

  /** A lead as the routes return it, with `include: { documents: true }`. */
  datatype LeadView = LeadView(lead: Lead, documents: seq<LeadDocument>)

  /** The `data` of a `lead.create`. `hospitalId` is a required column, so the
      database refuses a draft without one. */
  datatype Draft = Draft(
    name: string,
    phone: string,
    remarks: Option<string>,
    status: LeadStatus,
    points: int,
    partnerId: Option<Id>,
    hospitalId: Option<Id>,
    createdById: Id,
    salesPersonId: Option<Id>,
    specialisation: Option<string>)

  /** The row the database stores for a draft, under a fresh id and stamp. */
  function Row(d: Draft, id: Id): Lead
    requires d.hospitalId.Some?
  {
    Lead(id, d.name, d.phone, d.remarks, d.status, d.points, d.partnerId, d.hospitalId.value,
         d.createdById, d.salesPersonId, d.specialisation, false, id)
  }

  /** A JavaScript-truthy string: present and not empty. */
  predicate Present(s: Option<string>) {
    s.Some? && s.value != ""
  }

  /** `!name || !phone || phone.length !== 10` fails: a name, and a phone of
      exactly ten characters of any kind. */
  predicate ValidIntake(input: LeadInput) {
    Present(input.name) && input.phone.Some? && |input.phone.value| == 10
  }

  /** Some lead that is not deleted has this phone, in any hospital and any
      status (`findFirst({ where: { phone, isDeleted: false } })`). */
  ghost predicate PhoneTaken(leads: seq<Lead>, phone: string) {
    exists k :: 0 <= k < |leads| && leads[k].phone == phone && !leads[k].isDeleted
  }

  function LivePhoneIndex(leads: seq<Lead>, phone: string): (i: int)
    ensures i >= 0 <==> PhoneTaken(leads, phone)
  {
    FirstIndex(leads, (l: Lead) => l.phone == phone && !l.isDeleted)
  }

  /** The partner the new lead is credited to: a PARTNER actor's own id. */
  function OwnerOf(actor: User, input: LeadInput): Option<Id> {
    if actor.role == Partner then Some(actor.id) else input.partnerId
  }

  /** The status the body asks for: NEW for a PARTNER actor. */
  function StatusOf(actor: User, input: LeadInput): Option<LeadStatus> {
    if actor.role == Partner then Some(New) else input.status
  }

  /** `` `/uploads/${file.filename}` ``. */
  function UploadUrl(filename: string): string {
    "/uploads/" + filename
  }

  /** One `leadDocument` row per uploaded file, with ids from `firstId` on. */
  function Attach(leadId: Id, firstId: nat, files: seq<string>): seq<LeadDocument> {
    seq(|files|, i requires 0 <= i < |files| => LeadDocument(firstId + i, leadId, UploadUrl(files[i])))
  }

  /** `POST /leads` (leads.js lines 47-156). */
  function Create(t: Tables, actor: User, input: LeadInput, files: seq<string>): (r: (Tables, Outcome<LeadView>))
    ensures !ValidIntake(input) ==> r == (t, Err(BadRequest))
    ensures r.1.Err? && !r.1.failure.DuplicatePhone? ==> r.0 == t
    ensures r.1.Err? && r.1.failure.DuplicatePhone? ==>
      && ValidIntake(input) && PhoneTaken(t.leads, input.phone.value)
      && r.0 == t.(leads := t.leads + [r.1.failure.duplicate], tick := t.tick + 1)
    ensures ValidIntake(input) && PhoneTaken(t.leads, input.phone.value) ==>
      r.1.Err? && (r.1.failure.DuplicatePhone? || r.1.failure == ServerError)
    ensures (ValidIntake(input) && !PhoneTaken(t.leads, input.phone.value) && input.hospitalId.OrElse(actor.hospitalId).None?)
            ==> r == (t, Err(BadRequest))
    ensures r.1.Ok? <==>
      ValidIntake(input) && !PhoneTaken(t.leads, input.phone.value) && input.hospitalId.OrElse(actor.hospitalId).Some?
    ensures r.1.Ok? ==>
      && ValidIntake(input) && !PhoneTaken(t.leads, input.phone.value)
      && r.0.leads == t.leads + [r.1.value.lead]
      && r.0.documents == t.documents + Attach(t.tick, t.tick + 1, files)
      && r.0.users == t.users && r.0.hospitals == t.hospitals
      && r.0.remarks == t.remarks && r.0.rates == t.rates
      && r.0.tick == t.tick + 1 + |files|
  {
    if !ValidIntake(input) then (t, Err(BadRequest))
    else if LivePhoneIndex(t.leads, input.phone.value) >= 0 then RecordDuplicate(t, actor, input)
    else CreateFresh(t, actor, input, files)
  }

  /** The DUPLICATE audit row of a request whose phone is taken (leads.js
      lines 63-79), or the database's refusal when it has no hospital. */
  function RecordDuplicate(t: Tables, actor: User, input: LeadInput): (Tables, Outcome<LeadView>)
    requires ValidIntake(input)
  {
    var d := Draft(input.name.value, input.phone.value, input.remarks, Duplicate, 0, OwnerOf(actor, input),
                   input.hospitalId.OrElse(actor.hospitalId), actor.id, None, None);
    if d.hospitalId.None? then (t, Err(ServerError))
    else
      var row := Row(d, t.tick);
      (t.(leads := t.leads + [row], tick := t.tick + 1), Err(DuplicatePhone(row)))
  }

  /** A lead whose phone is free (leads.js lines 80-151). */
  function CreateFresh(t: Tables, actor: User, input: LeadInput, files: seq<string>): (Tables, Outcome<LeadView>)
    requires ValidIntake(input)
  {
    var partnerId := OwnerOf(actor, input);
    var status := StatusOf(actor, input);
    var points := Points.CreationPoints(status, input.pointsOverride, partnerId, t.rates);
    var hospitalId := input.hospitalId.OrElse(actor.hospitalId);
    if hospitalId.None? then (t, Err(BadRequest))
    else
      var salesPersonId := RoundRobin.NextSalesPerson(t.users, t.leads, hospitalId.value);
      var lead := Row(Draft(input.name.value, input.phone.value, input.remarks, status.GetOr(New), points,
                            partnerId, hospitalId, actor.id, salesPersonId, input.specialisation), t.tick);
      var t' := t.(leads := t.leads + [lead], documents := t.documents + Attach(lead.id, t.tick + 1, files),
                   tick := t.tick + 1 + |files|);
      (t', Ok(LeadView(lead, DocumentsOf(t'.documents, lead.id))))
  }

  /** The lead `Create` stores holds what the request resolves to: the
      partner and status forced for a PARTNER actor, the creation points, the
      body's hospital or else the actor's, and the sales person the rotation
      picks for that hospital. */
  lemma CreatedLead(t: Tables, actor: User, input: LeadInput, files: seq<string>)
    requires Create(t, actor, input, files).1.Ok?
    ensures var lead := Create(t, actor, input, files).1.value.lead;
      && lead.id == lead.createdAt == t.tick
      && lead.name == input.name.value && lead.phone == input.phone.value
      && lead.remarks == input.remarks && lead.specialisation == input.specialisation
      && lead.partnerId == OwnerOf(actor, input)
      && lead.status == StatusOf(actor, input).GetOr(New)
      && lead.points == Points.CreationPoints(StatusOf(actor, input), input.pointsOverride, OwnerOf(actor, input), t.rates)
      && input.hospitalId.OrElse(actor.hospitalId) == Some(lead.hospitalId)
      && lead.salesPersonId == RoundRobin.NextSalesPerson(t.users, t.leads, lead.hospitalId)
      && lead.createdById == actor.id && !lead.isDeleted
  {
  }

  /** A PARTNER actor's lead, normal or DUPLICATE, is always its own and NEW or
      DUPLICATE, whatever partner and status the body names. */
  lemma PartnerOwnsItsLeads(t: Tables, actor: User, input: LeadInput, files: seq<string>)
    requires actor.role == Partner
    ensures var r := Create(t, actor, input, files);
      && (r.1.Ok? ==> r.1.value.lead.partnerId == Some(actor.id) && r.1.value.lead.status == New)
      && (r.1.Err? && r.1.failure.DuplicatePhone? ==> r.1.failure.duplicate.partnerId == Some(actor.id))
  {
  }

  /** A phone that a live lead already has yields exactly one DUPLICATE row:
      no points, no sales person, the next id, and a 400 answer carrying it.
      This is decided before the hospital check, so with no hospital to give
      the row the insert itself fails. */
  lemma DuplicatePhoneAudit(t: Tables, actor: User, input: LeadInput, files: seq<string>)
    requires ValidIntake(input) && PhoneTaken(t.leads, input.phone.value)
    ensures var r := Create(t, actor, input, files);
      && (input.hospitalId.OrElse(actor.hospitalId).None? ==> r == (t, Err(ServerError)))
      && (input.hospitalId.OrElse(actor.hospitalId).Some? ==>
            r.1.Err? && r.1.failure.DuplicatePhone? &&
            var row := r.1.failure.duplicate;
            && r.0.leads == t.leads + [row]
            && row.status == Duplicate && row.points == 0 && row.salesPersonId.None?
            && row.id == t.tick && row.phone == input.phone.value
            && Some(row.hospitalId) == input.hospitalId.OrElse(actor.hospitalId)
            && r.1.failure.Code() == 400)
  {
  }

  /** The phone check is on length only: ten letters pass it. */
  lemma LengthOnlyPhoneCheck(name: string)
    requires name != ""
    ensures ValidIntake(LeadInput(Some(name), Some("abcdefghij"), None, None, None, None, None, None))
    ensures !ValidIntake(LeadInput(Some(name), Some("12345"), None, None, None, None, None, None))
  {
  }

  /** The documents returned with a created lead are exactly the uploaded
      files, in order, when the tables satisfy their invariant (no earlier
      document can belong to the fresh id). */
  lemma {:induction false} CreatedDocuments(t: Tables, actor: User, input: LeadInput, files: seq<string>)
    requires Valid(t) && Create(t, actor, input, files).1.Ok?
    ensures Create(t, actor, input, files).1.value.documents == Attach(t.tick, t.tick + 1, files)
    ensures |Create(t, actor, input, files).1.value.documents| == |files|
  {
    var r := Create(t, actor, input, files);
    CreatedLead(t, actor, input, files);
    FreshDocuments(t.documents, t.tick, files);
  }

  /** The documents of a fresh id, once its files are attached, are the
      attached ones. */
  lemma FreshDocuments(documents: seq<LeadDocument>, tick: nat, files: seq<string>)
    requires Below(documents, DocumentLead, tick)
    ensures DocumentsOf(documents + Attach(tick, tick + 1, files), tick) == Attach(tick, tick + 1, files)
  {
    var p := (d: LeadDocument) => d.leadId == tick;
    var docs := Attach(tick, tick + 1, files);
    FilterAppend(documents, docs, p);
    NoneMatch(documents, p);
    AllMatch(docs, p);
  }

  lemma AttachChrono(leadId: Id, tick: nat, files: seq<string>, documents: seq<LeadDocument>)
    requires Chrono(documents, DocumentId, DocumentId, tick) && Below(documents, DocumentLead, tick)
    requires leadId < tick
    ensures Chrono(documents + Attach(leadId, tick, files), DocumentId, DocumentId, tick + |files|)
    ensures Below(documents + Attach(leadId, tick, files), DocumentLead, tick + |files|)
  {
  }

  /** Creation keeps the table invariant. */
  lemma CreateKeepsValid(t: Tables, actor: User, input: LeadInput, files: seq<string>)
    requires Valid(t)
    ensures Valid(Create(t, actor, input, files).0)
  {
    var r := Create(t, actor, input, files);
    if r.1.Ok? {
      CreatedKeepsValid(t, actor, input, files);
    } else if r.1.failure.DuplicatePhone? {
      AppendChrono(t.leads, r.1.failure.duplicate, LeadId, LeadStamp, t.tick, t.tick + 1);
    }
  }

  lemma CreatedKeepsValid(t: Tables, actor: User, input: LeadInput, files: seq<string>)
    requires Valid(t) && Create(t, actor, input, files).1.Ok?
    ensures Valid(Create(t, actor, input, files).0)
  {
    var r := Create(t, actor, input, files);
    var lead := r.1.value.lead;
    CreatedLead(t, actor, input, files);
    AppendChrono(t.leads, lead, LeadId, LeadStamp, t.tick, t.tick + 1);
    ChronoLater(t.leads + [lead], LeadId, LeadStamp, t.tick + 1, r.0.tick);
    AttachChrono(t.tick, t.tick + 1, files, t.documents);
    ChronoLater(t.users, UserId, UserStamp, t.tick, r.0.tick);
    ChronoLater(t.hospitals, HospitalId, HospitalStamp, t.tick, r.0.tick);
    ChronoLater(t.remarks, RemarkId, RemarkStamp, t.tick, r.0.tick);
    ChronoLater(t.rates, RateId, RateId, t.tick, r.0.tick);
  }

  /** The handler of `POST /leads`, making the same writes as `Create`: the
      lead row, then one document row per file. */
  method HandleCreate(db: Db, actor: User, input: LeadInput, files: seq<string>) returns (r: Outcome<LeadView>)
    modifies db
    ensures (db.Snapshot(), r) == Create(old(db.Snapshot()), actor, input, files)
  {
    var name, phone := input.name, input.phone;
    if !Present(name) || phone.None? || |phone.value| != 10 {
      return Err(BadRequest);
    }
    if LivePhoneIndex(db.leads, phone.value) >= 0 {
      r := HandleDuplicate(db, actor, input);
    } else {
      r := HandleFresh(db, actor, input, files);
    }
  }

  /** `lead.create` of the DUPLICATE row. */
  method HandleDuplicate(db: Db, actor: User, input: LeadInput) returns (r: Outcome<LeadView>)
    requires ValidIntake(input)
    modifies db
    ensures (db.Snapshot(), r) == RecordDuplicate(old(db.Snapshot()), actor, input)
  {
    var partnerId := input.partnerId;
    if actor.role == Partner {
      partnerId := Some(actor.id);
    }
    var hospitalId := input.hospitalId.OrElse(actor.hospitalId);
    if hospitalId.None? {
      return Err(ServerError);
    }
    var row := Row(Draft(input.name.value, input.phone.value, input.remarks, Duplicate, 0, partnerId,
                         hospitalId, actor.id, None, None), db.tick);
    db.leads, db.tick := db.leads + [row], db.tick + 1;
    r := Err(DuplicatePhone(row));
  }

  /** Points, hospital, sales person, the lead row, then its documents. */
  method HandleFresh(db: Db, actor: User, input: LeadInput, files: seq<string>) returns (r: Outcome<LeadView>)
    requires ValidIntake(input)
    modifies db
    ensures (db.Snapshot(), r) == CreateFresh(old(db.Snapshot()), actor, input, files)
  {
    var partnerId := input.partnerId;
    var status := input.status;
    if actor.role == Partner {
      partnerId := Some(actor.id);
      status := Some(New);
    }
    var points := CreationPoints(db, status, input.pointsOverride, partnerId);
    var resolvedHospitalId := input.hospitalId.OrElse(actor.hospitalId);
    if resolvedHospitalId.None? {
      return Err(BadRequest);
    }
    var salesPersonId := AssignSalesPerson(db, resolvedHospitalId.value);
    var lead := Row(Draft(input.name.value, input.phone.value, input.remarks, status.GetOr(New), points, partnerId,
                          resolvedHospitalId, actor.id, salesPersonId, input.specialisation), db.tick);
    db.leads, db.tick := db.leads + [lead], db.tick + 1;
    SaveDocuments(db, lead.id, files);
    r := Ok(LeadView(lead, DocumentsOf(db.documents, lead.id)));
  }

  /** The points block of `POST /leads` (leads.js lines 80-84). */
  method CreationPoints(db: Db, status: Option<LeadStatus>, pointsOverride: Option<int>, partnerId: Option<Id>) returns (points: int)
    ensures points == Points.CreationPoints(status, pointsOverride, partnerId, db.rates)
  {
    points := Points.GetPoints(status.GetOr(New), pointsOverride);
    if partnerId.Some? {
      var customPoints := Points.PartnerRate(db.rates, partnerId, Some(status.GetOr(New)));
      if customPoints.Some? {
        points := customPoints.value;
      }
    }
  }

  /** The round-robin block of `POST /leads` (leads.js lines 89-117): the
      roster query, the newest assigned lead of the hospital, and the index
      after its sales person. */
  method AssignSalesPerson(db: Db, hospitalId: Id) returns (salesPersonId: Option<Id>)
    ensures salesPersonId == RoundRobin.NextSalesPerson(db.users, db.leads, hospitalId)
  {
    salesPersonId := None;
    var salesPeople := RoundRobin.Roster(db.users, hospitalId);
    if |salesPeople| > 0 {
      var lastAssigned := RoundRobin.LastAssigned(db.leads, hospitalId);
      var nextIndex := 0;
      if lastAssigned.Some? {
        var lastIndex := RoundRobin.RosterIndex(salesPeople, lastAssigned.value);
        nextIndex := (lastIndex + 1) % |salesPeople|;
      }
      salesPersonId := Some(salesPeople[nextIndex].id);
    }
  }

  /** One `leadDocument.create` per uploaded file, each under the next id. */
  method SaveDocuments(db: Db, leadId: Id, files: seq<string>)
    modifies db
    ensures db.documents == old(db.documents) + Attach(leadId, old(db.tick), files)
    ensures db.tick == old(db.tick) + |files|
    ensures db.users == old(db.users) && db.hospitals == old(db.hospitals) && db.leads == old(db.leads)
    ensures db.remarks == old(db.remarks) && db.rates == old(db.rates)
  {
    var i := 0;
    while i < |files|
      invariant 0 <= i <= |files|
      invariant db.tick == old(db.tick) + i
      invariant db.documents == old(db.documents) + Attach(leadId, old(db.tick), files[..i])
      invariant db.users == old(db.users) && db.hospitals == old(db.hospitals) && db.leads == old(db.leads)
      invariant db.remarks == old(db.remarks) && db.rates == old(db.rates)
    {
      assert Attach(leadId, old(db.tick), files[..i + 1]) ==
             Attach(leadId, old(db.tick), files[..i]) + [LeadDocument(db.tick, leadId, UploadUrl(files[i]))];
      db.documents := db.documents + [LeadDocument(db.tick, leadId, UploadUrl(files[i]))];
      db.tick := db.tick + 1;
      i := i + 1;
    }
    assert files[..i] == files;
  }

  /** The body of `PUT /leads/:id`; an absent field is left as stored. */
  datatype LeadPatch = LeadPatch(
    name: Option<string>,
    phone: Option<string>,
    remarks: Option<string>,
    status: Option<LeadStatus>,
    pointsOverride: Option<int>,
    specialisation: Option<string>)

  /** The stored lead with the supplied fields and the new points. */
  function Patched(lead: Lead, patch: LeadPatch, points: int): Lead {
    lead.(name := patch.name.GetOr(lead.name),
          phone := patch.phone.GetOr(lead.phone),
          remarks := if patch.remarks.Some? then patch.remarks else lead.remarks,
          status := patch.status.GetOr(lead.status),
          points := points,
          specialisation := if patch.specialisation.Some? then patch.specialisation else lead.specialisation)
  }

  /** `PUT /leads/:id` (leads.js lines 273-320): any authenticated actor may
      edit any lead; the points follow the update rule. */
  function Update(t: Tables, actor: User, id: Id, patch: LeadPatch, files: seq<string>): (r: (Tables, Outcome<LeadView>))
    ensures r.1.Err? <==> FindLead(t.leads, id).None?
    ensures r.1.Err? ==> r == (t, Err(NotFound))
    ensures r.1.Ok? ==>
      var i := LeadIndex(t.leads, id);
      var after := r.1.value.lead;
      && 0 <= i < |t.leads| && t.leads[i].id == id
      && r.0.leads == t.leads[i := after]
      && r.0.documents == t.documents + Attach(id, t.tick, files)
      && r.0.users == t.users && r.0.hospitals == t.hospitals
      && r.0.remarks == t.remarks && r.0.rates == t.rates
      && r.0.tick == t.tick + |files|
  {
    match FindLead(t.leads, id)
    case None => (t, Err(NotFound))
    case Some(lead) =>
      var points := Points.UpdatedPoints(lead, actor.role, patch.status, patch.pointsOverride, t.rates);
      var updated := Patched(lead, patch, points);
      var t' := t.(leads := t.leads[LeadIndex(t.leads, id) := updated],
                   documents := t.documents + Attach(id, t.tick, files),
                   tick := t.tick + |files|);
      (t', Ok(LeadView(updated, DocumentsOf(t'.documents, id))))
  }

  /** What an update changes in the row: the supplied fields and the points
      of the update rule; the partner, sales person, hospital, author and
      identity stay as stored. */
  lemma UpdatedRow(t: Tables, actor: User, id: Id, patch: LeadPatch, files: seq<string>)
    requires Update(t, actor, id, patch, files).1.Ok?
    ensures var before := FindLead(t.leads, id).value;
      var after := Update(t, actor, id, patch, files).1.value.lead;
      && after.id == before.id && after.createdAt == before.createdAt
      && after.partnerId == before.partnerId && after.salesPersonId == before.salesPersonId
      && after.hospitalId == before.hospitalId && after.createdById == before.createdById
      && after.isDeleted == before.isDeleted
      && after.name == (if patch.name.Some? then patch.name.value else before.name)
      && after.phone == (if patch.phone.Some? then patch.phone.value else before.phone)
      && after.status == (if patch.status.Some? then patch.status.value else before.status)
      && after.remarks == (if patch.remarks.Some? then patch.remarks else before.remarks)
      && after.specialisation == (if patch.specialisation.Some? then patch.specialisation else before.specialisation)
      && after.points == Points.UpdatedPoints(before, actor.role, patch.status, patch.pointsOverride, t.rates)
  {
  }

  /** Update runs no duplicate check: a lead may take a phone another live
      lead already has. */
  lemma UpdateAllowsTakenPhone(t: Tables, actor: User, id: Id, phone: string, k: nat)
    requires FindLead(t.leads, id).Some?
    requires k < |t.leads| && t.leads[k].phone == phone && t.leads[k].id != id && !t.leads[k].isDeleted
    ensures var r := Update(t, actor, id, LeadPatch(None, Some(phone), None, None, None, None), []);
      r.1.Ok? && r.1.value.lead.phone == phone && PhoneTaken(r.0.leads, phone)
  {
    var r := Update(t, actor, id, LeadPatch(None, Some(phone), None, None, None, None), []);
    var i := LeadIndex(t.leads, id);
    assert i != k;
    assert r.0.leads[k] == t.leads[k];
  }

  /** Update keeps the table invariant. */
  lemma UpdateKeepsValid(t: Tables, actor: User, id: Id, patch: LeadPatch, files: seq<string>)
    requires Valid(t)
    ensures Valid(Update(t, actor, id, patch, files).0)
  {
    var r := Update(t, actor, id, patch, files);
    if r.1.Ok? {
      var i := LeadIndex(t.leads, id);
      ReplaceChrono(t.leads, i, r.1.value.lead, LeadId, LeadStamp, t.tick);
      ChronoLater(t.leads[i := r.1.value.lead], LeadId, LeadStamp, t.tick, r.0.tick);
      AttachChrono(id, t.tick, files, t.documents);
      ChronoLater(t.users, UserId, UserStamp, t.tick, r.0.tick);
      ChronoLater(t.hospitals, HospitalId, HospitalStamp, t.tick, r.0.tick);
      ChronoLater(t.remarks, RemarkId, RemarkStamp, t.tick, r.0.tick);
      ChronoLater(t.rates, RateId, RateId, t.tick, r.0.tick);
    }
  }

  /** The handler of `PUT /leads/:id`. */
  method HandleUpdate(db: Db, actor: User, id: Id, patch: LeadPatch, files: seq<string>) returns (r: Outcome<LeadView>)
    modifies db
    ensures (db.Snapshot(), r) == Update(old(db.Snapshot()), actor, id, patch, files)
  {
    var found := FindLead(db.leads, id);
    if found.None? {
      return Err(NotFound);
    }
    var lead := found.value;
    var points := lead.points;
    if Points.Truthy(patch.pointsOverride) && actor.role == SuperAdmin {
      points := patch.pointsOverride.value;
    } else if patch.status.Some? && patch.status.value != lead.status {
      var customPoints: Option<int> := None;
      if lead.partnerId.Some? {
        customPoints := Points.PartnerRate(db.rates, lead.partnerId, patch.status);
      }
      points := if customPoints.Some? then customPoints.value else Points.GetPoints(patch.status.value, None);
    }
    var updated := Patched(lead, patch, points);
    db.leads := db.leads[LeadIndex(db.leads, id) := updated];
    SaveDocuments(db, id, files);
    r := Ok(LeadView(updated, DocumentsOf(db.documents, id)));
  }

  /** The ids of some documents. */
  function DocIds(docs: seq<LeadDocument>): (ids: seq<Id>)
    ensures |ids| == |docs| && forall i :: 0 <= i < |docs| ==> ids[i] == docs[i].id
  {
    seq(|docs|, i requires 0 <= i < |docs| => docs[i].id)
  }

  /** `DELETE /leads/:id` (leads.js lines 323-346): a PARTNER may delete only
      its own leads; the lead's documents are deleted one by one by id, then
      the lead row itself. */
  function Delete(t: Tables, actor: User, id: Id): (r: (Tables, Outcome<()>))
    ensures FindLead(t.leads, id).None? ==> r == (t, Err(NotFound))
    ensures (FindLead(t.leads, id).Some? && actor.role == Partner &&
             FindLead(t.leads, id).value.partnerId != Some(actor.id)) ==> r == (t, Err(Forbidden))
    ensures r.1.Ok? <==>
      FindLead(t.leads, id).Some? && (actor.role == Partner ==> FindLead(t.leads, id).value.partnerId == Some(actor.id))
    ensures r.1.Ok? ==>
      r.0 == t.(documents := Filter(t.documents, (d: LeadDocument) => d.id !in DocIds(DocumentsOf(t.documents, id))),
                   leads := Filter(t.leads, (l: Lead) => l.id != id))
  {
    match FindLead(t.leads, id)
    case None => (t, Err(NotFound))
    case Some(lead) =>
      if actor.role == Partner && lead.partnerId != Some(actor.id) then (t, Err(Forbidden))
      else
        var ids := DocIds(DocumentsOf(t.documents, id));
        (t.(documents := Filter(t.documents, (d: LeadDocument) => d.id !in ids),
            leads := Filter(t.leads, (l: Lead) => l.id != id)), Ok(()))
  }

  /** The delete is a hard delete with a full cascade: when the tables satisfy
      their invariant, the lead is gone, every one of its documents is gone,
      and every other lead and document remains, in order. */
  lemma {:induction false} DeleteCascades(t: Tables, actor: User, id: Id)
    requires Valid(t) && Delete(t, actor, id).1.Ok?
    ensures var t' := Delete(t, actor, id).0;
      && FindLead(t'.leads, id).None?
      && t'.documents == Filter(t.documents, (d: LeadDocument) => d.leadId != id)
      && (forall d :: d in t'.documents <==> d in t.documents && d.leadId != id)
      && (forall l :: l in t'.leads <==> l in t.leads && l.id != id)
  {
    var t' := Delete(t, actor, id).0;
    var docs := DocumentsOf(t.documents, id);
    var ids := DocIds(docs);
    forall k | 0 <= k < |t.documents|
      ensures (t.documents[k].id !in ids) == (t.documents[k].leadId != id)
    {
      var d := t.documents[k];
      if d.leadId == id {
        assert d in docs;
        var j :| 0 <= j < |docs| && docs[j] == d;
        assert ids[j] == d.id;
      } else if d.id in ids {
        assert false;
      }
    }
    FilterSame(t.documents, (d: LeadDocument) => d.id !in ids, (d: LeadDocument) => d.leadId != id);
  }

  /** Deletion keeps the table invariant. */
  lemma DeleteKeepsValid(t: Tables, actor: User, id: Id)
    requires Valid(t)
    ensures Valid(Delete(t, actor, id).0)
  {
    var r := Delete(t, actor, id);
    if r.1.Ok? {
      var ids := DocIds(DocumentsOf(t.documents, id));
      FilterChrono(t.documents, (d: LeadDocument) => d.id !in ids, DocumentId, DocumentId, t.tick);
      FilterBelow(t.documents, (d: LeadDocument) => d.id !in ids, DocumentLead, t.tick);
      FilterChrono(t.leads, (l: Lead) => l.id != id, LeadId, LeadStamp, t.tick);
    }
  }

  /** The handler of `DELETE /leads/:id`: one `leadDocument.delete` per
      document of the lead, then the `lead.delete`. Unlinking the files is not
      part of the state. */
  method HandleDelete(db: Db, actor: User, id: Id) returns (r: Outcome<()>)
    modifies db
    ensures (db.Snapshot(), r) == Delete(old(db.Snapshot()), actor, id)
  {
    var found := FindLead(db.leads, id);
    if found.None? {
      return Err(NotFound);
    }
    if actor.role == Partner && found.value.partnerId != Some(actor.id) {
      return Err(Forbidden);
    }
    DeleteDocuments(db, DocumentsOf(db.documents, id));
    db.leads := Filter(db.leads, (l: Lead) => l.id != id);
    r := Ok(());
  }

  /** `leadDocument.delete({ where: { id: doc.id } })` for each of `docs`. */
  method DeleteDocuments(db: Db, docs: seq<LeadDocument>)
    modifies db
    ensures db.documents == Filter(old(db.documents), (d: LeadDocument) => d.id !in DocIds(docs))
    ensures db.leads == old(db.leads) && db.tick == old(db.tick)
    ensures db.users == old(db.users) && db.hospitals == old(db.hospitals)
    ensures db.remarks == old(db.remarks) && db.rates == old(db.rates)
  {
    ghost var ids := DocIds(docs);
    AllMatch(db.documents, (d: LeadDocument) => d.id !in ids[..0]);
    for i := 0 to |docs|
      invariant db.documents == Filter(old(db.documents), (d: LeadDocument) => d.id !in ids[..i])
      invariant db.leads == old(db.leads) && db.tick == old(db.tick)
      invariant db.users == old(db.users) && db.hospitals == old(db.hospitals)
      invariant db.remarks == old(db.remarks) && db.rates == old(db.rates)
    {
      var docId := docs[i].id;
      DeleteOneMore(old(db.documents), ids, i);
      db.documents := Filter(db.documents, (d: LeadDocument) => d.id != docId);
    }
    assert ids[..|docs|] == ids;
  }

  /** Deleting one more id after the first `i` leaves the documents whose id
      is none of the first `i + 1`. */
  lemma DeleteOneMore(docs: seq<LeadDocument>, ids: seq<Id>, i: nat)
    requires i < |ids|
    ensures Filter(Filter(docs, (d: LeadDocument) => d.id !in ids[..i]), (d: LeadDocument) => d.id != ids[i])
            == Filter(docs, (d: LeadDocument) => d.id !in ids[..i + 1])
  {
    assert ids[..i + 1] == ids[..i] + [ids[i]];
    FilterThen(docs, (d: LeadDocument) => d.id !in ids[..i], (d: LeadDocument) => d.id != ids[i],
               (d: LeadDocument) => d.id !in ids[..i + 1]);
  }

  /** `PUT /leads/:id/reassign` (leads.js lines 408-429): SUPERADMIN and ADMIN
      only; at least one of the targets is required, and only the ones given
      are written. */
  function Reassign(t: Tables, actor: User, id: Id, partnerId: Option<Id>, salesPersonId: Option<Id>): (r: (Tables, Outcome<Lead>))
    ensures !Auth.Permits([SuperAdmin, Admin], actor) ==> r == (t, Err(Forbidden))
    ensures Auth.Permits([SuperAdmin, Admin], actor) && partnerId.None? && salesPersonId.None? ==> r == (t, Err(BadRequest))
    ensures (Auth.Permits([SuperAdmin, Admin], actor) && (partnerId.Some? || salesPersonId.Some?) &&
             FindLead(t.leads, id).None?) ==> r == (t, Err(NotFound))
    ensures r.1.Ok? <==>
      Auth.Permits([SuperAdmin, Admin], actor) && (partnerId.Some? || salesPersonId.Some?) && FindLead(t.leads, id).Some?
    ensures r.1.Ok? ==>
      var before := FindLead(t.leads, id).value;
      && r.1.value == before.(partnerId := partnerId.OrElse(before.partnerId), salesPersonId := salesPersonId.OrElse(before.salesPersonId))
      && r.0 == t.(leads := t.leads[LeadIndex(t.leads, id) := r.1.value])
  {
    if !Auth.Permits([SuperAdmin, Admin], actor) then (t, Err(Forbidden))
    else if partnerId.None? && salesPersonId.None? then (t, Err(BadRequest))
    else
      match FindLead(t.leads, id)
      case None => (t, Err(NotFound))
      case Some(lead) =>
        var updated := lead.(partnerId := if partnerId.Some? then partnerId else lead.partnerId,
                             salesPersonId := if salesPersonId.Some? then salesPersonId else lead.salesPersonId);
        (t.(leads := t.leads[LeadIndex(t.leads, id) := updated]), Ok(updated))
  }

  /** Reassignment leaves every other lead, and every field but the two
      targets, as it was; it keeps the table invariant. */
  lemma ReassignTouchesOneRow(t: Tables, actor: User, id: Id, partnerId: Option<Id>, salesPersonId: Option<Id>, k: nat)
    requires Valid(t) && Reassign(t, actor, id, partnerId, salesPersonId).1.Ok?
    requires k < |t.leads| && t.leads[k].id != id
    ensures Reassign(t, actor, id, partnerId, salesPersonId).0.leads[k] == t.leads[k]
    ensures Valid(Reassign(t, actor, id, partnerId, salesPersonId).0)
  {
    var i := LeadIndex(t.leads, id);
    ReplaceChrono(t.leads, i, Reassign(t, actor, id, partnerId, salesPersonId).1.value, LeadId, LeadStamp, t.tick);
  }
}
