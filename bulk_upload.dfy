/** `POST /leads/bulk-upload` (leads.js lines 349-380): the rows of an
    uploaded sheet become NEW leads of the uploader's hospital in one
    `createMany`. Rows without a name or without a ten-character phone are
    skipped; there is no duplicate-phone check and no round robin. */
module BulkUpload {
  import opened Domain
  import opened Seqs
  import opened Store
  import Points
  import Leads

  /** One row of the first sheet, with the phone as `String(row.phone)`. */
  datatype SheetRow = SheetRow(name: Option<string>, phone: Option<string>, remarks: Option<string>)

  /** The rows the loop keeps. */
  predicate Accepted(row: SheetRow) {
    Leads.Present(row.name) && row.phone.Some? && |row.phone.value| == 10
  }

  /** The points of every uploaded lead: NEW's default, replaced by the rate
      for NEW of the uploader itself when the uploader is a PARTNER, an ADMIN
      or a SUPERADMIN. */
  function BulkPoints(actor: User, rates: seq<PartnerPoints>): (p: int)
    ensures actor.role == SalesPerson ==> p == 100
    ensures actor.role != SalesPerson && Points.PartnerRate(rates, Some(actor.id), Some(New)).Some? ==>
      p == Points.PartnerRate(rates, Some(actor.id), Some(New)).value
    ensures Points.PartnerRate(rates, Some(actor.id), Some(New)).None? ==> p == 100
  {
    var custom := Points.PartnerRate(rates, Some(actor.id), Some(New));
    if actor.role != SalesPerson && custom.Some? then custom.value else Points.StatusPoints(New)
  }

  /** The `createMany` entry of an accepted row. */
  function Entry(actor: User, points: int, row: SheetRow): Leads.Draft
    requires Accepted(row)
  {
    Leads.Draft(row.name.value, row.phone.value, Some(if Leads.Present(row.remarks) then row.remarks.value else ""),
                New, points, if actor.role == Partner then Some(actor.id) else None, actor.hospitalId,
                actor.id, None, None)
  }

  /** `leadsToCreate` after the loop has seen `rows`. */
  function Batch(actor: User, points: int, rows: seq<SheetRow>): (b: seq<Leads.Draft>)
    ensures |b| <= |rows|
    ensures forall i :: 0 <= i < |b| ==>
      && b[i].status == New && b[i].points == points && b[i].salesPersonId.None?
      && b[i].createdById == actor.id && b[i].hospitalId == actor.hospitalId
      && b[i].name != "" && |b[i].phone| == 10
      && b[i].partnerId == (if actor.role == Partner then Some(actor.id) else None)
  {
    if rows == [] then []
    else
      var last := rows[|rows| - 1];
      Batch(actor, points, rows[..|rows| - 1]) + (if Accepted(last) then [Entry(actor, points, last)] else [])
  }

  /** `batch` holds one draft per row of `kept`, in order, each with that
      row's name, phone and remarks (an empty text when the row has none). */
  ghost predicate Transcribes(batch: seq<Leads.Draft>, kept: seq<SheetRow>) {
    && |batch| == |kept|
    && forall i :: 0 <= i < |batch| ==> Copied(batch[i], kept[i])
  }

  ghost predicate Copied(d: Leads.Draft, row: SheetRow) {
    && Accepted(row) && d.name == row.name.value && d.phone == row.phone.value
    && d.remarks == Some(if Leads.Present(row.remarks) then row.remarks.value else "")
  }

  /** Exactly the accepted rows make it into the batch, in sheet order. */
  lemma {:induction false} BatchKeepsAcceptedRows(actor: User, points: int, rows: seq<SheetRow>)
    ensures Transcribes(Batch(actor, points, rows), Filter(rows, Accepted))
  {
    if rows != [] {
      var init, last := rows[..|rows| - 1], rows[|rows| - 1];
      BatchKeepsAcceptedRows(actor, points, init);
      assert rows == init + [last];
      FilterAppend(init, [last], Accepted);
      assert [last][1..] == [];
      var tail := if Accepted(last) then [Entry(actor, points, last)] else [];
      TranscribesAppend(Batch(actor, points, init), Filter(init, Accepted), tail, Filter([last], Accepted));
    }
  }

  lemma TranscribesAppend(batch: seq<Leads.Draft>, kept: seq<SheetRow>, batch': seq<Leads.Draft>, kept': seq<SheetRow>)
    requires Transcribes(batch, kept) && Transcribes(batch', kept')
    ensures Transcribes(batch + batch', kept + kept')
  {
    var b, k := batch + batch', kept + kept';
    forall i | 0 <= i < |b| ensures Copied(b[i], k[i]) {
      if i < |batch| {
        assert b[i] == batch[i] && k[i] == kept[i];
      } else {
        assert b[i] == batch'[i - |batch|] && k[i] == kept'[i - |batch|];
      }
    }
  }

  /** The created rows, under consecutive fresh ids. */
  function Stamp(batch: seq<Leads.Draft>, firstId: nat): seq<Lead>
    requires forall i :: 0 <= i < |batch| ==> batch[i].hospitalId.Some?
  {
    seq(|batch|, i requires 0 <= i < |batch| => Leads.Row(batch[i], firstId + i))
  }

  /** The route: no file is a 400; a batch for an uploader without a hospital
      is refused by the database (500) and nothing is written; otherwise the
      whole batch is written and counted. */
  function Upload(t: Tables, actor: User, file: Option<seq<SheetRow>>): (r: (Tables, Outcome<nat>))
    ensures file.None? ==> r == (t, Err(BadRequest))
    ensures r.1.Err? ==> r.0 == t
    ensures r.1.Ok? ==>
      && file.Some?
      && r.1.value == |Filter(file.value, Accepted)|
      && |r.0.leads| == |t.leads| + r.1.value
      && t.leads <= r.0.leads
      && r.0 == t.(leads := r.0.leads, tick := t.tick + r.1.value)
    ensures file.Some? && actor.hospitalId.Some? ==> r.1.Ok?
  {
    if file.None? then (t, Err(BadRequest))
    else
      var batch := Batch(actor, BulkPoints(actor, t.rates), file.value);
      BatchKeepsAcceptedRows(actor, BulkPoints(actor, t.rates), file.value);
      if batch != [] && actor.hospitalId.None? then (t, Err(ServerError))
      else
        (t.(leads := t.leads + Stamp(batch, t.tick), tick := t.tick + |batch|), Ok(|batch|))
  }

  /** An uploader without a hospital: a batch with a row in it is refused by
      the database (500), an empty one is written as nothing and counted 0. */
  lemma UploadWithoutHospital(t: Tables, actor: User, rows: seq<SheetRow>)
    requires actor.hospitalId.None?
    ensures Upload(t, actor, Some(rows)) == (t, if Filter(rows, Accepted) == [] then Ok(0) else Err(ServerError))
  {
    var batch := Batch(actor, BulkPoints(actor, t.rates), rows);
    BatchKeepsAcceptedRows(actor, BulkPoints(actor, t.rates), rows);
    if batch == [] {
      assert t.leads + Stamp(batch, t.tick) == t.leads;
    }
  }

  /** Every uploaded lead is NEW, credited to the uploader only when it is a
      PARTNER, has no sales person, and takes the uploader's hospital; a phone
      that a live lead already has is uploaded all the same. */
  lemma {:induction false} UploadedLeads(t: Tables, actor: User, rows: seq<SheetRow>, i: nat)
    requires Upload(t, actor, Some(rows)).1.Ok? && |t.leads| <= i < |Upload(t, actor, Some(rows)).0.leads|
    ensures var l := Upload(t, actor, Some(rows)).0.leads[i];
      && l.status == New && l.salesPersonId.None? && l.createdById == actor.id
      && Some(l.hospitalId) == actor.hospitalId
      && l.partnerId == (if actor.role == Partner then Some(actor.id) else None)
      && l.points == BulkPoints(actor, t.rates)
      && l.id == l.createdAt == t.tick + (i - |t.leads|)
      && i - |t.leads| < |Filter(rows, Accepted)|
      && l.name == Filter(rows, Accepted)[i - |t.leads|].name.value
      && l.phone == Filter(rows, Accepted)[i - |t.leads|].phone.value
      && l.remarks == Some(if Leads.Present(Filter(rows, Accepted)[i - |t.leads|].remarks)
                           then Filter(rows, Accepted)[i - |t.leads|].remarks.value else "")
  {
    BatchKeepsAcceptedRows(actor, BulkPoints(actor, t.rates), rows);
  }

  /** Uploading keeps the table invariant. */
  lemma UploadKeepsValid(t: Tables, actor: User, file: Option<seq<SheetRow>>)
    requires Valid(t)
    ensures Valid(Upload(t, actor, file).0)
  {
    var r := Upload(t, actor, file);
    if r.1.Ok? {
      var batch := Batch(actor, BulkPoints(actor, t.rates), file.value);
      var added := Stamp(batch, t.tick);
      assert r.0.leads == t.leads + added;
      StampChrono(batch, t.tick);
      ConcatChrono(t.leads, added, LeadId, LeadStamp, t.tick, r.0.tick);
      LaterLeads(t, r.0.leads, r.0.tick);
    }
  }

  /** Stamped rows take consecutive ids from `firstId`. */
  lemma StampChrono(batch: seq<Leads.Draft>, firstId: nat)
    requires forall i :: 0 <= i < |batch| ==> batch[i].hospitalId.Some?
    ensures Chrono(Stamp(batch, firstId), LeadId, LeadStamp, firstId + |batch|)
    ensures forall i :: 0 <= i < |batch| ==> LeadId(Stamp(batch, firstId)[i]) == LeadStamp(Stamp(batch, firstId)[i]) == firstId + i
  {
  }

  /** A chronological lead table under a later counter keeps the invariant. */
  lemma LaterLeads(t: Tables, leads: seq<Lead>, tick: nat)
    requires Valid(t) && t.tick <= tick && Chrono(leads, LeadId, LeadStamp, tick)
    ensures Valid(t.(leads := leads, tick := tick))
  {
    ChronoLater(t.users, UserId, UserStamp, t.tick, tick);
    ChronoLater(t.hospitals, HospitalId, HospitalStamp, t.tick, tick);
    ChronoLater(t.documents, DocumentId, DocumentId, t.tick, tick);
    assert Below(t.documents, DocumentLead, tick);
    ChronoLater(t.remarks, RemarkId, RemarkStamp, t.tick, tick);
    ChronoLater(t.rates, RateId, RateId, t.tick, tick);
  }

  /** The loop over the sheet that fills `leadsToCreate`. */
  method CollectBatch(actor: User, rates: seq<PartnerPoints>, rows: seq<SheetRow>) returns (leadsToCreate: seq<Leads.Draft>)
    ensures leadsToCreate == Batch(actor, BulkPoints(actor, rates), rows)
  {
    leadsToCreate := [];
    for i := 0 to |rows|
      invariant leadsToCreate == Batch(actor, BulkPoints(actor, rates), rows[..i])
    {
      assert rows[..i + 1][..i] == rows[..i] && rows[..i + 1][i] == rows[i];
      var row := rows[i];
      if !Leads.Present(row.name) || row.phone.None? || |row.phone.value| != 10 {
        continue;
      }
      var points := Points.StatusPoints(New);
      if actor.role == Partner || actor.role == Admin || actor.role == SuperAdmin {
        var customPoints := Points.PartnerRate(rates, Some(actor.id), Some(New));
        if customPoints.Some? {
          points := customPoints.value;
        }
      }
      leadsToCreate := leadsToCreate + [Entry(actor, points, row)];
    }
    assert rows[..|rows|] == rows;
  }

  /** The handler: the loop, then the `createMany`. */
  method HandleUpload(db: Db, actor: User, file: Option<seq<SheetRow>>) returns (r: Outcome<nat>)
    modifies db
    ensures (db.Snapshot(), r) == Upload(old(db.Snapshot()), actor, file)
  {
    if file.None? {
      return Err(BadRequest);
    }
    var leadsToCreate := CollectBatch(actor, db.rates, file.value);
    if leadsToCreate != [] && actor.hospitalId.None? {
      return Err(ServerError);
    }
    db.leads, db.tick := db.leads + Stamp(leadsToCreate, db.tick), db.tick + |leadsToCreate|;
    r := Ok(|leadsToCreate|);
  }
}
