/** The partner point rates and their approval (pointsApproval.js): a rate
    row per (partner, lead status), written by an upsert whose approval state
    depends on who writes it, and moved to APPROVED or REJECTED by a
    SUPERADMIN. */
module PointsApproval {
  import opened Domain
  import opened Seqs
  import opened Store
  import opened Auth
  import Points

  // ---------------------------------------------------------------------
  // GET /pending

  /** One entry of the pending list. */
  datatype PendingRequest = PendingRequest(id: Id, partner: string, requestedPoints: int, status: ApprovalStatus)

  predicate IsPending(row: PartnerPoints) {
    row.approvalStatus == Pending
  }

  /** The partner's full name, or the empty string when the row's partner is
      not found. */
  function PartnerName(users: seq<User>, partnerId: Id): string {
    match FindUser(users, partnerId)
    case Some(u) => FullName(u)
    case None => ""
  }

  /** `GET /pending` (lines 9-24, SUPERADMIN only): the PENDING rows in table
      order, each shown with its partner's name and its points as the
      requested points. */
  function PendingList(t: Tables, actor: User): (r: Outcome<seq<PendingRequest>>)
    ensures r.Ok? <==> actor.role == SuperAdmin
    ensures r.Err? ==> r.failure == Forbidden
    ensures r.Ok? ==>
      var rows := Filter(t.rates, IsPending);
      && |r.value| == |rows|
      && forall i :: 0 <= i < |rows| ==>
           && r.value[i].id == rows[i].id && r.value[i].requestedPoints == rows[i].points
           && r.value[i].status == Pending && r.value[i].partner == PartnerName(t.users, rows[i].partnerId)
  {
    if !Permits([SuperAdmin], actor) then Err(Forbidden)
    else
      var rows := Filter(t.rates, IsPending);
      Ok(seq(|rows|, i requires 0 <= i < |rows| => PendingRequest(rows[i].id, PartnerName(t.users, rows[i].partnerId),
                                                                  rows[i].points, rows[i].approvalStatus)))
  }

  /** Some entry of the pending list has id `id`. */
  ghost predicate Listed(list: seq<PendingRequest>, id: Id) {
    exists i :: 0 <= i < |list| && list[i].id == id
  }

  /** Some rate row with id `id` is PENDING. */
  ghost predicate PendingRow(rates: seq<PartnerPoints>, id: Id) {
    exists k :: 0 <= k < |rates| && rates[k].id == id && IsPending(rates[k])
  }

  /** The pending list shows exactly the PENDING rows. */
  lemma PendingListExact(t: Tables, actor: User, id: Id)
    requires actor.role == SuperAdmin
    ensures Listed(PendingList(t, actor).value, id) <==> PendingRow(t.rates, id)
  {
    var rows := Filter(t.rates, IsPending);
    var list := PendingList(t, actor).value;
    if Listed(list, id) {
      var i :| 0 <= i < |list| && list[i].id == id;
      assert rows[i] in t.rates;
      var k :| 0 <= k < |t.rates| && t.rates[k] == rows[i];
    }
    if PendingRow(t.rates, id) {
      var k :| 0 <= k < |t.rates| && t.rates[k].id == id && IsPending(t.rates[k]);
      assert t.rates[k] in rows;
      var i :| 0 <= i < |rows| && rows[i] == t.rates[k];
      assert list[i].id == id;
    }
  }

  // ---------------------------------------------------------------------
  // POST /:id/approve and POST /:id/reject

  /** `update({ where: { id }, data: { approvalStatus: a } })` behind
      `checkRole('SUPERADMIN')` (lines 27-50): the row's approval state becomes
      `a` whatever it was; an unknown id makes the update throw (500). */
  function SetApproval(t: Tables, actor: User, id: Id, a: ApprovalStatus): (r: (Tables, Outcome<PartnerPoints>))
    ensures r.1 == Err(Forbidden) <==> actor.role != SuperAdmin
    ensures r.1 == Err(ServerError) <==> actor.role == SuperAdmin && forall k :: 0 <= k < |t.rates| ==> t.rates[k].id != id
    ensures r.1.Err? ==> r.0 == t
    ensures r.1.Ok? <==> actor.role == SuperAdmin && exists k :: 0 <= k < |t.rates| && t.rates[k].id == id
    ensures r.1.Ok? ==>
      && 0 <= RateIndex(t.rates, id) < |t.rates|
      && r.0.rates == t.rates[RateIndex(t.rates, id) := r.1.value]
      && r.1.value == t.rates[RateIndex(t.rates, id)].(approvalStatus := a)
      && r.1.value.id == id && r.1.value.approvalStatus == a
      && |r.0.rates| == |t.rates|
      && (exists k :: 0 <= k < |t.rates| && t.rates[k].id == id && r.1.value == t.rates[k].(approvalStatus := a))
      && r.0 == t.(rates := r.0.rates)
  {
    if !Permits([SuperAdmin], actor) then (t, Err(Forbidden))
    else
      var i := RateIndex(t.rates, id);
      if i < 0 then (t, Err(ServerError))
      else
        var row := t.rates[i].(approvalStatus := a);
        (t.(rates := t.rates[i := row]), Ok(row))
  }

  function Approve(t: Tables, actor: User, id: Id): (Tables, Outcome<PartnerPoints>) {
    SetApproval(t, actor, id, Approved)
  }

  function Reject(t: Tables, actor: User, id: Id): (Tables, Outcome<PartnerPoints>) {
    SetApproval(t, actor, id, Rejected)
  }

  /** Approving or rejecting twice is approving or rejecting once. */
  lemma SetApprovalIdempotent(t: Tables, actor: User, id: Id, a: ApprovalStatus)
    ensures SetApproval(SetApproval(t, actor, id, a).0, actor, id, a) == SetApproval(t, actor, id, a)
  {
    var r := SetApproval(t, actor, id, a);
    if r.1.Ok? {
      var i := RateIndex(t.rates, id);
      FirstIndexAgrees(r.0.rates, (x: PartnerPoints) => x.id == id, t.rates, (x: PartnerPoints) => x.id == id);
      assert RateIndex(r.0.rates, id) == i;
      assert r.0.rates[i].(approvalStatus := a) == r.1.value;
      assert r.0.rates[i := r.1.value] == r.0.rates;
    }
  }

  /** Only the chosen state counts: approving a row the SUPERADMIN rejected,
      or rejecting one it approved, leaves the row exactly as a single approval
      or rejection of the original table would. */
  lemma LastDecisionWins(t: Tables, actor: User, id: Id, a: ApprovalStatus, b: ApprovalStatus)
    ensures SetApproval(SetApproval(t, actor, id, a).0, actor, id, b) == SetApproval(t, actor, id, b)
  {
    var r := SetApproval(t, actor, id, a);
    if r.1.Ok? {
      FirstIndexAgrees(r.0.rates, (x: PartnerPoints) => x.id == id, t.rates, (x: PartnerPoints) => x.id == id);
      var i := RateIndex(t.rates, id);
      assert r.0.rates[i := r.0.rates[i].(approvalStatus := b)] == t.rates[i := t.rates[i].(approvalStatus := b)];
    }
  }

  /** An approval or a rejection never changes what a lead is priced at:
      `getPartnerPoints` reads the row whatever its approval state. */
  lemma DecisionKeepsPricing(t: Tables, actor: User, id: Id, a: ApprovalStatus, partnerId: Option<Id>, status: Option<LeadStatus>)
    ensures Points.PartnerRate(SetApproval(t, actor, id, a).0.rates, partnerId, status) == Points.PartnerRate(t.rates, partnerId, status)
  {
    if SetApproval(t, actor, id, a).1.Ok? {
      Points.RateIgnoresApproval(t.rates, RateIndex(t.rates, id), a, partnerId, status);
    }
  }

  /** Once approved or rejected, a row is off the pending list. */
  lemma DecidedLeavesPending(t: Tables, actor: User, id: Id, a: ApprovalStatus)
    requires Valid(t) && a != Pending && SetApproval(t, actor, id, a).1.Ok?
    ensures !PendingRow(SetApproval(t, actor, id, a).0.rates, id)
  {
    var rates := SetApproval(t, actor, id, a).0.rates;
    var i := RateIndex(t.rates, id);
    forall k | 0 <= k < |rates| && rates[k].id == id ensures !IsPending(rates[k]) {
      if k != i {
        IncreasingUnique(t.rates, RateId, k, i);
      }
    }
  }

  lemma SetApprovalKeepsValid(t: Tables, actor: User, id: Id, a: ApprovalStatus)
    requires Valid(t)
    ensures Valid(SetApproval(t, actor, id, a).0)
  {
    var r := SetApproval(t, actor, id, a);
    if r.1.Ok? {
      var i := RateIndex(t.rates, id);
      ReplaceChrono(t.rates, i, r.1.value, RateId, RateId, t.tick);
    }
  }

  /** The handler of both routes. */
  method HandleSetApproval(db: Db, actor: User, id: Id, a: ApprovalStatus) returns (r: Outcome<PartnerPoints>)
    modifies db
    ensures (db.Snapshot(), r) == SetApproval(old(db.Snapshot()), actor, id, a)
  {
    if actor.role != SuperAdmin {
      return Err(Forbidden);
    }
    var i := RateIndex(db.rates, id);
    if i < 0 {
      return Err(ServerError);
    }
    var updated := db.rates[i].(approvalStatus := a);
    db.rates := db.rates[i := updated];
    r := Ok(updated);
  }

  // ---------------------------------------------------------------------
  // POST /partner-points

  /** The approval state an upsert stores: APPROVED for a SUPERADMIN, the
      requested state or PENDING for an ADMIN. */
  function FinalApproval(role: Role, requested: Option<ApprovalStatus>): (a: ApprovalStatus)
    ensures role == SuperAdmin ==> a == Approved
    ensures role != SuperAdmin && requested.Some? ==> a == requested.value
    ensures role != SuperAdmin && requested.None? ==> a == Pending
  {
    if role == SuperAdmin then Approved else requested.GetOr(Pending)
  }

  /** `POST /partner-points` behind `checkRole('SUPERADMIN', 'ADMIN')` (lines
      53-86): the three fields are required (`points` must be a number,
      `None` here); the row for (partner, status) gets the points and the
      approval state, or is created when there is none. */
  function SetPartnerPoints(t: Tables, actor: User, partnerId: Option<Id>, status: Option<LeadStatus>,
                            points: Option<int>, approvalStatus: Option<ApprovalStatus>): (r: (Tables, Outcome<PartnerPoints>))
    ensures r.1 == Err(Forbidden) <==> actor.role !in {SuperAdmin, Admin}
    ensures r.1 == Err(BadRequest) <==>
      actor.role in {SuperAdmin, Admin} && (partnerId.None? || status.None? || points.None?)
    ensures r.1.Err? ==> r.0 == t
    ensures r.1.Ok? <==> actor.role in {SuperAdmin, Admin} && partnerId.Some? && status.Some? && points.Some?
    ensures r.1.Ok? ==>
      && r.1.value.partnerId == partnerId.value && r.1.value.status == status.value
      && r.1.value.points == points.value
      && r.1.value.approvalStatus == FinalApproval(actor.role, approvalStatus)
      && r.1.value in r.0.rates
      && r.0 == t.(rates := r.0.rates, tick := r.0.tick)
      && (Points.PartnerRate(t.rates, partnerId, status).Some? ==> |r.0.rates| == |t.rates| && r.0.tick == t.tick)
      && (Points.RateRowIndex(t.rates, partnerId.value, status.value) >= 0 ==>
            && Points.RateRowIndex(t.rates, partnerId.value, status.value) < |t.rates|
            && r.0.rates == t.rates[Points.RateRowIndex(t.rates, partnerId.value, status.value) := r.1.value]
            && r.1.value.id == t.rates[Points.RateRowIndex(t.rates, partnerId.value, status.value)].id)
      && (Points.PartnerRate(t.rates, partnerId, status).None? ==>
            r.0.rates == t.rates + [r.1.value] && r.1.value.id == t.tick && r.0.tick == t.tick + 1)
  {
    if !Permits([SuperAdmin, Admin], actor) then (t, Err(Forbidden))
    else if partnerId.None? || status.None? || points.None? then (t, Err(BadRequest))
    else
      var a := FinalApproval(actor.role, approvalStatus);
      var i := Points.RateRowIndex(t.rates, partnerId.value, status.value);
      if i >= 0 then
        var row := t.rates[i].(points := points.value, approvalStatus := a);
        assert t.rates[i := row][i] == row;
        (t.(rates := t.rates[i := row]), Ok(row))
      else
        var row := PartnerPoints(t.tick, partnerId.value, status.value, points.value, a);
        (t.(rates := t.rates + [row], tick := t.tick + 1), Ok(row))
  }

  /** After a successful upsert the lead pricing finds exactly the points
      just written for (partner, status). */
  lemma UpsertTakesEffect(t: Tables, actor: User, partnerId: Option<Id>, status: Option<LeadStatus>,
                          points: Option<int>, approvalStatus: Option<ApprovalStatus>)
    requires SetPartnerPoints(t, actor, partnerId, status, points, approvalStatus).1.Ok?
    ensures Points.PartnerRate(SetPartnerPoints(t, actor, partnerId, status, points, approvalStatus).0.rates, partnerId, status)
            == points
  {
    var r := SetPartnerPoints(t, actor, partnerId, status, points, approvalStatus);
    var key := (x: PartnerPoints) => x.partnerId == partnerId.value && x.status == status.value;
    var i := Points.RateRowIndex(t.rates, partnerId.value, status.value);
    if i >= 0 {
      FirstIndexAgrees(r.0.rates, key, t.rates, key);
    } else {
      assert key(r.0.rates[|t.rates|]);
    }
  }

  /** The rate for every other (partner, status) pair is untouched. */
  lemma UpsertKeepsOtherRates(t: Tables, actor: User, partnerId: Option<Id>, status: Option<LeadStatus>,
                              points: Option<int>, approvalStatus: Option<ApprovalStatus>, p: Id, s: LeadStatus)
    requires partnerId != Some(p) || status != Some(s)
    ensures Points.PartnerRate(SetPartnerPoints(t, actor, partnerId, status, points, approvalStatus).0.rates, Some(p), Some(s))
            == Points.PartnerRate(t.rates, Some(p), Some(s))
  {
    var r := SetPartnerPoints(t, actor, partnerId, status, points, approvalStatus);
    if r.1.Ok? {
      var i := Points.RateRowIndex(t.rates, partnerId.value, status.value);
      if i >= 0 {
        Points.OtherRateAfterUpdate(t.rates, i, r.1.value, p, s);
      } else {
        Points.OtherRateAfterAppend(t.rates, r.1.value, p, s);
      }
    }
  }

  /** The upsert keeps the table's unique key, and with it the whole table
      invariant. */
  lemma UpsertKeepsValid(t: Tables, actor: User, partnerId: Option<Id>, status: Option<LeadStatus>,
                         points: Option<int>, approvalStatus: Option<ApprovalStatus>)
    requires Valid(t)
    ensures Valid(SetPartnerPoints(t, actor, partnerId, status, points, approvalStatus).0)
  {
    var r := SetPartnerPoints(t, actor, partnerId, status, points, approvalStatus);
    if r.1.Ok? {
      var i := Points.RateRowIndex(t.rates, partnerId.value, status.value);
      if i >= 0 {
        ReplaceChrono(t.rates, i, r.1.value, RateId, RateId, t.tick);
      } else {
        AppendChrono(t.rates, r.1.value, RateId, RateId, t.tick, t.tick + 1);
        ChronoLater(t.users, UserId, UserStamp, t.tick, t.tick + 1);
        ChronoLater(t.hospitals, HospitalId, HospitalStamp, t.tick, t.tick + 1);
        ChronoLater(t.leads, LeadId, LeadStamp, t.tick, t.tick + 1);
        ChronoLater(t.documents, DocumentId, DocumentId, t.tick, t.tick + 1);
        ChronoLater(t.remarks, RemarkId, RemarkStamp, t.tick, t.tick + 1);
      }
    }
  }

  /** A SUPERADMIN's rate is live at once; an ADMIN's rate without a requested
      state waits on the pending list. */
  lemma AdminRateAwaitsApproval(t: Tables, actor: User, partnerId: Option<Id>, status: Option<LeadStatus>,
                                points: Option<int>, approvalStatus: Option<ApprovalStatus>)
    requires SetPartnerPoints(t, actor, partnerId, status, points, approvalStatus).1.Ok?
    ensures var row := SetPartnerPoints(t, actor, partnerId, status, points, approvalStatus).1.value;
      && (actor.role == SuperAdmin ==> !PendingRow([row], row.id))
      && (actor.role == Admin && approvalStatus.None? ==>
            PendingRow(SetPartnerPoints(t, actor, partnerId, status, points, approvalStatus).0.rates, row.id))
  {
    var r := SetPartnerPoints(t, actor, partnerId, status, points, approvalStatus);
    var k :| 0 <= k < |r.0.rates| && r.0.rates[k] == r.1.value;
    assert [r.1.value][0] == r.1.value;
  }

  /** The handler of `POST /partner-points`. */
  method HandleSetPartnerPoints(db: Db, actor: User, partnerId: Option<Id>, status: Option<LeadStatus>,
                                points: Option<int>, approvalStatus: Option<ApprovalStatus>) returns (r: Outcome<PartnerPoints>)
    modifies db
    ensures (db.Snapshot(), r) == SetPartnerPoints(old(db.Snapshot()), actor, partnerId, status, points, approvalStatus)
  {
    if actor.role != SuperAdmin && actor.role != Admin {
      return Err(Forbidden);
    }
    if partnerId.None? || status.None? || points.None? {
      return Err(BadRequest);
    }
    var finalApprovalStatus := Pending;
    if actor.role == SuperAdmin {
      finalApprovalStatus := Approved;
    } else if approvalStatus.Some? {
      finalApprovalStatus := approvalStatus.value;
    }
    var i := Points.RateRowIndex(db.rates, partnerId.value, status.value);
    if i >= 0 {
      var row := db.rates[i].(points := points.value, approvalStatus := finalApprovalStatus);
      db.rates := db.rates[i := row];
      r := Ok(row);
    } else {
      var row := PartnerPoints(db.tick, partnerId.value, status.value, points.value, finalApprovalStatus);
      db.rates, db.tick := db.rates + [row], db.tick + 1;
      r := Ok(row);
    }
  }

  // ---------------------------------------------------------------------
  // GET /partner-points and GET /partner-points/:id

  /** The position of a status in the enum's declaration order, by which
      `orderBy: { status: 'asc' }` sorts. */
  function StatusRank(s: LeadStatus): nat {
    match s
    case New => 0
    case NotReachable => 1
    case NotInterested => 2
    case OpdDone => 3
    case IpdDone => 4
    case Closed => 5
    case Duplicate => 6
    case Deleted => 7
  }

  ghost predicate ByStatus(rows: seq<PartnerPoints>) {
    forall i, j :: 0 <= i < j < |rows| ==> StatusRank(rows[i].status) <= StatusRank(rows[j].status)
  }

  /** `x` placed before the first row of a higher status. */
  function Insert(x: PartnerPoints, rows: seq<PartnerPoints>): seq<PartnerPoints> {
    if rows == [] || StatusRank(x.status) <= StatusRank(rows[0].status) then [x] + rows
    else [rows[0]] + Insert(x, rows[1..])
  }

  /** Inserting into a status-ordered list keeps it ordered; the new head is
      `x` or the old head. */
  lemma {:induction false} InsertSorted(x: PartnerPoints, rows: seq<PartnerPoints>)
    requires ByStatus(rows)
    ensures ByStatus(Insert(x, rows)) && |Insert(x, rows)| == |rows| + 1
    ensures Insert(x, rows)[0] == x || (rows != [] && Insert(x, rows)[0] == rows[0])
  {
    if rows != [] && StatusRank(x.status) > StatusRank(rows[0].status) {
      var rest := Insert(x, rows[1..]);
      InsertSorted(x, rows[1..]);
      assert StatusRank(rows[0].status) <= StatusRank(rest[0].status) by {
        if rest[0] != x {
          assert rest[0] == rows[1];
        }
      }
      var r := [rows[0]] + rest;
      forall i, j | 0 <= i < j < |r| ensures StatusRank(r[i].status) <= StatusRank(r[j].status) {
        if 0 < i {
          assert r[i] == rest[i - 1] && r[j] == rest[j - 1];
        } else if 1 < j {
          assert r[j] == rest[j - 1];
        }
      }
    }
  }

  /** Inserting adds exactly `x`. */
  lemma {:induction false} InsertAddsRow(x: PartnerPoints, rows: seq<PartnerPoints>)
    ensures multiset(Insert(x, rows)) == multiset(rows) + multiset{x}
  {
    if rows != [] && StatusRank(x.status) > StatusRank(rows[0].status) {
      InsertAddsRow(x, rows[1..]);
      assert rows == [rows[0]] + rows[1..];
    }
  }

  /** The rows in status order. */
  function SortByStatus(rows: seq<PartnerPoints>): (r: seq<PartnerPoints>)
    ensures ByStatus(r) && multiset(r) == multiset(rows)
  {
    if rows == [] then []
    else
      var rest := SortByStatus(rows[1..]);
      InsertSorted(rows[0], rest);
      InsertAddsRow(rows[0], rest);
      assert rows == [rows[0]] + rows[1..];
      Insert(rows[0], rest)
  }

  /** `GET /partner-points`: 400 without a partner; otherwise the partner's
      rows ordered by status. */
  function PartnerRates(t: Tables, partnerId: Option<Id>): (r: Outcome<seq<PartnerPoints>>)
    ensures r.Err? <==> partnerId.None?
    ensures r.Err? ==> r.failure == BadRequest
    ensures r.Ok? ==>
      && ByStatus(r.value)
      && multiset(r.value) == multiset(Filter(t.rates, (x: PartnerPoints) => x.partnerId == partnerId.value))
  {
    if partnerId.None? then Err(BadRequest)
    else Ok(SortByStatus(Filter(t.rates, (x: PartnerPoints) => x.partnerId == partnerId.value)))
  }

  /** The list holds the partner's rows and only those. */
  lemma PartnerRatesMembers(t: Tables, p: Id, x: PartnerPoints)
    ensures x in PartnerRates(t, Some(p)).value <==> x in t.rates && x.partnerId == p
  {
    var own := Filter(t.rates, (y: PartnerPoints) => y.partnerId == p);
    var rows := PartnerRates(t, Some(p)).value;
    assert x in rows <==> x in multiset(rows);
    assert x in own <==> x in multiset(own);
  }

  /** With the unique key, a partner's list has one row per status at most,
      in strictly increasing status order. */
  lemma PartnerRatesStrictlyOrdered(t: Tables, p: Id)
    requires UniqueRateKeys(t.rates)
    ensures var rows := PartnerRates(t, Some(p)).value;
      forall i, j :: 0 <= i < j < |rows| ==> StatusRank(rows[i].status) < StatusRank(rows[j].status)
  {
    var rows := PartnerRates(t, Some(p)).value;
    forall i, j | 0 <= i < j < |rows| ensures StatusRank(rows[i].status) < StatusRank(rows[j].status) {
      SameStatusSameRow(t, p, i, j);
      PartnerRowsDistinct(t, p, i, j);
      RankDistinguishes(rows[i].status, rows[j].status);
    }
  }

  /** Different statuses have different ranks. */
  lemma RankDistinguishes(a: LeadStatus, b: LeadStatus)
    ensures StatusRank(a) == StatusRank(b) ==> a == b
  {
  }

  /** Two entries of a partner's list with the same status are the same row
      of the table. */
  lemma SameStatusSameRow(t: Tables, p: Id, i: nat, j: nat)
    requires UniqueRateKeys(t.rates)
    requires i < j < |PartnerRates(t, Some(p)).value|
    ensures PartnerRates(t, Some(p)).value[i].status == PartnerRates(t, Some(p)).value[j].status ==>
      PartnerRates(t, Some(p)).value[i] == PartnerRates(t, Some(p)).value[j]
  {
    var rows := PartnerRates(t, Some(p)).value;
    if rows[i].status == rows[j].status {
      PartnerRatesMembers(t, p, rows[i]);
      PartnerRatesMembers(t, p, rows[j]);
      var a :| 0 <= a < |t.rates| && t.rates[a] == rows[i];
      var b :| 0 <= b < |t.rates| && t.rates[b] == rows[j];
      assert a == b;
    }
  }

  /** With the unique key, no row appears twice in a partner's list. */
  lemma PartnerRowsDistinct(t: Tables, p: Id, i: nat, j: nat)
    requires UniqueRateKeys(t.rates)
    requires i < j < |PartnerRates(t, Some(p)).value|
    ensures PartnerRates(t, Some(p)).value[i] != PartnerRates(t, Some(p)).value[j]
  {
    var rows := PartnerRates(t, Some(p)).value;
    PartnerRatesMembers(t, p, rows[i]);
    var a :| 0 <= a < |t.rates| && t.rates[a] == rows[i];
    FilterOnce(t.rates, (x: PartnerPoints) => x.partnerId == p, a);
    TwoCopies(rows, i, j);
  }

  /** Two equal entries of `rows` make its multiset count that value twice. */
  lemma TwoCopies(rows: seq<PartnerPoints>, i: nat, j: nat)
    requires i < j < |rows|
    ensures rows[i] == rows[j] ==> multiset(rows)[rows[i]] >= 2
  {
    if rows[i] == rows[j] {
      var x := rows[i];
      assert rows == rows[..i] + [x] + rows[i + 1..j] + [x] + rows[j + 1..];
    }
  }

  /** With the unique key no row occurs twice, so a filter keeps each once. */
  lemma FilterOnce(rates: seq<PartnerPoints>, p: PartnerPoints -> bool, a: nat)
    requires UniqueRateKeys(rates) && a < |rates|
    ensures multiset(Filter(rates, p))[rates[a]] <= 1
  {
    FilterCount(rates, p, rates[a]);
    assert forall k :: 0 <= k < |rates| && rates[k] == rates[a] ==> k == a;
    CountOnce(rates, rates[a], a);
  }

  lemma {:induction false} FilterCount(s: seq<PartnerPoints>, p: PartnerPoints -> bool, x: PartnerPoints)
    ensures multiset(Filter(s, p))[x] <= multiset(s)[x]
  {
    if s != [] {
      FilterCount(s[1..], p, x);
      assert s == [s[0]] + s[1..];
    }
  }

  lemma CountOnce(s: seq<PartnerPoints>, x: PartnerPoints, a: nat)
    requires a < |s| && s[a] == x && forall k :: 0 <= k < |s| && s[k] == x ==> k == a
    ensures multiset(s)[x] == 1
  {
    assert s == s[..a] + [x] + s[a + 1..];
    assert x !in s[..a] && x !in s[a + 1..];
  }

  /** `GET /partner-points/:id`: the row with that id, or 404. */
  function GetRate(t: Tables, id: Id): (r: Outcome<PartnerPoints>)
    ensures r.Err? <==> forall k :: 0 <= k < |t.rates| ==> t.rates[k].id != id
    ensures r.Err? ==> r.failure == NotFound
    ensures r.Ok? ==> r.value in t.rates && r.value.id == id
  {
    var i := RateIndex(t.rates, id);
    if i < 0 then Err(NotFound) else Ok(t.rates[i])
  }
}
