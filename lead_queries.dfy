/** The lead routes that only read (leads.js): the role-scoped list and
    export, the duplicate list, a single lead, and the status analytics. The
    list and export handlers build their `where` object step by step as the
    routes do; the query itself is `Query`, and each handler is proved to
    return exactly the leads a plain statement of the route's visibility rule
    selects. */
module LeadQueries {
  import opened Domain
  import opened Seqs
  import opened Store
  import Auth

  /** A Prisma `where` over leads; an absent field does not constrain. */
  datatype LeadWhere = LeadWhere(
    live: bool,
    partnerId: Option<Id>,
    hospitalId: Option<Id>,
    status: Option<LeadStatus>,
    salesPersonId: Option<Id>,
    createdById: Option<Id>,
    from: Option<nat>,
    to: Option<nat>)

  const Live: LeadWhere := LeadWhere(true, None, None, None, None, None, None, None)

  predicate Matches(w: LeadWhere, l: Lead) {
    && (w.live ==> !l.isDeleted)
    && (w.partnerId.Some? ==> l.partnerId == w.partnerId)
    && (w.hospitalId.Some? ==> l.hospitalId == w.hospitalId.value)
    && (w.status.Some? ==> l.status == w.status.value)
    && (w.salesPersonId.Some? ==> l.salesPersonId == w.salesPersonId)
    && (w.createdById.Some? ==> l.createdById == w.createdById.value)
    && (w.from.Some? ==> w.from.value <= l.createdAt)
    && (w.to.Some? ==> l.createdAt <= w.to.value)
  }

  /** `lead.findMany({ where })` over the chronological lead table. */
  function Query(leads: seq<Lead>, w: LeadWhere): seq<Lead> {
    Filter(leads, (l: Lead) => Matches(w, l))
  }

  /** The query string of `GET /leads`; `includeDeleted` is any non-empty
      value. */
  datatype ListQuery = ListQuery(status: Option<LeadStatus>, includeDeleted: bool)

  predicate IsAdministrator(actor: User) {
    actor.role == SuperAdmin || actor.role == Admin
  }

  /** Which leads `GET /leads` shows: a PARTNER its own; an ADMIN or SALES
      PERSON with a hospital that hospital's (without one, every hospital's);
      a SUPERADMIN every lead; only the requested status; deleted leads only
      when a SUPERADMIN or ADMIN asks for them. DUPLICATE rows are not set
      apart. */
  ghost predicate Listed(actor: User, q: ListQuery, l: Lead) {
    && (!(q.includeDeleted && IsAdministrator(actor)) ==> !l.isDeleted)
    && (actor.role == Partner ==> l.partnerId == Some(actor.id))
    && (actor.role != Partner && actor.role != SuperAdmin && actor.hospitalId.Some? ==>
          l.hospitalId == actor.hospitalId.value)
    && (q.status.Some? ==> l.status == q.status.value)
  }

  /** `GET /leads` (leads.js lines 159-181), newest first. */
  method ListLeads(db: Db, actor: User, q: ListQuery) returns (leads: seq<Lead>)
    ensures leads == Reverse(Filter(db.leads, (l: Lead) => Listed(actor, q, l)))
  {
    var where := Live;
    if actor.role == Partner {
      where := where.(partnerId := Some(actor.id));
    } else if actor.role != SuperAdmin && actor.hospitalId.Some? {
      where := where.(hospitalId := actor.hospitalId);
    }
    if q.status.Some? {
      where := where.(status := q.status);
    }
    if q.includeDeleted && (actor.role == SuperAdmin || actor.role == Admin) {
      where := where.(live := false);
    }
    FilterSame(db.leads, (l: Lead) => Matches(where, l), (l: Lead) => Listed(actor, q, l));
    leads := Reverse(Query(db.leads, where));
  }

  /** In a chronological table the list is newest first. */
  lemma {:induction false} NewestFirst(leads: seq<Lead>, p: Lead -> bool, tick: nat)
    requires Chrono(leads, LeadId, LeadStamp, tick)
    ensures forall i, j :: 0 <= i < j < |Reverse(Filter(leads, p))| ==>
      Reverse(Filter(leads, p))[i].createdAt > Reverse(Filter(leads, p))[j].createdAt
  {
    FilterIncreasing(leads, p, LeadStamp);
  }

  /** A PARTNER lists only leads credited to it. */
  lemma PartnerListsOwnLeads(leads: seq<Lead>, actor: User, q: ListQuery, l: Lead)
    requires actor.role == Partner && l in Reverse(Filter(leads, (l: Lead) => Listed(actor, q, l)))
    ensures l.partnerId == Some(actor.id) && !l.isDeleted && l in leads
  {
    var r := Reverse(Filter(leads, (l: Lead) => Listed(actor, q, l)));
    var i :| 0 <= i < |r| && r[i] == l;
    assert l in Filter(leads, (l: Lead) => Listed(actor, q, l));
  }

  /** An ADMIN without a hospital is not scoped: it lists the live leads of
      every hospital. */
  lemma UnscopedAdminListsEverything(actor: User, q: ListQuery, l: Lead)
    requires actor.role == Admin && actor.hospitalId.None? && q == ListQuery(None, false)
    ensures Listed(actor, q, l) <==> !l.isDeleted
  {
  }

  /** The query string of `GET /leads/export`; dates are creation stamps. */
  datatype ExportQuery = ExportQuery(
    from: Option<nat>,
    to: Option<nat>,
    partnerId: Option<Id>,
    status: Option<LeadStatus>,
    salesPersonId: Option<Id>,
    adminId: Option<Id>)

  /** Which leads the export holds: live leads only; the requested partner
      (replaced by the actor itself for a PARTNER), status, sales person and
      date range; the requested author only for a SUPERADMIN; and the hospital
      scope of the list. */
  ghost predicate Exported(actor: User, q: ExportQuery, l: Lead) {
    && !l.isDeleted
    && (actor.role == Partner ==> l.partnerId == Some(actor.id))
    && (actor.role != Partner && q.partnerId.Some? ==> l.partnerId == q.partnerId)
    && (q.status.Some? ==> l.status == q.status.value)
    && (q.salesPersonId.Some? ==> l.salesPersonId == q.salesPersonId)
    && (q.from.Some? ==> q.from.value <= l.createdAt)
    && (q.to.Some? ==> l.createdAt <= q.to.value)
    && (q.adminId.Some? && actor.role == SuperAdmin ==> l.createdById == q.adminId.value)
    && (actor.role != Partner && actor.role != SuperAdmin && actor.hospitalId.Some? ==>
          l.hospitalId == actor.hospitalId.value)
  }

  /** One spreadsheet row. */
  datatype ExportRow = ExportRow(
    name: string,
    phone: string,
    status: LeadStatus,
    points: int,
    remarks: Option<string>,
    partner: string,
    salesPerson: string,
    hospital: Option<string>,
    createdBy: string,
    createdAt: nat)

  /** The full name of the referenced user, or "" when there is none. */
  function NameOf(users: seq<User>, id: Option<Id>): string {
    if id.None? then ""
    else match FindUser(users, id.value)
      case None => ""
      case Some(u) => FullName(u)
  }

  /** The row mapping of the export (leads.js lines 214-225). */
  function RowOf(users: seq<User>, hospitals: seq<Hospital>, l: Lead): ExportRow {
    ExportRow(l.name, l.phone, l.status, l.points, l.remarks,
              NameOf(users, l.partnerId), NameOf(users, l.salesPersonId),
              match FindHospital(hospitals, l.hospitalId) case None => Some("") case Some(h) => h.info.name,
              NameOf(users, Some(l.createdById)), l.createdAt)
  }

  /** In a table with distinct ids, a referenced user's column holds that
      user's "first last" name. */
  lemma {:induction false} NameOfUser(users: seq<User>, k: nat)
    requires Increasing(users, UserId) && k < |users|
    ensures NameOf(users, Some(users[k].id)) == users[k].firstName + " " + users[k].lastName
  {
    var i := UserIndex(users, users[k].id);
    IncreasingUnique(users, UserId, i, k);
  }

  /** `GET /leads/export` (leads.js lines 184-238): the rows of the matching
      leads, in table order. */
  method Export(db: Db, actor: User, q: ExportQuery) returns (rows: seq<ExportRow>)
    ensures |rows| == |Filter(db.leads, (l: Lead) => Exported(actor, q, l))|
    ensures forall i :: 0 <= i < |rows| ==>
      rows[i] == RowOf(db.users, db.hospitals, Filter(db.leads, (l: Lead) => Exported(actor, q, l))[i])
  {
    var where := Live;
    if q.partnerId.Some? {
      where := where.(partnerId := q.partnerId);
    }
    if q.status.Some? {
      where := where.(status := q.status);
    }
    if q.salesPersonId.Some? {
      where := where.(salesPersonId := q.salesPersonId);
    }
    if q.from.Some? || q.to.Some? {
      where := where.(from := q.from, to := q.to);
    }
    if q.adminId.Some? && actor.role == SuperAdmin {
      where := where.(createdById := q.adminId);
    }
    if actor.role == Partner {
      where := where.(partnerId := Some(actor.id));
    } else if actor.role != SuperAdmin && actor.hospitalId.Some? {
      where := where.(hospitalId := actor.hospitalId);
    }
    var leads := Query(db.leads, where);
    FilterSame(db.leads, (l: Lead) => Matches(where, l), (l: Lead) => Exported(actor, q, l));
    var users, hospitals := db.users, db.hospitals;
    rows := seq(|leads|, i requires 0 <= i < |leads| => RowOf(users, hospitals, leads[i]));
  }

  /** `GET /leads/duplicates` (leads.js lines 241-253): SUPERADMIN and ADMIN
      only, the live DUPLICATE rows of every hospital, newest first. */
  function Duplicates(t: Tables, actor: User): (r: Outcome<seq<Lead>>)
    ensures r.Err? <==> !Auth.Permits([Admin, SuperAdmin], actor)
    ensures r.Err? ==> r.failure == Forbidden
    ensures r.Ok? ==> forall l :: l in r.value <==> l in t.leads && l.status == Duplicate && !l.isDeleted
  {
    if !Auth.Permits([Admin, SuperAdmin], actor) then Err(Forbidden)
    else
      ReverseSameMembers(Filter(t.leads, LiveDuplicate));
      Ok(Reverse(Filter(t.leads, LiveDuplicate)))
  }

  /** The `where` of the duplicates query. */
  predicate LiveDuplicate(l: Lead) {
    l.status == Duplicate && !l.isDeleted
  }

  /** The duplicates come newest first. */
  lemma DuplicatesNewestFirst(t: Tables, actor: User)
    requires Valid(t) && Duplicates(t, actor).Ok?
    ensures forall i, j :: 0 <= i < j < |Duplicates(t, actor).value| ==>
      Duplicates(t, actor).value[i].createdAt > Duplicates(t, actor).value[j].createdAt
  {
    NewestFirst(t.leads, LiveDuplicate, t.tick);
  }

  /** `GET /leads/:id` (leads.js lines 256-270): any authenticated user may
      read any live lead, of any hospital; deleted ones only SUPERADMIN and
      ADMIN. */
  function GetLead(t: Tables, actor: User, id: Id): (r: Outcome<(Lead, seq<LeadDocument>)>)
    ensures r.Err? <==>
      FindLead(t.leads, id).None? || (FindLead(t.leads, id).value.isDeleted && !IsAdministrator(actor))
    ensures r.Err? ==> r.failure == NotFound
    ensures r.Ok? ==>
      r.value.0 in t.leads && r.value.0.id == id &&
      forall d :: d in r.value.1 <==> d in t.documents && d.leadId == id
  {
    match FindLead(t.leads, id)
    case None => Err(NotFound)
    case Some(lead) =>
      if lead.isDeleted && actor.role != SuperAdmin && actor.role != Admin then Err(NotFound)
      else Ok((lead, DocumentsOf(t.documents, id)))
  }

  /** The statuses `/analytics` counts: every status but DUPLICATE. */
  const AnalyticsStatuses: seq<LeadStatus> := [New, NotReachable, NotInterested, OpdDone, IpdDone, Closed, Deleted]

  /** `lead.count({ where: { status, isDeleted: false } })`. */
  function CountLive(leads: seq<Lead>, s: LeadStatus): nat {
    if leads == [] then 0
    else CountLive(leads[1..], s) + (if leads[0].status == s && !leads[0].isDeleted then 1 else 0)
  }

  /** The live leads. */
  function LiveCount(leads: seq<Lead>): nat {
    if leads == [] then 0 else LiveCount(leads[1..]) + (if leads[0].isDeleted then 0 else 1)
  }

  /** `_sum.points` over live leads that are not CLOSED, or 0 when there are none. */
  function LivePoints(leads: seq<Lead>): int {
    if leads == [] then 0
    else LivePoints(leads[1..]) + (if leads[0].status != Closed && !leads[0].isDeleted then leads[0].points else 0)
  }

  /** `GET /leads/analytics` (leads.js lines 383-405), as a standalone
      computation: one count per listed status, and the points total. */
  method Analytics(leads: seq<Lead>) returns (statusCounts: map<LeadStatus, nat>, totalPoints: int)
    ensures statusCounts.Keys == set s | s in AnalyticsStatuses
    ensures forall s :: s in statusCounts ==> statusCounts[s] == CountLive(leads, s)
    ensures totalPoints == LivePoints(leads)
  {
    statusCounts := map[];
    for i := 0 to |AnalyticsStatuses|
      invariant statusCounts.Keys == set s | s in AnalyticsStatuses[..i]
      invariant forall s :: s in statusCounts ==> statusCounts[s] == CountLive(leads, s)
    {
      var status := AnalyticsStatuses[i];
      assert AnalyticsStatuses[..i + 1] == AnalyticsStatuses[..i] + [status];
      statusCounts := statusCounts[status := CountLive(leads, status)];
    }
    assert AnalyticsStatuses[..|AnalyticsStatuses|] == AnalyticsStatuses;
    totalPoints := LivePoints(leads);
  }

  /** The eight status counts partition the live leads; the seven the
      analytics report therefore miss exactly the live DUPLICATE rows. */
  lemma {:induction false} CountsPartitionLiveLeads(leads: seq<Lead>)
    ensures CountLive(leads, New) + CountLive(leads, NotReachable) + CountLive(leads, NotInterested)
          + CountLive(leads, OpdDone) + CountLive(leads, IpdDone) + CountLive(leads, Closed)
          + CountLive(leads, Deleted) + CountLive(leads, Duplicate) == LiveCount(leads)
  {
    if leads != [] {
      CountsPartitionLiveLeads(leads[1..]);
    }
  }

  lemma {:induction false} LivePointsAppend(leads: seq<Lead>, l: Lead)
    ensures LivePoints(leads + [l]) == LivePoints(leads) + (if l.status != Closed && !l.isDeleted then l.points else 0)
  {
    if leads != [] {
      assert (leads + [l])[1..] == leads[1..] + [l];
      LivePointsAppend(leads[1..], l);
    } else {
      assert ([] + [l])[1..] == [];
    }
  }

  /** A CLOSED lead never adds to the points total. */
  lemma ClosedLeadAddsNoPoints(leads: seq<Lead>, l: Lead)
    requires l.status == Closed
    ensures LivePoints(leads + [l]) == LivePoints(leads)
  {
    LivePointsAppend(leads, l);
  }
}
