/** The relational state every route reads and writes: one table per entity,
    and a counter that supplies fresh ids and creation stamps. */
module Store {
  import opened Domain
  import opened Seqs

  datatype Tables = Tables(
    users: seq<User>,
    hospitals: seq<Hospital>,
    leads: seq<Lead>,
    documents: seq<LeadDocument>,
    remarks: seq<LeadRemark>,
    rates: seq<PartnerPoints>,
    tick: nat)

  function UserId(u: User): int { u.id }
  function UserStamp(u: User): int { u.createdAt }
  function HospitalId(h: Hospital): int { h.id }
  function HospitalStamp(h: Hospital): int { h.createdAt }
  function LeadId(l: Lead): int { l.id }
  function LeadStamp(l: Lead): int { l.createdAt }
  function DocumentId(d: LeadDocument): int { d.id }
  function DocumentLead(d: LeadDocument): int { d.leadId }
  function RemarkId(r: LeadRemark): int { r.id }
  function RemarkStamp(r: LeadRemark): int { r.createdAt }
  function RateId(r: PartnerPoints): int { r.id }

  /** At most one rate row per (partner, status): the table's unique key. */
  ghost predicate UniqueRateKeys(rates: seq<PartnerPoints>) {
    forall i, j :: 0 <= i < j < |rates| ==>
      rates[i].partnerId != rates[j].partnerId || rates[i].status != rates[j].status
  }

  /** The table invariant: every table lists its rows in creation order with
      distinct ids below the counter (rows without a creation stamp use their
      id), documents refer to ids already handed out, and the rate table keeps
      its unique key. */
  ghost predicate Valid(t: Tables) {
    && Chrono(t.users, UserId, UserStamp, t.tick)
    && Chrono(t.hospitals, HospitalId, HospitalStamp, t.tick)
    && Chrono(t.leads, LeadId, LeadStamp, t.tick)
    && Chrono(t.documents, DocumentId, DocumentId, t.tick)
    && Below(t.documents, DocumentLead, t.tick)
    && Chrono(t.remarks, RemarkId, RemarkStamp, t.tick)
    && Chrono(t.rates, RateId, RateId, t.tick)
    && UniqueRateKeys(t.rates)
  }

  function UserIndex(users: seq<User>, id: Id): int {
    FirstIndex(users, (u: User) => u.id == id)
  }

  /** `prisma.user.findUnique({ where: { id } })`. */
  function FindUser(users: seq<User>, id: Id): (r: Option<User>)
    ensures r.Some? ==> r.value in users && r.value.id == id
    ensures r.None? <==> forall k :: 0 <= k < |users| ==> users[k].id != id
  {
    var i := UserIndex(users, id);
    if i < 0 then None else Some(users[i])
  }

  function HospitalIndex(hospitals: seq<Hospital>, id: Id): int {
    FirstIndex(hospitals, (h: Hospital) => h.id == id)
  }

  function FindHospital(hospitals: seq<Hospital>, id: Id): (r: Option<Hospital>)
    ensures r.Some? ==> r.value in hospitals && r.value.id == id
    ensures r.None? <==> forall k :: 0 <= k < |hospitals| ==> hospitals[k].id != id
  {
    var i := HospitalIndex(hospitals, id);
    if i < 0 then None else Some(hospitals[i])
  }

  function LeadIndex(leads: seq<Lead>, id: Id): int {
    FirstIndex(leads, (l: Lead) => l.id == id)
  }

  function FindLead(leads: seq<Lead>, id: Id): (r: Option<Lead>)
    ensures r.Some? ==> r.value in leads && r.value.id == id
    ensures r.None? <==> forall k :: 0 <= k < |leads| ==> leads[k].id != id
  {
    var i := LeadIndex(leads, id);
    if i < 0 then None else Some(leads[i])
  }

  function RateIndex(rates: seq<PartnerPoints>, id: Id): int {
    FirstIndex(rates, (r: PartnerPoints) => r.id == id)
  }

  /** The documents attached to a lead (`include: { documents: true }`). */
  function DocumentsOf(documents: seq<LeadDocument>, leadId: Id): seq<LeadDocument> {
    Filter(documents, (d: LeadDocument) => d.leadId == leadId)
  }

  /** The in-memory database the route handlers share. */
  class Db {
    var users: seq<User>
    var hospitals: seq<Hospital>
    var leads: seq<Lead>
    var documents: seq<LeadDocument>
    var remarks: seq<LeadRemark>
    var rates: seq<PartnerPoints>
    var tick: nat

    function Snapshot(): Tables
      reads this
    {
      Tables(users, hospitals, leads, documents, remarks, rates, tick)
    }

    /** A database holding the given tables. */
    constructor (t: Tables)
      ensures Snapshot() == t
    {
      users, hospitals, leads := t.users, t.hospitals, t.leads;
      documents, remarks, rates := t.documents, t.remarks, t.rates;
      tick := t.tick;
    }
  }
}
