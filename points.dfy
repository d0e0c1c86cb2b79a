/** How many points a lead is worth: the default per status, a truthy
    override, and the partner-specific rate looked up by (partner, status). */
module Points {
  import opened Domain
  import opened Seqs
  import Store

  /** `STATUS_POINTS[status] || 0`. */
  function StatusPoints(status: LeadStatus): (p: nat)
    ensures status == New ==> p == 100
    ensures status == OpdDone ==> p == 200
    ensures status == IpdDone ==> p == 3500
    ensures status !in {New, OpdDone, IpdDone} ==> p == 0
  {
    match status
    case New => 100
    case OpdDone => 200
    case IpdDone => 3500
    case _ => 0
  }

  /** A JavaScript-truthy override: present and not 0. */
  predicate Truthy(override: Option<int>) {
    override.Some? && override.value != 0
  }

  /** `getPoints(status, override)`: a truthy override is returned verbatim,
      otherwise the status default. */
  function GetPoints(status: LeadStatus, override: Option<int>): (p: int)
    ensures Truthy(override) ==> p == override.value
    ensures !Truthy(override) ==> p == StatusPoints(status)
  {
    if Truthy(override) then override.value else StatusPoints(status)
  }

  function RateRowIndex(rates: seq<PartnerPoints>, partnerId: Id, status: LeadStatus): int {
    FirstIndex(rates, (r: PartnerPoints) => r.partnerId == partnerId && r.status == status)
  }

  /** `getPartnerPoints(partnerId, status)`: the points of the rate row for
      (partner, status), in whatever approval state it is, or none. */
  function PartnerRate(rates: seq<PartnerPoints>, partnerId: Option<Id>, status: Option<LeadStatus>): (r: Option<int>)
    ensures r.Some? <==>
      partnerId.Some? && status.Some? &&
      exists k :: 0 <= k < |rates| && rates[k].partnerId == partnerId.value && rates[k].status == status.value
    ensures r.Some? ==>
      exists k :: 0 <= k < |rates| && rates[k].partnerId == partnerId.value && rates[k].status == status.value
                  && rates[k].points == r.value
  {
    if partnerId.None? || status.None? then None
    else
      var i := RateRowIndex(rates, partnerId.value, status.value);
      if i < 0 then None else Some(rates[i].points)
  }

  /** With the table's unique key, the rate found is the row's own points. */
  lemma RateOfRow(rates: seq<PartnerPoints>, k: nat)
    requires Store.UniqueRateKeys(rates) && k < |rates|
    ensures PartnerRate(rates, Some(rates[k].partnerId), Some(rates[k].status)) == Some(rates[k].points)
  {
    var i := RateRowIndex(rates, rates[k].partnerId, rates[k].status);
    assert i == k;
  }

  /** The approval state of a rate never changes the rate found: a PENDING or
      REJECTED row counts exactly like an APPROVED one. */
  lemma RateIgnoresApproval(rates: seq<PartnerPoints>, k: nat, a: ApprovalStatus, partnerId: Option<Id>, status: Option<LeadStatus>)
    requires k < |rates|
    ensures PartnerRate(rates[k := rates[k].(approvalStatus := a)], partnerId, status) == PartnerRate(rates, partnerId, status)
  {
    if partnerId.Some? && status.Some? {
      var rates' := rates[k := rates[k].(approvalStatus := a)];
      var key := (r: PartnerPoints) => r.partnerId == partnerId.value && r.status == status.value;
      FirstIndexAgrees(rates', key, rates, key);
    }
  }

  /** Rewriting the points or approval of the row of another key leaves
      the rate of (partner, status) as it was. */
  lemma OtherRateAfterUpdate(rates: seq<PartnerPoints>, k: nat, row: PartnerPoints, partnerId: Id, status: LeadStatus)
    requires k < |rates| && row.partnerId == rates[k].partnerId && row.status == rates[k].status
    requires row.partnerId != partnerId || row.status != status
    ensures PartnerRate(rates[k := row], Some(partnerId), Some(status)) == PartnerRate(rates, Some(partnerId), Some(status))
  {
    var key := (r: PartnerPoints) => r.partnerId == partnerId && r.status == status;
    FirstIndexAgrees(rates[k := row], key, rates, key);
  }

  /** Appending the row of another key leaves the rate of (partner, status)
      as it was. */
  lemma OtherRateAfterAppend(rates: seq<PartnerPoints>, row: PartnerPoints, partnerId: Id, status: LeadStatus)
    requires row.partnerId != partnerId || row.status != status
    ensures PartnerRate(rates + [row], Some(partnerId), Some(status)) == PartnerRate(rates, Some(partnerId), Some(status))
  {
    var key := (r: PartnerPoints) => r.partnerId == partnerId && r.status == status;
    FirstIndexAppendMiss(rates, row, key);
    var i := RateRowIndex(rates, partnerId, status);
    if i >= 0 {
      assert (rates + [row])[i] == rates[i];
    }
  }

  /** The points of a new lead (leads.js lines 80-84): the status default or a
      truthy override, replaced by the partner's rate for the status (defaulting
      to NEW) whenever a partner is given and has one. */
  function CreationPoints(status: Option<LeadStatus>, override: Option<int>, partnerId: Option<Id>, rates: seq<PartnerPoints>): (p: int)
    ensures partnerId.Some? && PartnerRate(rates, partnerId, Some(status.GetOr(New))).Some? ==>
      p == PartnerRate(rates, partnerId, Some(status.GetOr(New))).value
    ensures (partnerId.None? || PartnerRate(rates, partnerId, Some(status.GetOr(New))).None?) ==>
      p == GetPoints(status.GetOr(New), override)
  {
    var points := GetPoints(status.GetOr(New), override);
    if partnerId.Some? then
      match PartnerRate(rates, partnerId, Some(status.GetOr(New)))
      case Some(custom) => custom
      case None => points
    else points
  }

  /** The points of an updated lead (leads.js lines 279-289): a truthy override
      from a SUPERADMIN is taken as it is; otherwise a status change re-prices
      the lead at its partner's rate for the new status or at that status's
      default; otherwise the points stay. */
  function UpdatedPoints(lead: Lead, role: Role, status: Option<LeadStatus>, override: Option<int>, rates: seq<PartnerPoints>): (p: int)
    ensures Truthy(override) && role == SuperAdmin ==> p == override.value
    ensures !(Truthy(override) && role == SuperAdmin) && status.Some? && status.value != lead.status ==>
      p == (if lead.partnerId.Some? && PartnerRate(rates, lead.partnerId, status).Some?
            then PartnerRate(rates, lead.partnerId, status).value
            else StatusPoints(status.value))
    ensures !(Truthy(override) && role == SuperAdmin) && (status.None? || status.value == lead.status) ==>
      p == lead.points
  {
    if Truthy(override) && role == SuperAdmin then override.value
    else if status.Some? && status.value != lead.status then
      var custom := if lead.partnerId.Some? then PartnerRate(rates, lead.partnerId, status) else None;
      if custom.Some? then custom.value else GetPoints(status.value, None)
    else lead.points
  }

  /** A partner rate wins over a truthy override at creation, whoever creates
      the lead. */
  lemma RateBeatsOverrideAtCreation(status: Option<LeadStatus>, override: Option<int>, partnerId: Id, rates: seq<PartnerPoints>, k: nat)
    requires Store.UniqueRateKeys(rates) && k < |rates|
    requires rates[k].partnerId == partnerId && rates[k].status == status.GetOr(New)
    ensures CreationPoints(status, override, Some(partnerId), rates) == rates[k].points
  {
    RateOfRow(rates, k);
  }
}
