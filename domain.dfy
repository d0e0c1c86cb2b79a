/** The entities of the partner management system: roles, the lead status
    lifecycle, partner point rates, users, hospitals, leads with their
    documents and remarks, and the failures a route can answer with. */
module Domain {

  /** Row identifiers. The database uses opaque unique strings; the model only
      needs equality and a supply of fresh values. */
  type Id = nat

  datatype Option<+T> = None | Some(value: T) {
    /** JavaScript's `a ?? b` and `a || b` on an optional value. */
    function OrElse(other: Option<T>): Option<T> {
      if Some? then this else other
    }

    function GetOr(default: T): T {
      if Some? then value else default
    }
  }

  datatype Role = SuperAdmin | Admin | Partner | SalesPerson

  /** The eight lead statuses, in the order the system lists them. */
  datatype LeadStatus =
    | New | NotReachable | NotInterested | OpdDone | IpdDone | Closed | Duplicate | Deleted

  datatype ApprovalStatus = Pending | Approved | Rejected

  /** The account status of a user: `ACTIVE`, `ONBOARDING`, and `REJECTED`
      (named Refused here, as Rejected already names an approval status). */
  datatype UserStatus = Active | Onboarding | Refused

  datatype User = User(
    id: Id,
    email: string,
    firstName: string,
    lastName: string,
    role: Role,
    hospitalId: Option<Id>,
    isActive: bool,
    status: UserStatus,
    phone: Option<string>,
    createdAt: nat)

  /** The descriptive columns of a hospital, each nullable. */
  datatype HospitalInfo = HospitalInfo(
    name: Option<string>,
    address: Option<string>,
    city: Option<string>,
    state: Option<string>,
    country: Option<string>,
    phone: Option<string>,
    email: Option<string>)

  datatype Hospital = Hospital(id: Id, info: HospitalInfo, isActive: bool, createdAt: nat)

  datatype Lead = Lead(
    id: Id,
    name: string,
    phone: string,
    remarks: Option<string>,
    status: LeadStatus,
    points: int,
    partnerId: Option<Id>,
    hospitalId: Id,
    createdById: Id,
    salesPersonId: Option<Id>,
    specialisation: Option<string>,
    isDeleted: bool,
    createdAt: nat)

  datatype LeadDocument = LeadDocument(id: Id, leadId: Id, fileUrl: string)

  datatype LeadRemark = LeadRemark(
    id: Id,
    leadId: Id,
    userId: Id,
    message: string,
    fileUrl: Option<string>,
    createdAt: nat)

  /** A partner-specific point rate for one lead status. */
  datatype PartnerPoints = PartnerPoints(
    id: Id,
    partnerId: Id,
    status: LeadStatus,
    points: int,
    approvalStatus: ApprovalStatus)

  /** What a route answers instead of its normal result. */
  datatype Failure =
    | BadRequest
    | DuplicatePhone(duplicate: Lead)  // 400, carrying the DUPLICATE audit row
    | Unauthorized
    | Forbidden
    | NotFound
    | ServerError                      // a database call threw; the route answers 500
  {
    function Code(): nat {
      match this
      case BadRequest => 400
      case DuplicatePhone(_) => 400
      case Unauthorized => 401
      case Forbidden => 403
      case NotFound => 404
      case ServerError => 500
    }
  }

  datatype Outcome<+T> = Ok(value: T) | Err(failure: Failure)

  predicate IsDigit(c: char) {
    '0' <= c <= '9'
  }

  /** The regular expression `^\d{10}$`: exactly ten ASCII digits. */
  predicate TenDigits(s: string) {
    |s| == 10 && forall i :: 0 <= i < |s| ==> IsDigit(s[i])
  }

  /** `${first} ${last}`, as the routes print a related user's name. */
  function FullName(u: User): string {
    u.firstName + " " + u.lastName
  }
}
