/**
 The record types of the loan dashboard: an application, the status it is in,
 the applicant-supplied part of it, and the derived statistics record.
 */
module LoanTypes {

  /** An optional value; `None` plays the part of `undefined`. */
  datatype Option<+T> = None | Some(value: T)

  /** The status of an application. The type is closed: these three and no other. */
  datatype Status = Pending | Approved | Rejected

  /** The wire name of a status, as stored in the record. */
  function StatusName(s: Status): (r: string)
  {
    match s
    case Pending => "pending"
    case Approved => "approved"
    case Rejected => "rejected"
  }

  /** Reads a wire name back into a status; any other string is not a status. */
  function ParseStatus(t: string): (r: Option<Status>)
    ensures r.Some? ==> StatusName(r.value) == t
  {
    if t == "pending" then Some(Pending)
    else if t == "approved" then Some(Approved)
    else if t == "rejected" then Some(Rejected)
    else None
  }

  /** Every status survives a round trip through its wire name, so the names are distinct. */
  lemma ParseStatusName(s: Status)
    ensures ParseStatus(StatusName(s)) == Some(s)
  {
  }

  /** A string is a status name exactly when it is one of the three names. */
  lemma StatusNamesClosed(t: string)
    ensures ParseStatus(t).Some? <==> t == "pending" || t == "approved" || t == "rejected"
  {
  }

  /**
   The fields an applicant supplies: a `LoanApplication` without its id, status
   and submission time. Amounts are exact reals.
   */
  datatype ApplicationData = ApplicationData(
    fullName: string,
    email: string,
    phoneNumber: string,
    loanAmount: real,
    purpose: string,
    creditScore: int,
    employmentStatus: string,
    monthlyIncome: real)

  /** One loan application; `submittedAt` is a millisecond timestamp. */
  datatype LoanApplication = LoanApplication(
    id: string,
    fullName: string,
    email: string,
    phoneNumber: string,
    loanAmount: real,
    purpose: string,
    creditScore: int,
    employmentStatus: string,
    monthlyIncome: real,
    status: Status,
    submittedAt: int)

  /** The applicant-supplied part of an application. */
  function Data(a: LoanApplication): ApplicationData
  {
    ApplicationData(a.fullName, a.email, a.phoneNumber, a.loanAmount, a.purpose,
                    a.creditScore, a.employmentStatus, a.monthlyIncome)
  }

  /** A freshly created application: the supplied data, the given id and time, status pending. */
  function NewApplication(d: ApplicationData, id: string, submittedAt: int): (r: LoanApplication)
    ensures Data(r) == d
    ensures r.id == id && r.submittedAt == submittedAt
    ensures r.status == Pending
  {
    LoanApplication(id, d.fullName, d.email, d.phoneNumber, d.loanAmount, d.purpose,
                    d.creditScore, d.employmentStatus, d.monthlyIncome, Pending, submittedAt)
  }

  /** The derived statistics: four counters and three amounts. */
  datatype LoanStats = LoanStats(
    totalApplications: nat,
    approvedApplications: nat,
    pendingApplications: nat,
    rejectedApplications: nat,
    totalAmount: real,
    approvedAmount: real,
    avgLoanAmount: real)

  /** The ids of a sequence of applications are pairwise distinct. */
  predicate UniqueIds(apps: seq<LoanApplication>)
  {
    forall i, j :: 0 <= i < j < |apps| ==> apps[i].id != apps[j].id
  }

  /** Some application in the sequence carries the id. */
  predicate HasId(apps: seq<LoanApplication>, id: string)
  {
    exists i :: 0 <= i < |apps| && apps[i].id == id
  }
}
