/**
 The application detail page: the page shown for a route id, the approve and
 reject actions it offers, and the review step those actions perform.
 */
module Review {
  import opened LoanTypes
  import opened LoanStore
  import Risk

  /** The two actions a loan officer can take on a pending application. */
  datatype Decision = Approve | Reject

  /** The status an action writes. */
  function Target(d: Decision): (s: Status)
    ensures s != Pending
    ensures d == Approve <==> s == Approved
  {
    match d
    case Approve => Approved
    case Reject => Rejected
  }

  /**
   The actions the page renders for an application, in display order: both
   while it is pending, none once it is approved or rejected.
   */
  function Actions(a: LoanApplication): (r: seq<Decision>)
    ensures Approve in r <==> a.status == Pending
    ensures Reject in r <==> a.status == Pending
    ensures a.status != Pending ==> r == []
    ensures a.status == Pending ==> r == [Reject, Approve]
  {
    if a.status == Pending then [Reject, Approve] else []
  }

  /** What the detail route shows. */
  datatype Page =
    | NotFound
    | Detail(application: LoanApplication, assessment: Risk.Assessment, actions: seq<Decision>)

  /** The route id, or the empty string when the route has none. */
  function RouteId(param: Option<string>): (r: string)
    ensures r == "" <==> param.None? || param.value == ""
    ensures r != "" ==> param == Some(r)
  {
    match param
    case Some(id) => id
    case None => ""
  }

  /**
   The page for a route id: "not found" when no application carries it,
   otherwise the first application with that id, its risk assessment and the
   actions its status allows.
   */
  function View(apps: seq<LoanApplication>, param: Option<string>): (r: Page)
    ensures r.NotFound? <==> !HasId(apps, RouteId(param))
    ensures r.Detail? ==>
      && r.application.id == RouteId(param)
      && r.application in apps
      && r.assessment == Risk.Assess(r.application)
      && (r.actions != [] <==> r.application.status == Pending)
  {
    match Lookup(apps, RouteId(param))
    case None => NotFound
    case Some(a) => Detail(a, Risk.Assess(a), Actions(a))
  }

  /**
   Performs an action offered on the page for `id`: the found application's
   status is rewritten to the action's target. Only a pending application
   offers actions, so only a pending application can be reviewed.
   */
  function Review(apps: seq<LoanApplication>, id: string, d: Decision): (r: seq<LoanApplication>)
    requires Lookup(apps, id).Some? && d in Actions(Lookup(apps, id).value)
    ensures |r| == |apps|
    ensures Lookup(apps, id).value.status == Pending
    ensures Lookup(r, id) == Some(Lookup(apps, id).value.(status := Target(d)))
    ensures Actions(Lookup(r, id).value) == []
  {
    var a := Lookup(apps, id).value;
    SetStatusIgnoresCurrent(apps, a.id, Target(d));
    SetStatus(apps, a.id, Target(d))
  }

  /** Once reviewed, an application offers no further action: approving and then rejecting is impossible. */
  lemma ReviewIsFinal(apps: seq<LoanApplication>, id: string, d: Decision, next: Decision)
    requires Lookup(apps, id).Some? && d in Actions(Lookup(apps, id).value)
    ensures var after := Review(apps, id, d);
      !(Lookup(after, id).Some? && next in Actions(Lookup(after, id).value))
  {
  }

  /**
   With unique ids, approving a pending application moves one count from
   pending to approved and adds its amount to the approved amount; rejecting
   moves one count from pending to rejected. Totals are unchanged.
   */
  lemma ReviewStats(apps: seq<LoanApplication>, id: string, d: Decision)
    requires UniqueIds(apps)
    requires Lookup(apps, id).Some? && d in Actions(Lookup(apps, id).value)
    ensures var a := Lookup(apps, id).value;
      var before := Stats(apps);
      var after := Stats(Review(apps, id, d));
      && after.totalApplications == before.totalApplications
      && after.totalAmount == before.totalAmount
      && after.pendingApplications + 1 == before.pendingApplications
      && (d == Approve ==>
            && after.approvedApplications == before.approvedApplications + 1
            && after.rejectedApplications == before.rejectedApplications
            && after.approvedAmount == before.approvedAmount + a.loanAmount)
      && (d == Reject ==>
            && after.rejectedApplications == before.rejectedApplications + 1
            && after.approvedApplications == before.approvedApplications
            && after.approvedAmount == before.approvedAmount)
  {
    var a := Lookup(apps, id).value;
    StatsAfterSetStatus(apps, a.id, Target(d));
    var before := Stats(apps);
    var after := Stats(Review(apps, id, d));
    assert StatusCount(after, Pending) + 1 == StatusCount(before, Pending);
    assert StatusCount(after, Approved) + 0 == StatusCount(before, Approved) + Indicator(d == Approve);
    assert StatusCount(after, Rejected) + 0 == StatusCount(before, Rejected) + Indicator(d == Reject);
  }

  /**
   The store's own rewrite has no such guard: it turns an approved application
   into a rejected one when asked.
   */
  lemma StoreRewritesTerminalStatus(apps: seq<LoanApplication>, id: string)
    requires Lookup(apps, id).Some? && Lookup(apps, id).value.status == Approved
    ensures Lookup(SetStatus(apps, id, Rejected), id).value.status == Rejected
  {
    SetStatusIgnoresCurrent(apps, id, Rejected);
  }

  /**
   Likewise the store turns a rejected application into an approved one; only
   the page, which offers no action once rejected, keeps a rejection final.
   */
  lemma StoreApprovesRejected(apps: seq<LoanApplication>, id: string)
    requires Lookup(apps, id).Some? && Lookup(apps, id).value.status == Rejected
    ensures Lookup(SetStatus(apps, id, Approved), id).value.status == Approved
    ensures Actions(Lookup(apps, id).value) == []
  {
    SetStatusIgnoresCurrent(apps, id, Approved);
  }
}
