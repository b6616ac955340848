/** The course-application approval page: the status filter, the counters,
    the rule labels and the approve/reject handlers. */
module Approval {
  import opened Wrappers
  import opened Lookup

  datatype ApprovalStatus = Pending | Approved | Rejected | Waitlisted

  datatype Qualifications = Qualifications(hasPrerequisite: bool, gradeRequirement: int, meetsRequirement: bool)

  /** An application; instants are milliseconds since the epoch. */
  datatype Application = Application(
    id: string,
    studentId: string,
    studentName: string,
    studentEmail: string,
    courseId: string,
    courseTitle: string,
    appliedAt: int,
    status: ApprovalStatus,
    priority: int,
    qualifications: Qualifications,
    autoApproved: bool,
    approvedAt: Option<int>,
    rejectedAt: Option<int>,
    rejectedReason: Option<string>,
    reviewedBy: Option<string>)

  datatype StatusFilter = All | Only(status: ApprovalStatus)

  const Reviewer: string := "admin"

  /** `filteredApplications`. */
  function Filtered(apps: seq<Application>, filter: StatusFilter): (r: seq<Application>)
    ensures filter.All? ==> r == apps
    ensures filter.Only? ==> forall k :: 0 <= k < |r| ==> r[k].status == filter.status && r[k] in apps
  {
    Filter(apps, (a: Application) => filter.All? || a.status == filter.status)
  }

  /** A status filter keeps exactly the applications with that status, in
      their order. */
  lemma {:induction false} FilteredKeepsMatches(apps: seq<Application>, s: ApprovalStatus)
    ensures IsSubsequence(Filtered(apps, Only(s)), apps)
    ensures forall k :: 0 <= k < |apps| && apps[k].status == s ==> apps[k] in Filtered(apps, Only(s))
  {
    var p := (a: Application) => Only(s).All? || a.status == Only(s).status;
    FilterKeepsOrder(apps, p);
    forall k | 0 <= k < |apps| && apps[k].status == s
      ensures apps[k] in Filtered(apps, Only(s))
    {
      assert multiset(Filter(apps, p))[apps[k]] == multiset(apps)[apps[k]] > 0;
    }
  }

  /** One of the `stats` counters. */
  function CountStatus(apps: seq<Application>, s: ApprovalStatus): nat {
    |Filtered(apps, Only(s))|
  }

  /** The four counters add up to the total, since every application has
      exactly one of the four statuses. */
  lemma {:induction false} StatsAddUp(apps: seq<Application>)
    ensures CountStatus(apps, Pending) + CountStatus(apps, Approved)
      + CountStatus(apps, Rejected) + CountStatus(apps, Waitlisted) == |apps|
    decreases |apps|
  {
    if apps != [] {
      StatsAddUp(apps[1..]);
    }
  }

  /** `getRuleLabel`: the four rules get their labels, anything else is
      returned unchanged. */
  function RuleLabel(rule: string): (r: string)
    ensures rule in ["first_come", "qualification", "manual", "lottery"] ==> r in ["선착순", "자격 검증", "수동 승인", "추첨"]
    ensures rule !in ["first_come", "qualification", "manual", "lottery"] ==> r == rule
  {
    if rule == "first_come" then "선착순"
    else if rule == "qualification" then "자격 검증"
    else if rule == "manual" then "수동 승인"
    else if rule == "lottery" then "추첨"
    else rule
  }

  /** The list after `handleApprove(id)` at instant `now`. */
  function ApproveIn(apps: seq<Application>, id: string, now: int): (r: seq<Application>)
    ensures |r| == |apps|
    ensures forall k :: 0 <= k < |r| && apps[k].id != id ==> r[k] == apps[k]
    ensures forall k :: 0 <= k < |r| && apps[k].id == id ==>
      && r[k].status == Approved && r[k].approvedAt == Some(now) && r[k].reviewedBy == Some(Reviewer)
      && r[k].(status := apps[k].status, approvedAt := apps[k].approvedAt, reviewedBy := apps[k].reviewedBy) == apps[k]
  {
    seq(|apps|, k requires 0 <= k < |apps| =>
      if apps[k].id == id then apps[k].(status := Approved, approvedAt := Some(now), reviewedBy := Some(Reviewer))
      else apps[k])
  }

  /** The list after `handleReject(id, reason)` at instant `now`. */
  function RejectIn(apps: seq<Application>, id: string, reason: string, now: int): (r: seq<Application>)
    ensures |r| == |apps|
    ensures forall k :: 0 <= k < |r| && apps[k].id != id ==> r[k] == apps[k]
    ensures forall k :: 0 <= k < |r| && apps[k].id == id ==>
      && r[k].status == Rejected && r[k].rejectedAt == Some(now)
      && r[k].rejectedReason == Some(reason) && r[k].reviewedBy == Some(Reviewer)
      && r[k].(status := apps[k].status, rejectedAt := apps[k].rejectedAt,
               rejectedReason := apps[k].rejectedReason, reviewedBy := apps[k].reviewedBy) == apps[k]
  {
    seq(|apps|, k requires 0 <= k < |apps| =>
      if apps[k].id == id then
        apps[k].(status := Rejected, rejectedAt := Some(now), rejectedReason := Some(reason), reviewedBy := Some(Reviewer))
      else apps[k])
  }

  /** An id that no application has leaves the list as it is. */
  lemma {:induction false} UnknownIdChangesNothing(apps: seq<Application>, id: string, reason: string, now: int)
    requires forall k :: 0 <= k < |apps| ==> apps[k].id != id
    ensures ApproveIn(apps, id, now) == apps && RejectIn(apps, id, reason, now) == apps
  {
  }

  /** The handlers keep the ids in place, so the list's order is kept. */
  lemma {:induction false} HandlersKeepIds(apps: seq<Application>, id: string, reason: string, now: int)
    ensures forall k :: 0 <= k < |apps| ==> ApproveIn(apps, id, now)[k].id == apps[k].id
    ensures forall k :: 0 <= k < |apps| ==> RejectIn(apps, id, reason, now)[k].id == apps[k].id
  {
  }

  /** The handlers do not look at the prior status: an application already
      rejected can be approved, and one already approved can be rejected. */
  lemma {:induction false} HandlersIgnorePriorStatus(app: Application, reason: string, now: int)
    ensures ApproveIn([app.(status := Rejected)], app.id, now)[0].status == Approved
    ensures RejectIn([app.(status := Approved)], app.id, reason, now)[0].status == Rejected
  {
  }

  /** Approving the one pending application with a given id moves one count
      from pending to approved. */
  lemma {:induction false} ApproveMovesCount(apps: seq<Application>, id: string, now: int, j: nat)
    requires j < |apps| && apps[j].id == id && apps[j].status == Pending
    requires forall k :: 0 <= k < |apps| && k != j ==> apps[k].id != id
    ensures CountStatus(ApproveIn(apps, id, now), Pending) == CountStatus(apps, Pending) - 1
    ensures CountStatus(ApproveIn(apps, id, now), Approved) == CountStatus(apps, Approved) + 1
    decreases |apps|
  {
    var r := ApproveIn(apps, id, now);
    assert r[1..] == ApproveIn(apps[1..], id, now);
    if j == 0 {
      UnknownIdChangesNothing(apps[1..], id, "", now);
    } else {
      ApproveMovesCount(apps[1..], id, now, j - 1);
    }
  }

  /** The page's state: the list of applications and the chosen filter. */
  class ApprovalPage {
    var applications: seq<Application>
    var filterStatus: StatusFilter

    constructor(initial: seq<Application>)
      ensures applications == initial && filterStatus == All
    {
      applications := initial;
      filterStatus := All;
    }

    method HandleApprove(id: string, now: int)
      modifies this
      ensures applications == ApproveIn(old(applications), id, now)
      ensures filterStatus == old(filterStatus)
    {
      applications := ApproveIn(applications, id, now);
    }

    method HandleReject(id: string, reason: string, now: int)
      modifies this
      ensures applications == RejectIn(old(applications), id, reason, now)
      ensures filterStatus == old(filterStatus)
    {
      applications := RejectIn(applications, id, reason, now);
    }

    method SetFilterStatus(filter: StatusFilter)
      modifies this
      ensures filterStatus == filter && applications == old(applications)
    {
      filterStatus := filter;
    }
  }
}
