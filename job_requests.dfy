/**
 * The manager's Job Requests screen: a table of job applications, each with
 * a preview of the applicant's skills and, while the application is pending,
 * buttons to accept or reject it.
 *
 * A notification (`toast`) is modelled as the value `Notice` the handler
 * returns; nothing is shown.
 */
module JobRequests {
  import opened Lists

  datatype Applicant = Applicant(
    id: int,
    name: string,
    email: string,
    phone: string,
    avatar: string,
    skills: seq<string>,
    experience: string,
    education: string,
    portfolio: string,
    availability: string)

  datatype Request = Request(
    id: int,
    jobTitle: string,
    applicant: Applicant,
    appliedAt: string,
    status: string)

  /** The two values `updateRequestStatus` accepts. */
  datatype Decision = Accept | Reject

  function StatusOf(d: Decision): (s: string)
    ensures s == "accepted" || s == "rejected"
    ensures s != "pending"
  {
    if d == Accept then "accepted" else "rejected"
  }

  /** The notification shown after a decision: its kind, the applicant and the position. */
  datatype Notice = Notice(decision: Decision, applicantName: string, jobTitle: string)

  /* ---------------- Status updates ---------------- */

  /** `prev.map(req => req.id === id ? { ...req, status } : req)`: every
      request with the id takes the status and keeps every other field;
      every other request is unchanged; length and order are kept. */
  function SetStatus(rs: seq<Request>, id: int, status: string): (r: seq<Request>)
    ensures |r| == |rs|
    ensures forall i :: 0 <= i < |rs| && rs[i].id == id ==> r[i] == rs[i].(status := status)
    ensures forall i :: 0 <= i < |rs| && rs[i].id != id ==> r[i] == rs[i]
  {
    seq(|rs|, i requires 0 <= i < |rs| => if rs[i].id == id then rs[i].(status := status) else rs[i])
  }

  /** Applying the same update twice is the same as applying it once. */
  lemma SetStatusIdempotent(rs: seq<Request>, id: int, status: string)
    ensures SetStatus(SetStatus(rs, id, status), id, status) == SetStatus(rs, id, status)
  {
  }

  /** An update for an id that no request has leaves the list unchanged. */
  lemma SetStatusAbsent(rs: seq<Request>, id: int, status: string)
    requires forall i :: 0 <= i < |rs| ==> rs[i].id != id
    ensures SetStatus(rs, id, status) == rs
  {
  }

  /** Afterwards, the requests with the status are those that had it, plus those with the id. */
  lemma SetStatusMoves(rs: seq<Request>, id: int, status: string)
    ensures forall i :: 0 <= i < |rs| ==>
              (SetStatus(rs, id, status)[i].status == status <==> rs[i].status == status || rs[i].id == id)
  {
  }

  function HasId(id: int): Request -> bool
  {
    (r: Request) => r.id == id
  }

  /** The notification of `updateRequestStatus`: built from the first request
      with the id in the list as it was before the update; none if no request
      has the id. */
  function NoticeFor(rs: seq<Request>, id: int, d: Decision): (n: Option<Notice>)
    ensures n.None? <==> forall i :: 0 <= i < |rs| ==> rs[i].id != id
    ensures n.Some? ==> n.value.decision == d
    ensures n.Some? ==> exists i :: 0 <= i < |rs| && rs[i].id == id && n.value.applicantName == rs[i].applicant.name
                                    && n.value.jobTitle == rs[i].jobTitle && forall j :: 0 <= j < i ==> rs[j].id != id
  {
    match Find(rs, HasId(id))
    case None => None
    case Some(req) => Some(Notice(d, req.applicant.name, req.jobTitle))
  }

  /** Rejecting request 2 of requests 1, 2 and 3 changes only its status. */
  lemma RejectSecondExample(a: Request, b: Request, c: Request)
    requires a.id == 1 && b.id == 2 && c.id == 3
    ensures SetStatus([a, b, c], 2, StatusOf(Reject)) == [a, b.(status := "rejected"), c]
  {
  }

  /* ---------------- What a row offers ---------------- */

  datatype Action = ViewProfile | SendSms | AcceptRequest | RejectRequest

  /** The buttons of one row: profile and SMS always, accept and reject only while pending. */
  function RowActions(r: Request): (acts: seq<Action>)
    ensures ViewProfile in acts && SendSms in acts
    ensures AcceptRequest in acts <==> r.status == "pending"
    ensures RejectRequest in acts <==> r.status == "pending"
  {
    [ViewProfile, SendSms] + if r.status == "pending" then [AcceptRequest, RejectRequest] else []
  }

  function ActionOf(d: Decision): Action
  {
    if d == Accept then AcceptRequest else RejectRequest
  }

  /** A decision made from a row's buttons moves that row from "pending" to
      "accepted" or "rejected". */
  lemma OfferedDecisionLeavesPending(rs: seq<Request>, i: int, d: Decision)
    requires 0 <= i < |rs| && ActionOf(d) in RowActions(rs[i])
    ensures rs[i].status == "pending"
    ensures SetStatus(rs, rs[i].id, StatusOf(d))[i].status == StatusOf(d)
    ensures StatusOf(d) == "accepted" || StatusOf(d) == "rejected"
  {
  }

  /* ---------------- Skills preview ---------------- */

  /** The skills cell: the skills shown as badges, and the "+N more" count when there is one. */
  datatype SkillsPreview = SkillsPreview(shown: seq<string>, more: Option<nat>)

  /** `skills.slice(0, 3)` and, when there are more than three skills,
      `+{skills.length - 3} more`: a prefix of at most three skills, and a
      count that accounts for every skill not shown. */
  function Preview(skills: seq<string>): (p: SkillsPreview)
    ensures p.shown <= skills
    ensures |p.shown| == if |skills| < 3 then |skills| else 3
    ensures p.more.Some? <==> |skills| > 3
    ensures p.more.Some? ==> |p.shown| + p.more.value == |skills|
    ensures p.more.None? ==> p.shown == skills
  {
    var shown := if |skills| <= 3 then skills else skills[..3];
    SkillsPreview(shown, if |skills| > 3 then Some(|skills| - 3) else None)
  }

  /* ---------------- The component ---------------- */

  /** The state of the Job Requests component and its handlers. */
  class RequestBoard {
    var requests: seq<Request>
    var isProfileOpen: bool
    var selectedApplicant: Option<Applicant>

    constructor (seed: seq<Request>)
      ensures requests == seed && !isProfileOpen && selectedApplicant == None
    {
      requests := seed;
      isProfileOpen := false;
      selectedApplicant := None;
    }

    method ViewApplicantProfile(a: Applicant)
      modifies this
      ensures selectedApplicant == Some(a) && isProfileOpen
      ensures requests == old(requests)
    {
      selectedApplicant := Some(a);
      isProfileOpen := true;
    }

    /** The Close button of the profile dialog. */
    method CloseProfile()
      modifies this
      ensures !isProfileOpen
      ensures requests == old(requests) && selectedApplicant == old(selectedApplicant)
    {
      isProfileOpen := false;
    }

    /** Sets the status of the requests with the id and reports the decision
        for the first of them, read from the list as it was before. */
    method UpdateRequestStatus(id: int, d: Decision) returns (notice: Option<Notice>)
      modifies this
      ensures requests == SetStatus(old(requests), id, StatusOf(d))
      ensures notice == NoticeFor(old(requests), id, d)
      ensures isProfileOpen == old(isProfileOpen) && selectedApplicant == old(selectedApplicant)
    {
      var before := requests;
      requests := SetStatus(requests, id, StatusOf(d));
      notice := NoticeFor(before, id, d);
    }
  }
}
