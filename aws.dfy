/** The AWS IAM backend: its factory, the credential-report protocol
    (generate, poll until complete, fetch) and the MFA filter over the report. */
module Aws {
  import opened Wrappers
  import opened Services
  import opened Selection

  const AccessKeyIdOption := "aws-access-key-id"
  const SecretKeyOption := "aws-secret-key"

  /** Both credentials given: a service bound to them. Neither given: the
      backend is not used. Exactly one given: the missing one is named. */
  function CreateService(m: Matches): (r: CreateServiceResult)
    ensures r.Service? <==> AccessKeyIdOption in m && SecretKeyOption in m
    ensures r.Service? ==> r.backend == AwsService(m[AccessKeyIdOption], m[SecretKeyOption])
    ensures r.NoService? <==> AccessKeyIdOption !in m && SecretKeyOption !in m
    ensures AccessKeyIdOption in m && SecretKeyOption !in m ==> r == MissingArguments([SecretKeyOption])
    ensures AccessKeyIdOption !in m && SecretKeyOption in m ==> r == MissingArguments([AccessKeyIdOption])
  {
    match (OptStr(m, AccessKeyIdOption), OptStr(m, SecretKeyOption))
    case (Some(accessKeyId), Some(secretKey)) => Service(AwsService(accessKeyId, secretKey))
    case (None, None) => NoService
    case (accessKeyId, secretKey) =>
      MissingArguments(
        (if accessKeyId.None? then [AccessKeyIdOption] else []) +
        (if secretKey.None? then [SecretKeyOption] else []))
  }

  /** The two IAM actions the backend requests. */
  datatype Action = GenerateCredentialReport | GetCredentialReport

  /** The value of the `Action` query parameter. */
  function ActionName(a: Action): (s: string)
  {
    match a
    case GenerateCredentialReport => "GenerateCredentialReport"
    case GetCredentialReport => "GetCredentialReport"
  }

  /** The two actions are sent under different names. */
  lemma ActionNameInjective(a: Action, b: Action)
    ensures ActionName(a) == ActionName(b) <==> a == b
  {
  }

  /** The state of a credential report that is being generated. */
  datatype ReportResult = STARTED | COMPLETE

  const UnknownReportResult := "Unknown report result."

  /** Parses a report state; anything but the two known states panics. */
  function ReportResultFromStr(s: string): (r: Outcome<ReportResult>)
    ensures r.Ok? <==> s == "STARTED" || s == "COMPLETE"
    ensures r == Ok(COMPLETE) <==> s == "COMPLETE"
    ensures r.Panic? ==> r.message == UnknownReportResult
  {
    if s == "STARTED" then Ok(STARTED)
    else if s == "COMPLETE" then Ok(COMPLETE)
    else Panic(UnknownReportResult)
  }

  /** The text IAM sends for a state. */
  function StateText(x: ReportResult): (s: string)
  {
    match x
    case STARTED => "STARTED"
    case COMPLETE => "COMPLETE"
  }

  /** Parsing is the inverse of the state text, in both directions. */
  lemma ReportResultRoundTrip(x: ReportResult, s: string)
    ensures ReportResultFromStr(StateText(x)) == Ok(x)
    ensures ReportResultFromStr(s).Ok? ==> StateText(ReportResultFromStr(s).value) == s
  {
  }

  /** An XML element, as far as the backend looks into the responses. */
  datatype Element = Element(name: string, children: seq<Element>, text: Option<string>)

  /** No child has the name. */
  predicate NoneNamed(children: seq<Element>, name: string)
  {
    forall i :: 0 <= i < |children| ==> children[i].name != name
  }

  /** `i` is the index of the first child with the name. */
  predicate FirstNamed(children: seq<Element>, name: string, i: int)
  {
    0 <= i < |children| && children[i].name == name &&
    forall j :: 0 <= j < i ==> children[j].name != name
  }

  /** `get_mut_child(name)`: the first child with that name. */
  function FindChild(children: seq<Element>, name: string): (r: Option<Element>)
    ensures r.None? <==> NoneNamed(children, name)
    ensures r.Some? ==> r.value in children && r.value.name == name
  {
    if children == [] then None
    else if children[0].name == name then Some(children[0])
    else
      assert forall i :: 1 <= i < |children| ==> children[1..][i - 1] == children[i];
      FindChild(children[1..], name)
  }

  /** The child found is the first one with the name: every child before it has another name. */
  lemma {:induction false} FindChildFirst(children: seq<Element>, name: string)
    requires FindChild(children, name).Some?
    ensures exists i :: FirstNamed(children, name, i) && children[i] == FindChild(children, name).value
  {
    if children[0].name != name {
      FindChildFirst(children[1..], name);
      var i :| FirstNamed(children[1..], name, i) && children[1..][i] == FindChild(children, name).value;
      assert children[i + 1] == FindChild(children, name).value;
      forall j | 0 <= j < i + 1 ensures children[j].name != name {
        if j > 0 { assert children[1..][j - 1] == children[j]; }
      }
      assert FirstNamed(children, name, i + 1);
    } else {
      assert FirstNamed(children, name, 0);
    }
  }

  /** Conversely, the first child with the name is the one found. */
  lemma {:induction false} FindChildAt(children: seq<Element>, name: string, i: int)
    requires FirstNamed(children, name, i)
    ensures FindChild(children, name) == Some(children[i])
  {
    if i > 0 {
      assert children[0].name != name;
      assert FirstNamed(children[1..], name, i - 1) by {
        forall j | 0 <= j < i - 1 ensures children[1..][j].name != name {
          assert children[1..][j] == children[j + 1];
        }
      }
      FindChildAt(children[1..], name, i - 1);
    }
  }

  /** The state in a `GenerateCredentialReport` response; a missing element,
      missing text or unknown state panics. */
  function ReportState(response: Element): (r: Outcome<ReportResult>)
  {
    match FindChild(response.children, "GenerateCredentialReportResult")
    case None => Panic("Can't find GenerateCredentialReportResult element.")
    case Some(result) =>
      match FindChild(result.children, "State")
      case None => Panic("Can't find State element.")
      case Some(state) =>
        match state.text
        case None => Panic("Unknown state str")
        case Some(s) => ReportResultFromStr(s)
  }

  /** A well-formed `GenerateCredentialReport` response reporting `x`. */
  function GenerateResponse(x: ReportResult): (response: Element)
  {
    Element("GenerateCredentialReportResponse",
      [Element("GenerateCredentialReportResult",
        [Element("State", [], Some(StateText(x)))], None)], None)
  }

  /** Reading the state of any response, with `i` the first result element and
      `j` the first `State` element inside it: no result element panics with
      "Can't find GenerateCredentialReportResult element.", no `State` element
      with "Can't find State element.", a `State` element without text with
      "Unknown state str"; otherwise its text is parsed, so a response whose
      state text is that of `x` reports `x`, as the well-formed one does. */
  lemma ReportStateOfResponse(x: ReportResult, response: Element, i: int, j: int)
    ensures ReportState(GenerateResponse(x)) == Ok(x)
    ensures NoneNamed(response.children, "GenerateCredentialReportResult") ==>
            ReportState(response) == Panic("Can't find GenerateCredentialReportResult element.")
    ensures FirstNamed(response.children, "GenerateCredentialReportResult", i) ==>
            var result := response.children[i];
            && (NoneNamed(result.children, "State") ==>
                  ReportState(response) == Panic("Can't find State element."))
            && (FirstNamed(result.children, "State", j) ==>
                  var text := result.children[j].text;
                  && (text.None? ==> ReportState(response) == Panic("Unknown state str"))
                  && (text.Some? ==> ReportState(response) == ReportResultFromStr(text.value))
                  && (text == Some(StateText(x)) ==> ReportState(response) == Ok(x)))
  {
    ReportResultRoundTrip(x, StateText(x));
    if FirstNamed(response.children, "GenerateCredentialReportResult", i) {
      FindChildAt(response.children, "GenerateCredentialReportResult", i);
      if FirstNamed(response.children[i].children, "State", j) {
        FindChildAt(response.children[i].children, "State", j);
      }
    }
  }

  /** The base64 text in a `GetCredentialReport` response; a missing element or
      missing text panics. */
  function ReportContent(response: Element): (r: Outcome<string>)
  {
    match FindChild(response.children, "GetCredentialReportResult")
    case None => Panic("Can't find GetCredentialReportResult element.")
    case Some(result) =>
      match FindChild(result.children, "Content")
      case None => Panic("Can't get Content element.")
      case Some(content) =>
        match content.text
        case None => Panic("No content text.")
        case Some(s) => Ok(s)
  }

  /** A well-formed `GetCredentialReport` response carrying `content`. */
  function GetReportResponse(content: string): (response: Element)
  {
    Element("GetCredentialReportResponse",
      [Element("GetCredentialReportResult",
        [Element("Content", [], Some(content))], None)], None)
  }

  /** Reading the content of any response, with `i` the first result element
      and `j` the first `Content` element inside it: no result element panics
      with "Can't find GetCredentialReportResult element.", no `Content`
      element with "Can't get Content element.", a `Content` element without
      text with "No content text."; otherwise the content is that text, so the
      well-formed response gives back what it carries. */
  lemma ReportContentOfResponse(content: string, response: Element, i: int, j: int)
    ensures ReportContent(GetReportResponse(content)) == Ok(content)
    ensures NoneNamed(response.children, "GetCredentialReportResult") ==>
            ReportContent(response) == Panic("Can't find GetCredentialReportResult element.")
    ensures FirstNamed(response.children, "GetCredentialReportResult", i) ==>
            var result := response.children[i];
            && (NoneNamed(result.children, "Content") ==>
                  ReportContent(response) == Panic("Can't get Content element."))
            && (FirstNamed(result.children, "Content", j) ==>
                  var text := result.children[j].text;
                  && (text.None? ==> ReportContent(response) == Panic("No content text."))
                  && (text.Some? ==> ReportContent(response) == Ok(text.value)))
  {
    if FirstNamed(response.children, "GetCredentialReportResult", i) {
      FindChildAt(response.children, "GetCredentialReportResult", i);
      if FirstNamed(response.children[i].children, "Content", j) {
        FindChildAt(response.children[i].children, "Content", j);
      }
    }
  }

  /** One row of the credential report (the columns the audit reads). */
  datatype AwsUser = AwsUser(user: string, arn: string, mfaActive: bool)

  /** The `filter_map` closure: a row without MFA becomes a flagged user. */
  function FlagUser(row: AwsUser): (flagged: Option<User>)
  {
    if !row.mfaActive then Some(User(row.user, None, Some(row.arn))) else None
  }

  /** The flagged users are exactly the rows without MFA, in report order, each
      named by its user with no email and its ARN as details. */
  lemma FlaggedUsers(rows: seq<AwsUser>)
    ensures var users, ix := FilterMap(rows, FlagUser), Positions(rows, FlagUser);
      && |users| == |ix|
      && (forall k :: 0 <= k < |ix| ==>
            users[k] == User(rows[ix[k]].user, None, Some(rows[ix[k]].arn)))
      && (forall i :: 0 <= i < |rows| ==> (i in ix <==> !rows[i].mfaActive))
      && (forall k, l :: 0 <= k < l < |ix| ==> ix[k] < ix[l])
  {
    FilterMapAt(rows, FlagUser);
  }

  /** How the poll over the `GenerateCredentialReport` responses ends: at the
      n-th request the report was complete, or reading it panicked; or every
      response seen so far said STARTED and the loop goes on requesting. */
  datatype PollResult = Completed(requests: nat) | Failed(requests: nat, message: string) | Pending

  /** The n-th response is the first whose state is not STARTED. */
  predicate SettledAt(responses: seq<Element>, n: nat)
  {
    && 0 < n <= |responses|
    && ReportState(responses[n - 1]) != Ok(STARTED)
    && forall j :: 0 <= j < n - 1 ==> ReportState(responses[j]) == Ok(STARTED)
  }

  /** At most one response is the first to settle. */
  lemma SettledAtUnique(responses: seq<Element>, n: nat, n': nat)
    requires SettledAt(responses, n) && SettledAt(responses, n')
    ensures n == n'
  {
  }

  /** The poll loop of `get_users`: request the report state until it is
      COMPLETE, stopping at the first COMPLETE and never before it. */
  method PollReport(responses: seq<Element>) returns (p: PollResult)
    ensures p.Pending? <==> forall j :: 0 <= j < |responses| ==> ReportState(responses[j]) == Ok(STARTED)
    ensures p.Completed? ==> SettledAt(responses, p.requests) &&
                             ReportState(responses[p.requests - 1]) == Ok(COMPLETE)
    ensures p.Failed? ==> SettledAt(responses, p.requests) &&
                          ReportState(responses[p.requests - 1]) == Panic(p.message)
  {
    var i := 0;
    while i < |responses|
      invariant 0 <= i <= |responses|
      invariant forall j :: 0 <= j < i ==> ReportState(responses[j]) == Ok(STARTED)
    {
      match ReportState(responses[i])
      case Ok(COMPLETE) =>
        return Completed(i + 1);
      case Panic(message) =>
        return Failed(i + 1, message);
      case Ok(STARTED) =>
      i := i + 1;
    }
    return Pending;
  }

  /** Fetching and decoding the completed report, and the users it flags.
      `decode` stands for the base64 and CSV decoding; `None` is a decoding error. */
  function CredentialReportUsers(report: Element, decode: string -> Option<seq<AwsUser>>): (r: Outcome<GetUsersResult>)
    ensures r.Ok? ==> r.value.serviceName == "aws"
    ensures r.Ok? <==> ReportContent(report).Ok? && decode(ReportContent(report).value).Some?
    ensures r.Ok? ==> r.value.users == FilterMap(decode(ReportContent(report).value).value, FlagUser)
  {
    match ReportContent(report)
    case Panic(message) => Panic(message)
    case Ok(content) =>
      match decode(content)
      case None => Panic(UnwrapErr)
      case Some(rows) => Ok(GetUsersResult("aws", FilterMap(rows, FlagUser)))
  }

  /** A run of `get_users`: it finished (returned or panicked), or it is still polling. */
  datatype AuditRun = Finished(outcome: Outcome<GetUsersResult>) | StillPolling

  /** `AWSService::get_users` over the responses IAM gives to its requests. */
  method GetUsers(responses: seq<Element>, report: Element, decode: string -> Option<seq<AwsUser>>)
    returns (run: AuditRun)
    ensures run.StillPolling? <==> forall j :: 0 <= j < |responses| ==> ReportState(responses[j]) == Ok(STARTED)
    ensures run.Finished? ==>
              exists n :: SettledAt(responses, n) &&
                run.outcome == match ReportState(responses[n - 1])
                               case Panic(message) => Panic(message)
                               case Ok(_) => CredentialReportUsers(report, decode)
  {
    var p := PollReport(responses);
    match p
    case Pending =>
      run := StillPolling;
    case Failed(requests, message) =>
      run := Finished(Panic(message));
    case Completed(requests) =>
      run := Finished(CredentialReportUsers(report, decode));
  }
}
