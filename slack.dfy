/** The Slack backend: its factory and the filter/map over the members that
    `users.list` returns. */
module Slack {
  import opened Wrappers
  import opened Services
  import opened Selection

  const TokenOption := "slack-token"

  /** A token makes a service bound to it; without one the backend is not used.
      This factory never reports missing arguments. */
  function CreateService(m: Matches): (r: CreateServiceResult)
    ensures r.Service? <==> TokenOption in m
    ensures r.Service? ==> r.backend == SlackService(m[TokenOption])
    ensures r.NoService? <==> TokenOption !in m
    ensures !r.MissingArguments?
  {
    match OptStr(m, TokenOption)
    case Some(token) => Service(SlackService(token))
    case None => NoService
  }

  datatype SlackProfile = SlackProfile(email: Option<string>)

  /** A member as `users.list` describes it; bots and deleted members may lack flags. */
  datatype SlackUser = SlackUser(
    name: string,
    deleted: bool,
    isBot: Option<bool>,
    has2fa: Option<bool>,
    profile: SlackProfile,
    isOwner: Option<bool>,
    isAdmin: Option<bool>)

  datatype SlackUserListResponse = SlackUserListResponse(ok: bool, members: seq<SlackUser>)

  /** The filter `!deleted && !is_bot.unwrap() && !has_2fa.unwrap()`. The `&&`
      short-circuits, so a flag is unwrapped only when the ones before it let
      the member through: a deleted member is excluded whatever it lacks. */
  function IsReported(u: SlackUser): (r: Outcome<bool>)
    ensures u.deleted ==> r == Ok(false)
    ensures r.Ok? <==> u.deleted || (u.isBot.Some? && (u.isBot.value || u.has2fa.Some?))
    ensures r == Ok(true) <==> !u.deleted && u.isBot == Some(false) && u.has2fa == Some(false)
    ensures r.Panic? ==> r.message == UnwrapNone
  {
    if u.deleted then Ok(false)
    else
      match u.isBot
      case None => Panic(UnwrapNone)
      case Some(isBot) =>
        if isBot then Ok(false)
        else
          match u.has2fa
          case None => Panic(UnwrapNone)
          case Some(has2fa) => Ok(!has2fa)
  }

  /** The annotation for the two role flags. */
  function Details(owner: bool, admin: bool): (d: Option<string>)
  {
    match (owner, admin)
    case (true, true) => Some("Owner/Admin")
    case (true, false) => Some("Owner")
    case (false, true) => Some("Admin")
    case (false, false) => None
  }

  /** The annotation is absent iff the member has neither role; otherwise it
      starts with "Owner" iff the member is an owner and ends with "Admin" iff
      an admin. */
  lemma DetailsNamesRoles(owner: bool, admin: bool)
    ensures Details(owner, admin).None? <==> !owner && !admin
    ensures Details(owner, admin).Some? ==>
              var d := Details(owner, admin).value;
              && (owner <==> |d| >= 5 && d[..5] == "Owner")
              && (admin <==> |d| >= 5 && d[|d| - 5..] == "Admin")
  {
    assert "Admin"[..5][0] != "Owner"[0];
  }

  /** Different roles give different annotations. */
  lemma DetailsInjective(o: bool, a: bool, o': bool, a': bool)
    requires Details(o, a) == Details(o', a')
    ensures o == o' && a == a'
  {
  }

  /** The map closure: a reported member's name, email and role annotation;
      a missing email or role flag panics. */
  function ToUser(u: SlackUser): (r: Outcome<User>)
    ensures r.Ok? <==> u.profile.email.Some? && u.isOwner.Some? && u.isAdmin.Some?
    ensures r.Ok? ==> r.value.name == u.name && r.value.email == u.profile.email
    ensures r.Ok? ==> r.value.details == Details(u.isOwner == Some(true), u.isAdmin == Some(true))
    ensures r.Panic? ==> r.message == UnwrapNone
  {
    match (u.profile.email, u.isOwner, u.isAdmin)
    case (Some(email), Some(owner), Some(admin)) => Ok(User(u.name, Some(email), Details(owner, admin)))
    case _ => Panic(UnwrapNone)
  }

  /** `members.iter().filter(..).map(..).collect()`: members are visited in
      order, each filtered and, if kept, mapped; the first panic ends the run. */
  function ReportedUsers(members: seq<SlackUser>): (r: Outcome<seq<User>>)
  {
    if members == [] then Ok([])
    else
      match IsReported(members[0])
      case Panic(message) => Panic(message)
      case Ok(keep) =>
        if !keep then ReportedUsers(members[1..])
        else
          match ToUser(members[0])
          case Panic(message) => Panic(message)
          case Ok(user) =>
            match ReportedUsers(members[1..])
            case Panic(message) => Panic(message)
            case Ok(rest) => Ok([user] + rest)
  }

  /** A member the filter and map can process without panicking. */
  predicate Admissible(u: SlackUser)
  {
    IsReported(u).Ok? && (IsReported(u).value ==> ToUser(u).Ok?)
  }

  /** The member as a reported user, if it is an active human without 2FA
      whose email and role flags are all given. */
  function Kept(u: SlackUser): (kept: Option<User>)
  {
    if u.deleted then None
    else
      match (u.isBot, u.has2fa, u.profile.email, u.isOwner, u.isAdmin)
      case (Some(false), Some(false), Some(email), Some(owner), Some(admin)) =>
        Some(User(u.name, Some(email), Details(owner, admin)))
      case _ => None
  }

  /** The chain succeeds iff every member is admissible, and then it yields the
      reported members' users in member order. */
  lemma {:induction false} ReportedUsersOk(members: seq<SlackUser>)
    ensures ReportedUsers(members).Ok? <==> forall i :: 0 <= i < |members| ==> Admissible(members[i])
    ensures ReportedUsers(members).Ok? ==> ReportedUsers(members).value == FilterMap(members, Kept)
  {
    if members != [] {
      ReportedUsersOk(members[1..]);
      assert forall i :: 1 <= i < |members| ==> members[1..][i - 1] == members[i];
    }
  }

  /** A member is reported iff it is not deleted, not a bot and without 2FA;
      the reported positions are in member order. */
  lemma ReportedMembers(members: seq<SlackUser>)
    requires ReportedUsers(members).Ok?
    ensures forall i :: 0 <= i < |members| ==>
              (i in Positions(members, Kept) <==>
                 !members[i].deleted && members[i].isBot == Some(false) && members[i].has2fa == Some(false))
    ensures forall k, l :: 0 <= k < l < |Positions(members, Kept)| ==>
              Positions(members, Kept)[k] < Positions(members, Kept)[l]
  {
    ReportedUsersOk(members);
    forall i | 0 <= i < |members| && !members[i].deleted && members[i].isBot == Some(false) &&
               members[i].has2fa == Some(false)
      ensures i in Positions(members, Kept)
    {
      assert Admissible(members[i]);
    }
  }

  /** The k-th reported user is the member at the k-th reported position: its
      name, its email (which is present) and its role annotation. */
  lemma ReportedUserFields(members: seq<SlackUser>)
    requires ReportedUsers(members).Ok?
    ensures var users, ix := ReportedUsers(members).value, Positions(members, Kept);
      && |users| == |ix|
      && forall k :: 0 <= k < |ix| ==>
           && users[k].name == members[ix[k]].name
           && users[k].email == members[ix[k]].profile.email
           && users[k].email.Some?
           && users[k].details == Details(members[ix[k]].isOwner == Some(true),
                                          members[ix[k]].isAdmin == Some(true))
  {
    ReportedUsersOk(members);
    FilterMapAt(members, Kept);
  }

  const StatusOk := 200

  /** `SlackService::get_users` from the response's status and its decoded
      JSON body (`None` when the body does not decode). A status other than
      200, an undecodable body or `ok: false` panics instead of listing users. */
  function GetUsers(status: nat, body: Option<SlackUserListResponse>): (r: Outcome<GetUsersResult>)
    ensures status != StatusOk ==> r.Panic?
    ensures body.Some? && !body.value.ok ==> r.Panic?
    ensures r.Ok? <==> status == StatusOk && body.Some? && body.value.ok &&
                       ReportedUsers(body.value.members).Ok?
    ensures r.Ok? ==> r.value == GetUsersResult("Slack", ReportedUsers(body.value.members).value)
  {
    if status != StatusOk then Panic("assertion `left == right` failed")
    else
      match body
      case None => Panic(UnwrapErr)
      case Some(response) =>
        if !response.ok then Panic("assertion failed: result.ok")
        else
          match ReportedUsers(response.members)
          case Panic(message) => Panic(message)
          case Ok(users) => Ok(GetUsersResult("Slack", users))
  }
}
