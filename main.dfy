/** The command-line driver: turn the parsed options into configured
    services, then print each service's result as it arrives. */
module OtpCop {
  import opened Wrappers
  import opened Services
  import opened Selection
  import Aws
  import Slack

  /** The factories the driver can consult. */
  datatype Factory = SlackFactory | GithubFactory | AwsFactory

  /** The factories `main` consults, in order. */
  const MainFactories: seq<Factory> := [SlackFactory, GithubFactory]

  /** `factory.create_service(&matches)`; the Github factory never configures a service. */
  function CreateService(f: Factory, m: Matches): (r: CreateServiceResult)
  {
    match f
    case SlackFactory => Slack.CreateService(m)
    case GithubFactory => NoService
    case AwsFactory => Aws.CreateService(m)
  }

  /** What each factory makes of the options, in factory order. */
  function Results(factories: seq<Factory>, m: Matches): (rs: seq<CreateServiceResult>)
  {
    seq(|factories|, i requires 0 <= i < |factories| => CreateService(factories[i], m))
  }

  /** The service a factory result carries, if any. */
  function BackendOf(c: CreateServiceResult): (b: Option<Backend>)
  {
    if c.Service? then Some(c.backend) else None
  }

  /** How startup ends: the services to audit and whether the usage text is
      printed, or the panic on the first factory that misses arguments. */
  datatype Startup = Started(services: seq<Backend>, usage: bool) | MissingArgumentsPanic(args: seq<string>)

  /** The factory loop of `main` and the usage check after it. */
  method StartServices(factories: seq<Factory>, m: Matches) returns (s: Startup)
    ensures s.MissingArgumentsPanic? <==>
              exists i :: 0 <= i < |factories| && CreateService(factories[i], m).MissingArguments?
    ensures s.MissingArgumentsPanic? ==>
              exists i :: 0 <= i < |factories| && CreateService(factories[i], m) == MissingArguments(s.args) &&
                          forall j :: 0 <= j < i ==> !CreateService(factories[j], m).MissingArguments?
    ensures s.Started? ==> s.services == FilterMap(Results(factories, m), BackendOf)
    ensures s.Started? ==> (s.usage <==> s.services == [])
  {
    var services: seq<Backend> := [];
    ghost var results := Results(factories, m);
    for i := 0 to |factories|
      invariant forall j :: 0 <= j < i ==> !CreateService(factories[j], m).MissingArguments?
      invariant services == FilterMap(results[..i], BackendOf)
    {
      assert results[..i + 1] == results[..i] + [results[i]];
      FilterMapSnoc(results[..i], results[i], BackendOf);
      match CreateService(factories[i], m)
      case Service(backend) =>
        services := services + [backend];
      case MissingArguments(args) =>
        return MissingArgumentsPanic(args);
      case NoService =>
    }
    assert results[..|factories|] == results;
    s := Started(services, services == []);
  }

  /** The configured services are exactly those of the factories that made
      one, in factory order; factories that made none contribute nothing. */
  lemma ConfiguredServices(factories: seq<Factory>, m: Matches)
    ensures var services, ix := FilterMap(Results(factories, m), BackendOf), Positions(Results(factories, m), BackendOf);
      && |services| == |ix|
      && (forall k :: 0 <= k < |ix| ==> CreateService(factories[ix[k]], m) == Service(services[k]))
      && (forall i :: 0 <= i < |factories| ==> (i in ix <==> CreateService(factories[i], m).Service?))
      && (forall k, l :: 0 <= k < l < |ix| ==> ix[k] < ix[l])
  {
    FilterMapAt(Results(factories, m), BackendOf);
  }

  /** With the factories `main` uses, startup never panics, and the services
      are the Slack service iff a token is given. */
  lemma MainStartup(m: Matches)
    ensures forall i :: 0 <= i < |MainFactories| ==> !CreateService(MainFactories[i], m).MissingArguments?
    ensures FilterMap(Results(MainFactories, m), BackendOf) ==
            if Slack.TokenOption in m then [SlackService(m[Slack.TokenOption])] else []
  {
    var rs := Results(MainFactories, m);
    assert rs == [Slack.CreateService(m), NoService];
    assert rs[1..][1..] == [];
  }

  /** The number of bytes in the UTF-8 encoding of a character. */
  function Utf8Width(c: char): (w: nat)
  {
    if c as int < 0x80 then 1
    else if c as int < 0x800 then 2
    else if c as int < 0x1_0000 then 3
    else 4
  }

  /** `String::len()`: the byte length of the UTF-8 encoding of `s`. */
  function Utf8Len(s: string): (n: nat)
  {
    if s == [] then 0 else Utf8Width(s[0]) + Utf8Len(s[1..])
  }

  /** The byte length is at least the character count and at most four times
      it, and equals it exactly for ASCII text. */
  lemma {:induction false} Utf8LenBounds(s: string)
    ensures |s| <= Utf8Len(s) <= 4 * |s|
    ensures (forall i :: 0 <= i < |s| ==> s[i] as int < 0x80) ==> Utf8Len(s) == |s|
  {
    if s != [] {
      Utf8LenBounds(s[1..]);
      assert forall i :: 1 <= i < |s| ==> s[1..][i - 1] == s[i];
    }
  }

  /** The line under a service name: one `=` per byte of the name. */
  function Underline(name: string): (u: string)
    ensures |u| == Utf8Len(name)
    ensures forall i :: 0 <= i < |u| ==> u[i] == '='
  {
    seq(Utf8Len(name), _ => '=')
  }

  /** The line for one user: `@name`, then ` (email)` and ` -- details` for
      the parts that are present. */
  function UserLine(u: User): (line: string)
  {
    "@" + u.name +
    (match u.email case Some(email) => " (" + email + ")" case None => "") +
    (match u.details case Some(details) => " -- " + details case None => "")
  }

  /** A user line starts with `@` and the name; right after the name comes
      ` (email)` when there is an email; it ends with ` -- details` when there
      are details, and otherwise with ` (email)` when there is an email, or
      with the name; its length is that of the parts present. */
  lemma UserLineShape(u: User)
    ensures var line := UserLine(u);
      && line[..|u.name| + 1] == "@" + u.name
      && (u.email.Some? ==> line[|u.name| + 1..|u.name| + 4 + |u.email.value|] == " (" + u.email.value + ")")
      && (u.details.Some? ==> line[|line| - |u.details.value| - 4..] == " -- " + u.details.value)
      && (u.details.None? && u.email.Some? ==> line[|line| - |u.email.value| - 3..] == " (" + u.email.value + ")")
      && (u.details.None? && u.email.None? ==> line == "@" + u.name)
      && |line| == 1 + |u.name| +
                   (if u.email.Some? then |u.email.value| + 3 else 0) +
                   (if u.details.Some? then |u.details.value| + 4 else 0)
  {
    var e := match u.email case Some(email) => " (" + email + ")" case None => "";
    var d := match u.details case Some(details) => " -- " + details case None => "";
    assert UserLine(u) == ("@" + u.name) + e + d;
  }

  /** The lines printed for one result: name, underline, a blank line, then one line per user. */
  function Block(r: GetUsersResult): (lines: seq<string>)
  {
    [r.serviceName, Underline(r.serviceName), ""] + seq(|r.users|, k requires 0 <= k < |r.users| => UserLine(r.users[k]))
  }

  /** A block is the header lines followed by one line per user, in user order. */
  lemma BlockLines(r: GetUsersResult)
    ensures var lines := Block(r);
      && |lines| == 3 + |r.users|
      && lines[0] == r.serviceName && lines[1] == Underline(r.serviceName) && lines[2] == ""
      && forall k :: 0 <= k < |r.users| ==> lines[3 + k] == UserLine(r.users[k])
  {
  }

  /** The blocks of the results, in order. */
  function Blocks(rs: seq<GetUsersResult>): (bs: seq<seq<string>>)
  {
    seq(|rs|, i requires 0 <= i < |rs| => Block(rs[i]))
  }

  /** Every block followed by two blank lines. */
  function Separated(bs: seq<seq<string>>): (lines: seq<string>)
  {
    if bs == [] then [] else Separated(bs[..|bs| - 1]) + bs[|bs| - 1] + ["", ""]
  }

  /** The report: two blank lines after every block but the last. */
  function ReportText(bs: seq<seq<string>>): (lines: seq<string>)
  {
    if bs == [] then [] else Separated(bs[..|bs| - 1]) + bs[|bs| - 1]
  }

  /** The blocks joined by two blank lines, built from the front. */
  function Joined(bs: seq<seq<string>>): (lines: seq<string>)
  {
    if bs == [] then []
    else if |bs| == 1 then bs[0]
    else bs[0] + ["", ""] + Joined(bs[1..])
  }

  /** Separating two runs of blocks is separating each in turn. */
  lemma {:induction false} SeparatedAppend(a: seq<seq<string>>, b: seq<seq<string>>)
    ensures Separated(a + b) == Separated(a) + Separated(b)
  {
    if b == [] {
      assert a + b == a;
    } else {
      var n := |b| - 1;
      assert (a + b)[..|a + b| - 1] == a + b[..n];
      assert (a + b)[|a + b| - 1] == b[n];
      SeparatedAppend(a, b[..n]);
    }
  }

  /** Separating a non-empty run of blocks puts the first block and its two
      blank lines before the rest. */
  lemma SeparatedFront(bs: seq<seq<string>>)
    requires bs != []
    ensures Separated(bs) == bs[0] + ["", ""] + Separated(bs[1..])
  {
    assert bs == [bs[0]] + bs[1..];
    SeparatedAppend([bs[0]], bs[1..]);
    assert [bs[0]][..0] == [];
  }

  /** The report is the blocks in order, with exactly two blank lines between
      consecutive blocks and none after the last. */
  lemma {:induction false} ReportTextJoined(bs: seq<seq<string>>)
    ensures ReportText(bs) == Joined(bs)
  {
    if |bs| > 1 {
      var n := |bs| - 1;
      ReportTextJoined(bs[1..]);
      SeparatedFront(bs[..n]);
      assert bs[..n][1..] == bs[1..][..n - 1];
      assert bs[..n][0] == bs[0];
      assert bs[1..][n - 1] == bs[n];
    }
  }

  /** Printing the first `i + 1` results adds the `i`-th block to the first `i`. */
  lemma PrefixStep(rs: seq<GetUsersResult>, i: nat)
    requires i < |rs|
    ensures Separated(Blocks(rs[..i + 1])) == Separated(Blocks(rs[..i])) + Block(rs[i]) + ["", ""]
    ensures ReportText(Blocks(rs[..i + 1])) == Separated(Blocks(rs[..i])) + Block(rs[i])
  {
    assert Blocks(rs[..i + 1])[..i] == Blocks(rs[..i]);
    assert Blocks(rs[..i + 1])[i] == Block(rs[i]);
  }

  /** The lines `main` prints for one result. */
  method PrintResult(result: GetUsersResult) returns (lines: seq<string>)
    ensures lines == Block(result)
  {
    lines := [result.serviceName, Underline(result.serviceName), ""];
    BlockLines(result);
    for k := 0 to |result.users|
      invariant lines == Block(result)[..3 + k]
    {
      assert Block(result)[..3 + k + 1] == Block(result)[..3 + k] + [UserLine(result.users[k])];
      lines := lines + [UserLine(result.users[k])];
    }
    assert Block(result)[..3 + |result.users|] == Block(result);
  }

  /** The printing loop of `main` over the results in the order they arrive,
      `count` being the number of services started. The loop stops after the
      `count`-th result; if fewer arrive (or `count` is 0) it is left waiting
      on the channel, which `main` never closes, having printed every result
      followed by two blank lines. */
  method Report(arrivals: seq<GetUsersResult>, count: nat) returns (lines: seq<string>, finished: bool)
    ensures finished <==> 0 < count <= |arrivals|
    ensures lines == if finished then ReportText(Blocks(arrivals[..count])) else Separated(Blocks(arrivals))
  {
    lines := [];
    finished := false;
    var i := 0;
    while i < |arrivals|
      invariant 0 <= i <= |arrivals|
      invariant count == 0 || i < count
      invariant lines == Separated(Blocks(arrivals[..i]))
    {
      var block := PrintResult(arrivals[i]);
      PrefixStep(arrivals, i);
      lines := lines + block;
      if i + 1 != count {
        lines := lines + ["", ""];
      } else {
        finished := true;
        break;
      }
      i := i + 1;
    }
    if !finished {
      assert arrivals[..|arrivals|] == arrivals;
    }
  }
}
