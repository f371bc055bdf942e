/** The vocabulary shared by all backends: the account records a service
    reports, the result of one audit, and what a factory makes of the options. */
module Services {
  import opened Wrappers

  /** An account lacking two-factor authentication; `details` is a free-form annotation. */
  datatype User = User(name: string, email: Option<string>, details: Option<string>)

  datatype GetUsersResult = GetUsersResult(serviceName: string, users: seq<User>)

  datatype GetUsersError = GetUsersError(serviceName: string, errorMessage: string)

  /** A configured service, with the credentials its factory bound to it. */
  datatype Backend =
    | AwsService(accessKeyId: string, secretKey: string)
    | SlackService(token: string)

  /** What a factory makes of the parsed options: not configured, configured
      only in part (the missing option names), or a configured service. */
  datatype CreateServiceResult =
    | NoService
    | MissingArguments(args: seq<string>)
    | Service(backend: Backend)

  /** The parsed command line: option name to the value it was given. */
  type Matches = map<string, string>

  /** `matches.opt_str(name)`. */
  function OptStr(m: Matches, name: string): (r: Option<string>)
  {
    if name in m then Some(m[name]) else None
  }
}
