# otp-cop, modelled in Dafny

otp-cop audits team services for accounts without two-factor
authentication. Each backend has a factory that reads the parsed command-line
options. The factory either builds a configured service, declines because the
backend is not configured, or names the options that are missing. Each service
then lists its flagged users. `main` prints every result under an underlined
header. This project models that flow as Dafny functions, methods and lemmas:

- `Services` (src/service.rs): `User`, `GetUsersResult`, `GetUsersError`,
  `CreateServiceResult`. The boxed `Service` trait object becomes the closed
  datatype `Backend`, with one variant per configured service and its
  credentials. getopts `Matches` becomes `map<string, string>`, and `OptStr`
  stands for `opt_str`.
- `Wrappers`: Rust's `Option`, plus `Outcome` (`Ok` or `Panic(message)`), and
  the two `unwrap` panic messages. Every `unwrap`, `expect`, `assert!` and
  `panic!` in the backends is an `Outcome.Panic` result. The one `panic!` in
  `main`, on a factory that misses arguments (src/main.rs:33), is the
  `Startup.MissingArgumentsPanic` result of `StartServices`, which carries the
  missing option names. None of them is a precondition.
- `Selection`: `iter().filter_map(f).collect()` as `FilterMap`, and `Positions`,
  the increasing indices of the elements it keeps. `FilterMapAt` ties the two
  together. The AWS filter, the Slack filter and the startup loop all get their
  "exactly these, in this order" property from it.
- `Aws` (src/aws.rs):
  - the factory;
  - `Action::as_str` and `ReportResult::from_str`;
  - the XML look-ups of the two IAM responses, over a minimal `Element` tree;
  - the poll loop `PollReport`, which stops at the first `COMPLETE`;
  - `GetUsers`, which combines the poll, the credential report and the MFA filter.
- `Slack` (src/slack.rs):
  - the factory;
  - the short-circuiting filter `IsReported`;
  - the 4-way role annotation `Details`;
  - the map `ToUser`;
  - the chain `ReportedUsers`;
  - `GetUsers`, with its status and `ok` checks.
- `OtpCop` (src/main.rs):
  - the factory loop with the usage check, `StartServices`;
  - the per-result formatting, `PrintResult`;
  - the enumerate/`break` printing loop, `Report`.

What the model makes explicit:

- `String::len()` counts bytes. So the underline has one `=` per UTF-8 byte of
  the service name (`Utf8Len`), not one per character.
- `main` keeps its own channel sender, so the channel never closes. If fewer
  than `count` results arrive (a service thread panicked), or `count` is 0 (no
  service configured, after the usage text), the printing loop waits for ever.
  `Report` returns `finished == false` in exactly those cases.
- `main` consults only the Slack and Github factories. The Github factory always
  declines. `MainStartup` proves that, with these factories, startup never
  panics and configures the Slack service iff `slack-token` is given. The AWS
  factory is modelled and can be passed to `StartServices`. But src/lib.rs does
  not declare the `aws` module, so the shipped binary can never reach it.
- The usage text goes to standard output (`print!`), not standard error.
- `main` prints `result.service_name` of a `Result<GetUsersResult, _>`, which is
  not well-typed as written. The formatting is modelled over `GetUsersResult` values.
- `Aws.CreateService` builds `missing` from two conditional `push`es into a
  vector. The model writes them as the concatenation of two optional
  one-element sequences, in the same order.
- In the AWS factory, "both names are missing" never happens: that case is
  matched earlier and gives `NoService`. So `MissingArguments` always names
  exactly one option.

## Model

| member | source | states |
|---|---|---|
| Aws.CreateService | src/aws.rs:31-53 | Service holding exactly the two values iff both options are present; NoService iff both are absent; exactly one absent gives MissingArguments naming only that option |
| Aws.ActionNameInjective | src/aws.rs:66-73 | the two actions are sent under different names, `GenerateCredentialReport` and `GetCredentialReport` |
| Aws.ReportResultFromStr | src/aws.rs:108-116 | "STARTED" and "COMPLETE" parse to their states, COMPLETE iff the text is "COMPLETE"; any other text panics with "Unknown report result." |
| Aws.ReportResultRoundTrip | src/aws.rs:108-116 | parsing is the inverse of the state text IAM sends, in both directions |
| Aws.FindChild | src/aws.rs:169-172 | `get_mut_child` yields a child with the name, and nothing iff no child has it |
| Aws.FindChildFirst | src/aws.rs:169-172 | the child found is the first with the name: every child before it has another name |
| Aws.FindChildAt | src/aws.rs:169-172 | conversely, the first child with the name is the child found |
| Aws.ReportStateOfResponse | src/aws.rs:166-178 | for any response: no result element panics with "Can't find GenerateCredentialReportResult element."; no State element in the first result element panics with "Can't find State element."; a first State element without text panics with "Unknown state str"; otherwise its text is parsed, so the text of a state yields that state, as the well-formed response does |
| Aws.ReportContentOfResponse | src/aws.rs:180-191 | for any response: no result element panics with "Can't find GetCredentialReportResult element."; no Content element in the first result element panics with "Can't get Content element."; a first Content element without text panics with "No content text."; otherwise the content is that text, and the well-formed response gives back what it carries |
| Aws.FlaggedUsers | src/aws.rs:89-97 | a report row appears in the output iff mfa_active is false; each output user is (row.user, no email, Some(row.arn)); row order is preserved |
| Aws.SettledAtUnique | src/aws.rs:77-83 | at most one response is the first whose state is not STARTED |
| Aws.PollReport | src/aws.rs:77-83 | the poll stops at the first COMPLETE, or at the first panicking response, and never before; it keeps polling iff every response so far said STARTED |
| Aws.CredentialReportUsers | src/aws.rs:85-98 | succeeds iff the report content is present and decodes; then the service name is "aws" and the users are the filtered rows |
| Aws.GetUsers | src/aws.rs:76-99 | still polling iff every response said STARTED; once finished, the result is the panic of the first response that did not say STARTED or, when it said COMPLETE, the credential-report users |
| Selection.FilterMapAt | src/aws.rs:89-97 | filter_map keeps one value per kept position, in increasing position order, each the image of the element there |
| Slack.CreateService | src/slack.rs:41-46 | Service with the token iff `slack-token` is present, NoService iff it is absent, never MissingArguments |
| Slack.IsReported | src/slack.rs:73 | reported iff not deleted, not a bot and without 2FA; a deleted member is excluded without its flags being read; it panics iff a flag that is read is absent |
| Slack.DetailsNamesRoles | src/slack.rs:77-82 | no annotation iff neither owner nor admin; the annotation starts with "Owner" iff owner and ends with "Admin" iff admin |
| Slack.DetailsInjective | src/slack.rs:77-82 | different (owner, admin) pairs give different annotations |
| Slack.ToUser | src/slack.rs:74-83 | a user with the member's name, its email and its role annotation; panics iff the email or a role flag is absent |
| Slack.ReportedUsersOk | src/slack.rs:70-84 | the chain succeeds iff every member is admissible, and then yields the filter-map of the members |
| Slack.ReportedMembers | src/slack.rs:70-84 | when the chain succeeds, a member is reported iff !deleted, !is_bot and !has_2fa, and the reported members keep their order |
| Slack.ReportedUserFields | src/slack.rs:74-83 | the k-th reported user has the name of the member at the k-th reported position, its email (which is present) and its role annotation |
| Slack.GetUsers | src/slack.rs:54-90 | a status other than 200, an undecodable body or ok == false panics; otherwise the result is "Slack" with the reported users, when the chain succeeds |
| OtpCop.StartServices | src/main.rs:28-40 | any factory returning MissingArguments aborts with the first such list; otherwise the services are those of the factories that returned Service, in factory order; usage is printed iff there are none |
| OtpCop.ConfiguredServices | src/main.rs:28-36 | the k-th configured service comes from the k-th factory that returned Service; NoService contributes nothing |
| OtpCop.MainStartup | src/main.rs:12-36 | with main's factories, startup never aborts, and the only possible service is Slack, present iff `slack-token` is given |
| OtpCop.Utf8LenBounds | src/main.rs:54 | the byte length of a name lies between its character count and four times it, and equals the character count for ASCII |
| OtpCop.Underline | src/main.rs:54 | the underline is only `=` and its length is the name's byte length |
| OtpCop.UserLineShape | src/main.rs:56-65 | the line starts with "@" + name; " (email)" follows the name when there is an email; it ends with " -- details" when there are details, else with " (email)" or the name; its length is that of the parts present |
| OtpCop.BlockLines | src/main.rs:53-65 | a result prints its name, its underline, a blank line and one user line per user, in order |
| OtpCop.PrintResult | src/main.rs:53-66 | the lines printed for one result are exactly its block |
| OtpCop.ReportTextJoined | src/main.rs:67-72 | the report is the result blocks in order, joined by exactly two blank lines, none after the last |
| OtpCop.Report | src/main.rs:52-73 | finishes iff 0 < count <= number of arrivals, having printed exactly the first count results; otherwise it waits for ever, having printed every arrival followed by two blank lines |

## Left out

- Network, signing and I/O: `AWSService::request` and its rusoto signing, the
  reqwest call and the body read in Slack. Their responses are inputs. The IAM
  responses are `Element` trees. The Slack response is a status and an
  already-decoded body.
- XML parsing, base64 and CSV decoding, serde JSON decoding: these are library
  code. AWS takes `decode` as a parameter, and `None` stands for a decoding
  error that `unwrap` turns into a panic. Slack takes the decoded body as
  `Option`.
- The columns of the credential report that the audit does not read. `AwsUser`
  keeps `user`, `arn` and `mfa_active`.
- `sleep_ms(500)` between polls: it has no observable effect in the model.
- Aws.PollReport: the source polls without bound. The model polls over the
  finite sequence of responses it is given, and reports `Pending` when they
  run out before the report settles.
- Threads, the mpsc channel and arrival order. `Report` takes the results in
  the order they arrive, as a given sequence. Nothing orders them
  deterministically, and a thread that panics sends nothing.
- getopts registration and parsing (`add_options`, `opts.parse`), and the text
  of `opts.usage`. Startup only reports whether the usage text is printed. The
  `panic!` on a getopts parse error is not modelled.
- The text of the panic messages raised by the Rust runtime. Panics from
  `unwrap` and `assert!` carry descriptive messages close to the runtime's.
  The messages of `expect` and `panic!` are the source's own.
- The `Missing arguments: {:?}` panic text: `StartServices` returns the list of
  missing arguments itself.
- src/github.rs: in the model, its factory always declines. Its `get_users`
  returns an undeclared `ServiceResult` type and is not modelled.
- `GetUsersError` is mirrored as a datatype. No modelled operation constructs
  one, because the source never returns it.
