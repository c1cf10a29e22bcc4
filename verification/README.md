# razor engagement configuration, modelled in Dafny

razor is a command-line penetration-testing orchestrator. Its engagement is
described by a YAML configuration with these parts:

- a name and a client;
- a scope: targets, ports to include, a host cap, whether intrusive checks
  are allowed, and an optional time window;
- rate and timeout limits;
- report settings;
- free-form notes.

Before anything is scanned the configuration is normalised (`ApplyDefaults`)
and validated (`validate`). The runner then derives an output directory from
the sanitised client and engagement names. It also decides whether the
intrusive XSS/SQLi step may run.

This project models that pipeline and proves its properties:

- `engagement.dfy`: the configuration records. `ISOTime` is either unset or
  an abstract instant compared with a strict `>`.
- `config_object.dfy`: the mutable configuration object. config/config.go
  calls it `Razor` and main.go calls it `RazorConfig`. The limits block
  that both default functions share is a method of this object.
- `settings.dfy`: the default values, one datatype value per check of
  `validate` with its error, and `RunChecks`, which stops at the first
  failing check. Both `validate` copies are ordered lists of these checks.
- `defaults.dfy`: the default port catalogue and `Ports()` exactly as
  written, with the corrected version beside it.
- `config.dfy`: config/config.go's `ApplyDefaults`, `validate`, `Load` (after
  unmarshalling) and `SlicePortToStr`, and how they interact with `Ports()`.
- `main.dfy`: main.go's older copies. Their defaults never fill
  include_ports and their `validate` does not require targets. The module
  also has `generateTemplate`'s file-name rule.
- `naming.dfy`: `sanitize`, which main.go and cmd/runner/main.go both define
  identically.
- `runner.dfy`: the runner's output directory, `ensureTools` and the
  intrusive-step gate.
- `text.dfy`, `decimal.dfy` and `seqs.dfy`: the pieces of Go's `strings`,
  `fmt` (`%d`) and `filepath` behaviour the code relies on, and a
  first-match search.

Each method that loops or updates state in place (`ApplyDefaults`,
`applyDefaults`, `SlicePortToStr`, `sanitize`, `Ports()`, `ensureTools`) is
proved against a function of its inputs. The properties themselves are lemmas about those
functions.

`Ports()` as written is wrong, and the model keeps it as written. It
allocates its slice with a non-zero length and then appends to it, so it
returns 43 zeros followed by the catalogue. Under `config.Load` a
configuration that leaves include_ports empty is therefore always refused:
it fails on its name, its client, its targets, or "invalid port 0". See
"## Findings" below.

## Model

| member | source | states |
|---|---|---|
| Settings.LimitsDefaultsOnlyReplaceZero | config/config.go:98-113 | each zero limit becomes 2, 1000, 10, 5 or 10 respectively; every non-zero value, negative ones included, and retries are unchanged |
| Settings.ReportDefaultsOnlyFillEmpty | config/config.go:114-126 | an empty CVSS becomes "v3.1" and empty deliverables become [html_tech, json_findings]; non-empty values and the other report fields are unchanged |
| ConfigObject.Razor.constructor | config/config.go:34-41 | the object holds exactly the unmarshalled record |
| ConfigObject.Razor.ApplyLimitDefaults | config/config.go:98-113 | the limits become their defaulted form; name, client, scope, report and notes are unchanged |
| ConfigPkg.ApplyDefaults | config/config.go:97-127 | the object's new value is the old value with its limits and report defaulted, and `Ports()` in place of an empty include_ports list |
| ConfigPkg.DefaultsOnlyFillUnset | config/config.go:97-127 | defaults change only limits, the report defaults and an empty port list; name, client, targets, max hosts, intrusiveness, time window and notes are kept |
| ConfigPkg.DefaultsIdempotent | config/config.go:97-127 | applying the defaults twice equals applying them once |
| Engagement.AfterIsStrictTotalOrder | config/config.go:150 | `After` on set times is strict (never reflexive, never both ways), transitive, and total on distinct times |
| Settings.WindowCheckResult | config/config.go:146-153 | with `IsZero` as the unset case, the window passes iff both ends are unset or end is strictly after start; it is "incomplete" iff exactly one end is set, "not ordered" iff both are set and end <= start |
| Settings.CheckResult | config/config.go:129-185 | a failing check always reports an error that belongs to that check |
| Settings.RunChecks | config/config.go:129-185 | an ordered check list passes iff every check passes; a failure is the verdict of a check all of whose predecessors pass |
| Settings.PortsCheckPassIff | config/config.go:141-145 | the port check passes iff every listed port lies in 1..65535 |
| Settings.InvalidPortIsFirstOutOfRange | config/config.go:141-145 | whatever the order of the other checks, a reported invalid port is the first entry outside 1..65535 |
| Settings.DeliverablesCheckPassIff | config/config.go:172-180 | the deliverables check passes iff every deliverable is pdf_exec, html_tech or json_findings |
| Settings.ChecksPassIff | config/config.go:129-185 | every applicable check passes iff all the conditions of `validate` hold |
| Settings.RunChecksPassIff | config/config.go:129-185 | a check list holding all checks, with the target check exactly when targets are required, passes iff all the conditions hold |
| Settings.RunChecksReportsFirstFailure | config/config.go:129-185 | the reported error comes from the check it belongs to, and every earlier check passes |
| Settings.RunChecksSkipsPassing | main.go:120-172 | dropping a check that passes from an ordered list leaves the verdict unchanged |
| ConfigPkg.Validate | config/config.go:129-185 | `validate` succeeds iff name and client are set, targets are non-empty, all ports are valid, the window is valid, the limits are in range, the deliverables are known and the CVSS is v3.1 |
| ConfigPkg.ValidateReportsFirstFailure | config/config.go:129-185 | on failure the error is that of the first failing check in source order |
| ConfigPkg.ValidateReportsFirstInvalidPort | config/config.go:141-145 | a port error names the first out-of-range port of include_ports |
| ConfigPkg.DefaultedChecksFailOnlyOnUserValues | config/config.go:99-121 | after defaults, the concurrency, timeout and rps checks fail only for negative configured values, and the CVSS check only for a user-supplied version other than v3.1 |
| ConfigPkg.EmptyPortsRefused | config/config.go:119-144 | for any default list starting with 0, an empty include_ports list fails the port check with port 0, and `validate` reports the name, the client, the targets or that port |
| ConfigPkg.EmptyPortsFailWithZero | config/config.go:119-121 | after defaults, an empty include_ports list fails the port check with port 0 |
| ConfigPkg.EmptyPortsNeverValidate | config/config.go:81-95 | a configuration with empty include_ports is always refused: for its name, client, targets, or port 0; when those three are set, with port 0 |
| ConfigPkg.IntendedDefaultsPassPortCheck | defaults/defaults.go:5-13 | with the intended catalogue, an empty include_ports list passes the port check |
| ConfigPkg.Load | config/config.go:81-95 | loading yields the defaulted record iff it validates, otherwise the first error; an empty include_ports list is never loaded |
| ConfigPkg.Renderings | config/config.go:240-242 | one `%d` rendering per port, in order |
| Decimal.FormatInt | config/config.go:241 | `%d` is non-empty, made of digits apart from a leading '-', starts with '-' iff the integer is negative, is "0" for zero and has no leading zero otherwise |
| Decimal.ParseFormatInt | config/config.go:241 | `%d` of any integer, negative ones included, reads back to that integer |
| ConfigPkg.SlicePortToStr | config/config.go:236-246 | the result is the renderings joined by single commas; it is empty iff the input is, and never starts or ends with a comma |
| Text.Trim | config/config.go:244 | the trimmed string is no longer than the input and neither starts nor ends with the cut character, and an input that neither starts nor ends with it is returned unchanged |
| Text.TrimKeepsMiddle | config/config.go:244 | the trimmed string is the slice of the input that follows its leading cut characters, and every character dropped before or after that slice is the cut character |
| Text.TrimAllSep | config/config.go:244 | an input made only of the cut character trims to "" |
| Text.TrimTerminated | config/config.go:244 | trimming commas from the builder's "p1,p2,...,pn," gives the comma join of the renderings |
| ConfigPkg.PortListRoundTrip | config/config.go:236-246 | splitting the output on ',' gives back each rendering in order, and parsing those gives back the ports |
| ConfigPkg.PortListStringThreePorts | config/config_test.go:19-22 | [10,20,30] renders as "10,20,30" |
| ConfigPkg.PortListStringZeros | config/config_test.go:23-26 | [0,0,0,0] renders as "0,0,0,0" |
| ConfigPkg.PortListStringNegative | config/config_test.go:27-30 | [-1,0,0,0] renders as "-1,0,0,0" |
| Defaults.Catalogue | defaults/defaults.go:15-68 | the four lists in order hold 43 ports |
| Defaults.Zeros | defaults/defaults.go:6 | `make([]int, n)` gives n entries, all 0 |
| Defaults.Ports | defaults/defaults.go:5-13 | `Ports()` returns the zeroed slice of catalogue length followed by the four lists |
| Defaults.PortsLayout | defaults/defaults.go:5-13 | `Ports()` has 86 entries: the first 43 are 0 and the rest are VeryCommon, CommonEnterprise, ServiceSpecific, Rare in order |
| Defaults.PortsStartsWithZero | defaults/defaults.go:6 | the first entry of `Ports()` is 0, which is not a valid port |
| Defaults.IntendedPorts | defaults/defaults.go:5-13 | with zero initial length the result is exactly the catalogue, every entry a valid port |
| Defaults.ListSizes | defaults/defaults.go:15-68 | the lists hold 10, 8, 13 and 12 ports |
| Defaults.CatalogueInRange | defaults/defaults.go:15-68 | every catalogue port lies in 1..65535 |
| Defaults.CatalogueDistinct | defaults/defaults.go:15-68 | no port appears twice in the catalogue |
| RootMain.ApplyDefaults | main.go:93-118 | the object's new value has its limits and report defaulted; the scope, include_ports included, is unchanged |
| RootMain.LegacyDefaultsSkipPorts | main.go:93-118 | main.go's defaults leave the scope alone, and agree with config/config.go's defaults on everything but include_ports; they agree completely when include_ports is non-empty |
| RootMain.LegacyDefaultsIdempotent | main.go:93-118 | applying main.go's defaults twice equals applying them once |
| RootMain.Validate | main.go:120-172 | main.go's `validate` succeeds iff all the conditions hold, with none on the targets |
| RootMain.ValidateReportsFirstFailure | main.go:120-172 | on failure the error is that of the first failing check, and it is never the target error |
| RootMain.ValidateAgreesWhenTargetsGiven | main.go:120-172 | with at least one target both `validate` copies return the same verdict and error |
| RootMain.EmptyTargetsDiverge | main.go:120-126 | with no target config/config.go never accepts, and whatever main.go accepts config/config.go refuses with the target error |
| RootMain.EmptyPortsPassPortCheck | main.go:127-132 | under main.go's defaults an empty include_ports list passes the port check |
| RootMain.LoadConfig | main.go:77-91 | loading yields the defaulted record iff it validates, otherwise the first error; a loaded record keeps its scope as given |
| RootMain.TemplateFileName | main.go:224-229 | a name with a '.' is refused; any other name gets the ".yaml" suffix |
| RootMain.TemplateFileNameSplits | main.go:224-229 | an accepted name's file name splits on '.' into exactly the name and "yaml" |
| RootMain.TemplateFileNameInjective | main.go:224-229 | distinct accepted names give distinct file names |
| Naming.SanitizeRune | main.go:279-287 | an allowed rune is kept and any other becomes '_'; the result is always allowed |
| Naming.Sanitized | main.go:274-289 | the result has the input's rune count, and each rune is the input rune mapped on its own |
| Naming.Sanitize | cmd/runner/main.go:80-95 | the loop builds `Sanitized(s)`: same rune count, only [A-Za-z0-9_-], allowed runes kept in place, others replaced by '_' |
| Naming.SanitizeIdempotent | main.go:274-289 | sanitising twice equals sanitising once |
| Naming.SanitizeFixedPointIff | main.go:274-289 | sanitising leaves a string unchanged iff all its runes are allowed |
| Naming.SanitizedIsOneSegment | cmd/runner/main.go:85-92 | a sanitised name holds no '/', '\\' or '.' |
| Runner.NonEmpty | cmd/runner/main.go:39 | the join keeps exactly the non-empty elements: every kept element is non-empty, an element is kept iff it is non-empty, and a list with no empty element is kept whole and in order |
| Runner.ResolveOutDir | cmd/runner/main.go:37-40 | a non-empty out_dir is used verbatim; otherwise the path is artifacts/<sanitised client>/<sanitised name> |
| Runner.DefaultOutDirSegments | cmd/runner/main.go:39 | for a non-empty client and name the default path splits on '/' into exactly "artifacts", the sanitised client and the sanitised name, and contains no '.' |
| Runner.LoadedOutDirUnderArtifacts | cmd/runner/main.go:29-40 | for every configuration `config.Load` accepts, the default path has those three segments |
| Runner.EnsureTools | cmd/runner/main.go:97-104 | all tools are found iff each binary is on the search path; otherwise the first missing binary is named |
| Runner.IntrusiveDecision | cmd/runner/main.go:70-77 | the scans run iff intrusive checks are allowed and both xsstrike and sqlmap are found; the step is skipped iff they are not allowed; a tooling error names xsstrike when it is missing, else sqlmap |
| Runner.IntrusivePhase | cmd/runner/main.go:70-77 | the runner's intrusive block reaches exactly the decision above |

## Left out

- File reading and YAML unmarshalling in `config.Load` and main.go's
  `LoadConfig`. Both are modelled from the unmarshalled record on.
- `ISOTime.UnmarshalYAML` and RFC 3339 section 5.6 timestamp parsing. Time
  is an abstract ordered instant with an "unset" case.
- Error message texts, including `%q` quoting, are not modelled. Each error
  is a `ConfigError` value that keeps the offending port, deliverable or
  CVSS string.
- `Razor.Nmap` and `portScan.Run`: wrappers over the external nmap library
  and the network. Only their input, the port string built by
  `SlicePortToStr`, is modelled.
- The web enumeration (`Enum`, `defaults.CommonEndpoints`), `XssScan`,
  `SQLiScan` and the `mess` package. Their code is not part of this model,
  and the first two are concurrent network I/O.
- `exec.LookPath` is the `onPath` set parameter. Runner.IntrusivePhase does
  not model the runner's exits after a failed nmap or enumeration step,
  which come before the intrusive block.
- The `main` functions of main.go, cmd/runner/main.go and cmd/gen/main.go:
  argument parsing, argument-count exits, printing and exit codes. The
  default output directory in main.go's `main` is the same expression as
  the runner's, which Runner.ResolveOutDir models.
- `generateTemplate`'s file creation and template text. Only its '.' guard
  and the ".yaml" suffix are modelled.
- Runner.ResolveOutDir: `filepath.Join` and `Clean` are modelled only for
  the sanitised elements the runner passes, with '/' as the separator.
  Empty elements are dropped, and such elements contain no '.' or '/' for
  `Clean` to rewrite. Windows separators are not modelled.
- Integers are unbounded. Go's 64-bit `int` overflow cannot occur in the
  modelled code, which only compares, renders and parses.
- Strings are modelled as sequences of runes. UTF-8 decoding in
  `[]rune(s)` is not modelled; invalid bytes become U+FFFD in Go.
- The four port lists are Go package variables. They are modelled as
  constants, so `Ports()` leaving them unchanged holds by construction.

## Findings

| source | as written | input that shows it | evidently intended | confidence | as-written member | corrected member |
|---|---|---|---|---|---|---|
| defaults/defaults.go:6 | `make([]int, n)` allocates n zeroed entries, and the four appends land after them | `Ports()` returns 86 entries, the first 43 being 0. A configuration with empty include_ports, a name, a client and a target is refused by `config.Load` with "invalid port: 0" | `make([]int, 0, n)`, so that the result is the 43-port catalogue | not executed | Defaults.Ports | Defaults.IntendedPorts |

Defaults.PortsLayout and ConfigPkg.EmptyPortsNeverValidate prove the
as-written behaviour and its consequence for loading.
Defaults.IntendedPorts and ConfigPkg.IntendedDefaultsPassPortCheck prove
that with the intended catalogue every default port is valid, so an empty
include_ports list passes the port check. ConfigPkg.WithDefaults takes the
default port list as a parameter, and both versions are stated through it.
`config.Load` itself is modelled with the as-written `Ports()`, because that
is what the program does.
