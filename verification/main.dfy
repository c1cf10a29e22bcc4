/** main.go at the repository root: an older, standalone copy of the
    configuration code (`RazorConfig`, `applyDefaults`, `validate`) and the
    file-name rule of `generateTemplate`. Its copies diverge from
    config/config.go in two places: defaults never fill include_ports, and
    validation does not require targets. */
module RootMain {
  import opened Engagement
  import opened Settings
  import opened Results
  import opened ConfigObject
  import ConfigPkg
  import Text

  /** `applyDefaults(c *RazorConfig)`: the limits block, then the CVSS and
      deliverables defaults. There is no include_ports default here. */
  method ApplyDefaults(c: Razor)
    modifies c
    ensures c.Value() == LegacyWithDefaults(old(c.Value()))
  {
    c.ApplyLimitDefaults();
    if c.report.cvss == "" {
      c.report := c.report.(cvss := SupportedCvss);
    }
    if |c.report.deliverables| == 0 {
      c.report := c.report.(deliverables := DefaultDeliverables);
    }
  }

  /** The record after main.go's `applyDefaults`. */
  function LegacyWithDefaults(c: Config): Config
  {
    c.(limits := LimitsWithDefaults(c.limits), report := ReportWithDefaults(c.report))
  }

  /** The order of main.go's `validate` checks: config/config.go's list
      without the target check. */
  const MainChecks: seq<Check> := [
    NameCheck, ClientCheck, PortsCheck, WindowCheck, RpsCheck, TotalCheck,
    ConcurrencyCheck, TimeoutsCheck, RetriesCheck, DeliverablesCheck, CvssCheck]

  /** main.go's `validate`: it succeeds exactly when every condition holds,
      with no condition on the targets. */
  function Validate(c: Config): (r: Outcome)
    ensures r == Pass <==> FieldsValid(c, false)
  {
    MainChecksComplete();
    RunChecksPassIff(MainChecks, c, false);
    RunChecks(MainChecks, c)
  }

  /** `LoadConfig` after reading and unmarshalling: defaults, then validate.
      Unlike `config.Load`, an empty include_ports list is kept as it is and
      passes the port check. */
  method LoadConfig(parsed: Config) returns (r: Result<Config, ConfigError>)
    ensures var d := LegacyWithDefaults(parsed);
      r == if Validate(d) == Pass then Success(d) else Failure(Validate(d).error)
    ensures r.Success? ==> r.value.scope == parsed.scope
  {
    var c := new Razor(parsed);
    ApplyDefaults(c);
    var verdict := Validate(c.Value());
    if verdict.Fail? {
      return Failure(verdict.error);
    }
    return Success(c.Value());
  }

  /** main.go's list holds every check but the target check. */
  lemma MainChecksComplete()
    ensures forall k: Check :: k in MainChecks <==> k != TargetsCheck
  {
    forall k: Check | k != TargetsCheck
      ensures k in MainChecks
    {
      var i := match k
        case NameCheck => 0 case ClientCheck => 1 case PortsCheck => 2 case WindowCheck => 3
        case RpsCheck => 4 case TotalCheck => 5 case ConcurrencyCheck => 6 case TimeoutsCheck => 7
        case RetriesCheck => 8 case DeliverablesCheck => 9 case CvssCheck => 10 case TargetsCheck => 0;
      assert MainChecks[i] == k;
    }
  }

  /** The first two checks of the list, one at a time. */
  lemma MainChecksStart()
    ensures MainChecks == [NameCheck] + ([ClientCheck] + MainChecks[2..])
  {
  }

  /** On failure main.go's `validate` reports the first failing check of its
      list, in source order. */
  lemma ValidateReportsFirstFailure(c: Config, e: ConfigError)
    requires Validate(c) == Fail(e)
    ensures e != TargetRequired
    ensures exists i :: 0 <= i < |MainChecks| && MainChecks[i] == ErrorCheck(e) &&
                        CheckResult(MainChecks[i], c) == Fail(e) &&
                        forall j :: 0 <= j < i ==> CheckResult(MainChecks[j], c) == Pass
  {
    RunChecksReportsFirstFailure(MainChecks, c, e);
    RunChecksErrorFromList(MainChecks, c, e);
    MainChecksComplete();
  }

  /** With at least one target the two `validate` copies give the same
      verdict, error included. */
  lemma ValidateAgreesWhenTargetsGiven(c: Config)
    requires |c.scope.targets| > 0
    ensures Validate(c) == ConfigPkg.Validate(c)
  {
    assert ConfigPkg.ConfigChecks == MainChecks[..2] + [TargetsCheck] + MainChecks[2..];
    assert MainChecks == MainChecks[..2] + MainChecks[2..];
    RunChecksSkipsPassing(MainChecks[..2], TargetsCheck, MainChecks[2..], c);
  }

  /** With no target, a configuration main.go accepts is refused by
      config/config.go with the target error, and vice versa nothing with no
      target passes config/config.go. */
  lemma EmptyTargetsDiverge(c: Config)
    requires c.scope.targets == []
    ensures ConfigPkg.Validate(c) != Pass
    ensures Validate(c) == Pass ==> ConfigPkg.Validate(c) == Fail(TargetRequired)
  {
    var rest := ConfigPkg.ConfigChecks[3..];
    ConfigPkg.ConfigChecksStart();
    RunChecksCons(NameCheck, [ClientCheck] + ([TargetsCheck] + rest), c);
    RunChecksCons(ClientCheck, [TargetsCheck] + rest, c);
    RunChecksCons(TargetsCheck, rest, c);
    var mainRest := MainChecks[2..];
    MainChecksStart();
    RunChecksCons(NameCheck, [ClientCheck] + mainRest, c);
    RunChecksCons(ClientCheck, mainRest, c);
  }

  /** The two default functions agree on everything but include_ports, which
      main.go never fills. */
  lemma LegacyDefaultsSkipPorts(c: Config, ps: seq<int>)
    ensures LegacyWithDefaults(c).scope == c.scope
    ensures ConfigPkg.WithDefaults(c, ps) == LegacyWithDefaults(c).(scope := ConfigPkg.WithDefaults(c, ps).scope)
    ensures c.scope.includePorts != [] ==> ConfigPkg.WithDefaults(c, ps) == LegacyWithDefaults(c)
  {
  }

  /** main.go's `applyDefaults` twice is `applyDefaults` once. */
  lemma LegacyDefaultsIdempotent(c: Config)
    ensures LegacyWithDefaults(LegacyWithDefaults(c)) == LegacyWithDefaults(c)
  {
  }

  /** An empty include_ports list stays empty under main.go's defaults and so
      passes its port check: main.go loads what config/config.go refuses. */
  lemma EmptyPortsPassPortCheck(c: Config)
    requires c.scope.includePorts == []
    ensures CheckResult(PortsCheck, LegacyWithDefaults(c)) == Pass
  {
    PortsCheckPassIff(LegacyWithDefaults(c));
  }

  datatype TemplateError = NameHasDot

  /** `generateTemplate`'s file name: a name containing '.' is refused,
      any other gets the ".yaml" suffix. */
  function TemplateFileName(filename: string): (r: Result<string, TemplateError>)
    ensures r.Failure? <==> '.' in filename
    ensures r.Success? ==> |r.value| == |filename| + 5 && r.value[..|filename|] == filename
  {
    if '.' in filename then Failure(NameHasDot) else Success(filename + ".yaml")
  }

  /** The generated name splits on '.' into the given name and "yaml": the
      suffix's dot is the only one. */
  lemma TemplateFileNameSplits(filename: string)
    requires '.' !in filename
    ensures Text.Split(TemplateFileName(filename).value, '.') == [filename, "yaml"]
  {
    var f := filename + ".yaml";
    assert f[|filename|] == '.';
    assert f[|filename| + 1..] == "yaml";
    assert Text.LastIndex(f, '.') == |filename|;
    assert f[..|filename|] == filename;
  }

  /** Distinct accepted names give distinct files. */
  lemma TemplateFileNameInjective(a: string, b: string)
    requires TemplateFileName(a).Success? && TemplateFileName(b).Success?
    requires TemplateFileName(a).value == TemplateFileName(b).value
    ensures a == b
  {
    TemplateFileNameSplits(a);
    TemplateFileNameSplits(b);
  }
}
