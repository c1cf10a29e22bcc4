/** config/config.go: the `Razor` configuration object, its defaults, its
    validation, and the port-list rendering handed to the scanner. */
module ConfigPkg {
  import opened Engagement
  import opened Settings
  import opened Results
  import Defaults
  import Text
  import Decimal
  import opened ConfigObject

  /** `(*Razor).ApplyDefaults`. */
  method ApplyDefaults(c: Razor)
    modifies c
    ensures c.Value() == WithDefaults(old(c.Value()), Defaults.PortsValue())
  {
    c.ApplyLimitDefaults();
    if c.report.cvss == "" {
      c.report := c.report.(cvss := SupportedCvss);
    }
    if |c.scope.includePorts| == 0 {
      var ports := Defaults.Ports();
      c.scope := c.scope.(includePorts := ports);
    }
    if |c.report.deliverables| == 0 {
      c.report := c.report.(deliverables := DefaultDeliverables);
    }
  }

  /** The record after `ApplyDefaults`, where `defaultPorts` is what
      `defaults.Ports()` returns. */
  function WithDefaults(c: Config, defaultPorts: seq<int>): Config
  {
    c.(limits := LimitsWithDefaults(c.limits),
       report := ReportWithDefaults(c.report),
       scope := if |c.scope.includePorts| == 0 then c.scope.(includePorts := defaultPorts) else c.scope)
  }

  /** The order of `validate`'s checks in config/config.go. */
  const ConfigChecks: seq<Check> := [
    NameCheck, ClientCheck, TargetsCheck, PortsCheck, WindowCheck, RpsCheck,
    TotalCheck, ConcurrencyCheck, TimeoutsCheck, RetriesCheck, DeliverablesCheck, CvssCheck]

  /** `validate`: nil, or the error of the first failing check. It succeeds
      exactly when name and client are set, there is a target, and every
      other condition holds. */
  function Validate(c: Config): (r: Outcome)
    ensures r == Pass <==> FieldsValid(c, true)
  {
    ConfigChecksComplete();
    RunChecksPassIff(ConfigChecks, c, true);
    RunChecks(ConfigChecks, c)
  }

  /** `Load` after the file has been read and unmarshalled into `parsed`:
      apply the defaults, then validate. An empty port list is never loaded. */
  method Load(parsed: Config) returns (r: Result<Config, ConfigError>)
    ensures var d := WithDefaults(parsed, Defaults.PortsValue());
      r == if Validate(d) == Pass then Success(d) else Failure(Validate(d).error)
    ensures parsed.scope.includePorts == [] ==> r.Failure?
  {
    var c := new Razor(parsed);
    ApplyDefaults(c);
    var verdict := Validate(c.Value());
    if parsed.scope.includePorts == [] {
      EmptyPortsNeverValidate(parsed);
    }
    if verdict.Fail? {
      return Failure(verdict.error);
    }
    return Success(c.Value());
  }

  /** Every check is on config/config.go's list. */
  lemma ConfigChecksComplete()
    ensures forall k: Check :: k in ConfigChecks
  {
    forall k: Check
      ensures k in ConfigChecks
    {
      var i := match k
        case NameCheck => 0 case ClientCheck => 1 case TargetsCheck => 2 case PortsCheck => 3
        case WindowCheck => 4 case RpsCheck => 5 case TotalCheck => 6 case ConcurrencyCheck => 7
        case TimeoutsCheck => 8 case RetriesCheck => 9 case DeliverablesCheck => 10 case CvssCheck => 11;
      assert ConfigChecks[i] == k;
    }
  }

  /** The first four checks of the list, one at a time. */
  lemma ConfigChecksStart()
    ensures ConfigChecks == [NameCheck] + ([ClientCheck] + ([TargetsCheck] + ConfigChecks[3..]))
    ensures ConfigChecks[3..] == [PortsCheck] + ConfigChecks[4..]
  {
  }

  /** On failure `validate` reports the first failing check in source order:
      its error belongs to the check at position `i` and all earlier checks
      pass. */
  lemma ValidateReportsFirstFailure(c: Config, e: ConfigError)
    requires Validate(c) == Fail(e)
    ensures exists i :: 0 <= i < |ConfigChecks| && ConfigChecks[i] == ErrorCheck(e) &&
                        CheckResult(ConfigChecks[i], c) == Fail(e) &&
                        forall j :: 0 <= j < i ==> CheckResult(ConfigChecks[j], c) == Pass
  {
    RunChecksReportsFirstFailure(ConfigChecks, c, e);
  }

  /** A rejected port is the first out-of-range entry of include_ports. */
  lemma ValidateReportsFirstInvalidPort(c: Config, p: int)
    requires Validate(c) == Fail(InvalidPort(p))
    ensures exists i :: 0 <= i < |c.scope.includePorts| && c.scope.includePorts[i] == p && !ValidPort(p) &&
                        forall j :: 0 <= j < i ==> ValidPort(c.scope.includePorts[j])
  {
    InvalidPortIsFirstOutOfRange(ConfigChecks, c, p);
  }

  /** Defaults only fill zero limits and empty CVSS, ports and deliverables;
      name, client, targets, max hosts, intrusiveness, time window, retries,
      redactions, screenshots, output directory and notes are kept. */
  lemma DefaultsOnlyFillUnset(c: Config, ps: seq<int>)
    ensures var d := WithDefaults(c, ps);
      && d.limits == LimitsWithDefaults(c.limits)
      && d.report == ReportWithDefaults(c.report)
      && d.scope.includePorts == (if c.scope.includePorts == [] then ps else c.scope.includePorts)
      && d.name == c.name && d.client == c.client && d.notes == c.notes
      && d.scope.targets == c.scope.targets && d.scope.maxHosts == c.scope.maxHosts
      && d.scope.allowIntrusive == c.scope.allowIntrusive && d.scope.timeWindow == c.scope.timeWindow
  {
  }

  /** `ApplyDefaults` twice is `ApplyDefaults` once. */
  lemma DefaultsIdempotent(c: Config)
    ensures WithDefaults(WithDefaults(c, Defaults.PortsValue()), Defaults.PortsValue()) ==
            WithDefaults(c, Defaults.PortsValue())
  {
  }

  /** After the defaults, the concurrency check fails only for a negative
      configured concurrency, the timeout check only for a negative configured
      timeout, and the CVSS check only for a user-supplied version other than
      v3.1. */
  lemma DefaultedChecksFailOnlyOnUserValues(c: Config, ps: seq<int>)
    ensures var d := WithDefaults(c, ps);
      && (CheckResult(ConcurrencyCheck, d).Fail? <==> c.limits.concurrency < 0)
      && (CheckResult(TimeoutsCheck, d).Fail? <==> c.limits.connectTimeoutS < 0 || c.limits.requestTimeoutS < 0)
      && (CheckResult(CvssCheck, d).Fail? <==> c.report.cvss != "" && c.report.cvss != "v3.1")
      && (CheckResult(RpsCheck, d).Fail? <==> c.limits.rpsPerHost < 0)
      && CheckResult(DeliverablesCheck, d).Fail? == CheckResult(DeliverablesCheck, c).Fail?
  {
  }

  /** An empty include_ports list replaced by a default list that starts
      with 0 fails the port check with port 0, and then `validate` can only
      report the name, the client, the targets or that port. */
  lemma EmptyPortsRefused(c: Config, ps: seq<int>)
    requires c.scope.includePorts == [] && |ps| > 0 && ps[0] == 0
    ensures CheckResult(PortsCheck, WithDefaults(c, ps)) == Fail(InvalidPort(0))
    ensures var v := Validate(WithDefaults(c, ps));
      v in {Fail(NameRequired), Fail(ClientRequired), Fail(TargetRequired), Fail(InvalidPort(0))}
    ensures c.name != "" && c.client != "" && c.scope.targets != [] ==>
      Validate(WithDefaults(c, ps)) == Fail(InvalidPort(0))
  {
    var d := WithDefaults(c, ps);
    PortsCheckFailsOnFirst(d);
    var rest := ConfigChecks[4..];
    ConfigChecksStart();
    RunChecksCons(NameCheck, [ClientCheck] + ([TargetsCheck] + ([PortsCheck] + rest)), d);
    RunChecksCons(ClientCheck, [TargetsCheck] + ([PortsCheck] + rest), d);
    RunChecksCons(TargetsCheck, [PortsCheck] + rest, d);
    RunChecksCons(PortsCheck, rest, d);
  }

  /** An empty include_ports list is replaced by `Ports()`, whose first entry is
      0: the port check then always fails with port 0. */
  lemma EmptyPortsFailWithZero(c: Config)
    requires c.scope.includePorts == []
    ensures CheckResult(PortsCheck, WithDefaults(c, Defaults.PortsValue())) == Fail(InvalidPort(0))
  {
    Defaults.PortsStartsWithZero();
    EmptyPortsRefused(c, Defaults.PortsValue());
  }

  /** Hence a configuration that leaves include_ports empty is never accepted:
      it is rejected for its name, its client, its targets, or port 0. */
  lemma EmptyPortsNeverValidate(c: Config)
    requires c.scope.includePorts == []
    ensures var v := Validate(WithDefaults(c, Defaults.PortsValue()));
      v in {Fail(NameRequired), Fail(ClientRequired), Fail(TargetRequired), Fail(InvalidPort(0))}
    ensures c.name != "" && c.client != "" && c.scope.targets != [] ==>
      Validate(WithDefaults(c, Defaults.PortsValue())) == Fail(InvalidPort(0))
  {
    Defaults.PortsStartsWithZero();
    EmptyPortsRefused(c, Defaults.PortsValue());
  }

  /** With the intended catalogue (no leading zeros) an empty include_ports
      list passes the port check. */
  lemma IntendedDefaultsPassPortCheck(c: Config)
    requires c.scope.includePorts == []
    ensures CheckResult(PortsCheck, WithDefaults(c, Defaults.Catalogue())) == Pass
  {
    Defaults.CatalogueInRange();
    PortsCheckPassIff(WithDefaults(c, Defaults.Catalogue()));
  }

  /** `%d` of each port, in order. */
  function Renderings(ports: seq<int>): (r: seq<string>)
    ensures |r| == |ports|
    ensures forall i :: 0 <= i < |ports| ==> r[i] == Decimal.FormatInt(ports[i])
  {
    seq(|ports|, i requires 0 <= i < |ports| => Decimal.FormatInt(ports[i]))
  }

  /** What `SlicePortToStr` returns: the renderings joined by single commas. */
  function PortListString(ports: seq<int>): string
  {
    Text.Join(Renderings(ports), ',')
  }

  /** Reads a port list back: split on ',' and parse each piece. */
  function ParsePortList(s: string): seq<int>
  {
    var pieces := Text.Split(s, ',');
    seq(|pieces|, i requires 0 <= i < |pieces| => Decimal.ParseInt(pieces[i]))
  }

  /** `SlicePortToStr`: write "%d," per port into a builder, then trim commas. */
  method SlicePortToStr(slicePorts: seq<int>) returns (ports: string)
    ensures ports == PortListString(slicePorts)
    ensures ports == "" <==> slicePorts == []
    ensures ports != "" ==> ports[0] != ',' && ports[|ports| - 1] != ','
  {
    var sb := "";
    for i := 0 to |slicePorts|
      invariant sb == Text.Terminated(Renderings(slicePorts[..i]), ',')
    {
      assert Renderings(slicePorts[..i + 1])[..i] == Renderings(slicePorts[..i]);
      sb := sb + Decimal.FormatInt(slicePorts[i]) + ",";
    }
    assert slicePorts[..|slicePorts|] == slicePorts;
    var parts := Renderings(slicePorts);
    Text.TrimTerminated(parts, ',');
    ports := Text.Trim(sb, ',');
    if slicePorts != [] {
      Text.JoinEnds(parts, ',');
    }
  }

  /** Splitting `SlicePortToStr`'s output on ',' gives back each port's
      rendering in order, and parsing those gives back the ports. */
  lemma {:induction false} PortListRoundTrip(ports: seq<int>)
    requires ports != []
    ensures Text.Split(PortListString(ports), ',') == Renderings(ports)
    ensures ParsePortList(PortListString(ports)) == ports
  {
    var parts := Renderings(ports);
    forall i | 0 <= i < |parts| ensures ',' !in parts[i] {
    }
    Text.SplitJoin(parts, ',');
    forall i | 0 <= i < |ports| ensures Decimal.ParseInt(parts[i]) == ports[i] {
      Decimal.ParseFormatInt(ports[i]);
    }
  }

  /** The unit tests' first case: three ports. */
  lemma PortListStringThreePorts()
    ensures PortListString([10, 20, 30]) == "10,20,30"
  {
    assert Decimal.NatToString(10) == "10" && Decimal.NatToString(20) == "20" && Decimal.NatToString(30) == "30";
    assert Renderings([10, 20, 30]) == ["10", "20", "30"];
    assert ["10", "20", "30"][..2] == ["10", "20"];
    assert ["10", "20"][..1] == ["10"];
  }

  /** The unit tests' second case: the zeros a fresh `make([]int, 4)` holds. */
  lemma PortListStringZeros()
    ensures PortListString([0, 0, 0, 0]) == "0,0,0,0"
  {
    assert Decimal.NatToString(0) == "0";
    assert Renderings([0, 0, 0, 0]) == ["0", "0", "0", "0"];
    assert ["0", "0", "0", "0"][..3] == ["0", "0", "0"];
    assert ["0", "0", "0"][..2] == ["0", "0"];
    assert ["0", "0"][..1] == ["0"];
  }

  /** The unit tests' third case: a negative first entry keeps its sign. */
  lemma PortListStringNegative()
    ensures PortListString([-1, 0, 0, 0]) == "-1,0,0,0"
  {
    assert Decimal.NatToString(1) == "1" && Decimal.NatToString(0) == "0";
    assert Decimal.FormatInt(-1) == "-1";
    assert Renderings([-1, 0, 0, 0]) == ["-1", "0", "0", "0"];
    assert ["-1", "0", "0", "0"][..3] == ["-1", "0", "0"];
    assert ["-1", "0", "0"][..2] == ["-1", "0"];
    assert ["-1", "0"][..1] == ["-1"];
  }
}
