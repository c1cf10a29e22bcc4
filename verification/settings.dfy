/** What config/config.go and main.go share about defaults and validation:
    the default values, the individual checks of `validate` and their error
    values. Each package runs its own ordered list of these checks. */
module Settings {
  import opened Engagement
  import Seqs

  const DefaultRpsPerHost := 2
  const DefaultTotalRequestsPerHost := 1000
  const DefaultConcurrency := 10
  const DefaultConnectTimeoutS := 5
  const DefaultRequestTimeoutS := 10
  const SupportedCvss: string := "v3.1"
  const DefaultDeliverables: seq<string> := ["html_tech", "json_findings"]

  /** The five zero-valued limits replaced by their defaults; retries kept. */
  function LimitsWithDefaults(l: Limits): Limits
  {
    Limits(
      if l.rpsPerHost == 0 then DefaultRpsPerHost else l.rpsPerHost,
      if l.totalRequestsPerHost == 0 then DefaultTotalRequestsPerHost else l.totalRequestsPerHost,
      if l.concurrency == 0 then DefaultConcurrency else l.concurrency,
      if l.connectTimeoutS == 0 then DefaultConnectTimeoutS else l.connectTimeoutS,
      if l.requestTimeoutS == 0 then DefaultRequestTimeoutS else l.requestTimeoutS,
      l.retries)
  }

  /** An empty CVSS version and an empty deliverables list replaced by their
      defaults; the other report fields kept. */
  function ReportWithDefaults(r: Report): Report
  {
    r.(cvss := if r.cvss == "" then SupportedCvss else r.cvss,
       deliverables := if |r.deliverables| == 0 then DefaultDeliverables else r.deliverables)
  }

  /** Each limit that was zero now holds its default; every other value,
      negative ones included, is unchanged. */
  lemma LimitsDefaultsOnlyReplaceZero(l: Limits)
    ensures var d := LimitsWithDefaults(l);
      && (if l.rpsPerHost == 0 then d.rpsPerHost == 2 else d.rpsPerHost == l.rpsPerHost)
      && (if l.totalRequestsPerHost == 0 then d.totalRequestsPerHost == 1000 else d.totalRequestsPerHost == l.totalRequestsPerHost)
      && (if l.concurrency == 0 then d.concurrency == 10 else d.concurrency == l.concurrency)
      && (if l.connectTimeoutS == 0 then d.connectTimeoutS == 5 else d.connectTimeoutS == l.connectTimeoutS)
      && (if l.requestTimeoutS == 0 then d.requestTimeoutS == 10 else d.requestTimeoutS == l.requestTimeoutS)
      && d.retries == l.retries
  {
  }

  /** An empty CVSS becomes "v3.1" and empty deliverables become
      [html_tech, json_findings]; non-empty values and the other report fields
      are unchanged. */
  lemma ReportDefaultsOnlyFillEmpty(r: Report)
    ensures var d := ReportWithDefaults(r);
      && (if r.cvss == "" then d.cvss == "v3.1" else d.cvss == r.cvss)
      && (if r.deliverables == [] then d.deliverables == ["html_tech", "json_findings"] else d.deliverables == r.deliverables)
      && d.redactions == r.redactions
      && d.includeScreenshots == r.includeScreenshots
      && d.outDir == r.outDir
  {
  }

  datatype ConfigError =
    | NameRequired
    | ClientRequired
    | TargetRequired
    | InvalidPort(port: int)
    | WindowIncomplete
    | WindowNotOrdered
    | NegativeRps
    | NegativeTotalRequests
    | NonPositiveConcurrency
    | NonPositiveTimeout
    | NegativeRetries
    | UnknownDeliverable(deliverable: string)
    | UnsupportedCvss(cvss: string)

  /** `validate`'s verdict: nil or the first error found. */
  datatype Outcome = Pass | Fail(error: ConfigError)

  /** The checks of `validate`, one per early return. */
  datatype Check =
    | NameCheck
    | ClientCheck
    | TargetsCheck
    | PortsCheck
    | WindowCheck
    | RpsCheck
    | TotalCheck
    | ConcurrencyCheck
    | TimeoutsCheck
    | RetriesCheck
    | DeliverablesCheck
    | CvssCheck

  /** The check that reports `e`. */
  function ErrorCheck(e: ConfigError): Check
  {
    match e
    case NameRequired => NameCheck
    case ClientRequired => ClientCheck
    case TargetRequired => TargetsCheck
    case InvalidPort(_) => PortsCheck
    case WindowIncomplete => WindowCheck
    case WindowNotOrdered => WindowCheck
    case NegativeRps => RpsCheck
    case NegativeTotalRequests => TotalCheck
    case NonPositiveConcurrency => ConcurrencyCheck
    case NonPositiveTimeout => TimeoutsCheck
    case NegativeRetries => RetriesCheck
    case UnknownDeliverable(_) => DeliverablesCheck
    case UnsupportedCvss(_) => CvssCheck
  }

  predicate ValidPort(p: int) { 1 <= p <= 65535 }

  predicate KnownDeliverable(d: string)
  {
    d == "pdf_exec" || d == "html_tech" || d == "json_findings"
  }

  /** Index of the first port outside 1..65535, or the length when none is. */
  function FirstInvalidPort(ports: seq<int>): nat
  {
    Seqs.FirstWhere(ports, p => !ValidPort(p))
  }

  function FirstUnknownDeliverable(ds: seq<string>): nat
  {
    Seqs.FirstWhere(ds, d => !KnownDeliverable(d))
  }

  /** The time-window rule: no end set, or both set with end strictly after
      start. Exactly one end set is "incomplete". */
  function WindowCheckResult(w: TimeWindow): (r: Outcome)
    ensures r == Pass <==>
      (w.start.Unset? && w.end.Unset?) || (w.start.At? && w.end.At? && w.start.instant < w.end.instant)
    ensures r == Fail(WindowIncomplete) <==> w.start.Unset? != w.end.Unset?
    ensures r == Fail(WindowNotOrdered) <==> w.start.At? && w.end.At? && w.end.instant <= w.start.instant
  {
    if !w.start.IsZero() || !w.end.IsZero() then
      if w.start.IsZero() || w.end.IsZero() then Fail(WindowIncomplete)
      else if !w.end.After(w.start) then Fail(WindowNotOrdered)
      else Pass
    else Pass
  }

  /** One check of `validate`. A failure is always reported by the check the
      error belongs to. */
  function CheckResult(k: Check, c: Config): (r: Outcome)
    ensures r.Fail? ==> ErrorCheck(r.error) == k
  {
    match k
    case NameCheck => if c.name == "" then Fail(NameRequired) else Pass
    case ClientCheck => if c.client == "" then Fail(ClientRequired) else Pass
    case TargetsCheck => if |c.scope.targets| == 0 then Fail(TargetRequired) else Pass
    case PortsCheck =>
      var ports := c.scope.includePorts;
      var i := FirstInvalidPort(ports);
      if i < |ports| then Fail(InvalidPort(ports[i])) else Pass
    case WindowCheck => WindowCheckResult(c.scope.timeWindow)
    case RpsCheck => if c.limits.rpsPerHost < 0 then Fail(NegativeRps) else Pass
    case TotalCheck => if c.limits.totalRequestsPerHost < 0 then Fail(NegativeTotalRequests) else Pass
    case ConcurrencyCheck => if c.limits.concurrency <= 0 then Fail(NonPositiveConcurrency) else Pass
    case TimeoutsCheck =>
      if c.limits.connectTimeoutS <= 0 || c.limits.requestTimeoutS <= 0 then Fail(NonPositiveTimeout) else Pass
    case RetriesCheck => if c.limits.retries < 0 then Fail(NegativeRetries) else Pass
    case DeliverablesCheck =>
      var ds := c.report.deliverables;
      var i := FirstUnknownDeliverable(ds);
      if i < |ds| then Fail(UnknownDeliverable(ds[i])) else Pass
    case CvssCheck => if c.report.cvss != SupportedCvss then Fail(UnsupportedCvss(c.report.cvss)) else Pass
  }

  /** Runs the checks in order and stops at the first failure: the result
      passes iff every check passes, and a failure is the verdict of some
      check all of whose predecessors passed. */
  function RunChecks(ks: seq<Check>, c: Config): (r: Outcome)
    ensures r == Pass <==> forall i :: 0 <= i < |ks| ==> CheckResult(ks[i], c) == Pass
    ensures r.Fail? ==> exists i :: 0 <= i < |ks| && CheckResult(ks[i], c) == r &&
                                    forall j :: 0 <= j < i ==> CheckResult(ks[j], c) == Pass
  {
    var k := Seqs.FirstWhere(ks, (chk: Check) => CheckResult(chk, c).Fail?);
    if k < |ks| then CheckResult(ks[k], c) else Pass
  }

  /** The conditions `validate` enforces, stated as one conjunction;
      `requireTargets` says whether an empty target list is refused. */
  predicate FieldsValid(c: Config, requireTargets: bool)
  {
    && c.name != ""
    && c.client != ""
    && (requireTargets ==> |c.scope.targets| > 0)
    && (forall p :: p in c.scope.includePorts ==> ValidPort(p))
    && (var w := c.scope.timeWindow;
        (w.start.Unset? && w.end.Unset?) || (w.start.At? && w.end.At? && w.start.instant < w.end.instant))
    && c.limits.rpsPerHost >= 0
    && c.limits.totalRequestsPerHost >= 0
    && c.limits.concurrency > 0
    && c.limits.connectTimeoutS > 0
    && c.limits.requestTimeoutS > 0
    && c.limits.retries >= 0
    && (forall d :: d in c.report.deliverables ==> KnownDeliverable(d))
    && c.report.cvss == "v3.1"
  }

  /** The port check passes iff every listed port lies in 1..65535. */
  lemma PortsCheckPassIff(c: Config)
    ensures CheckResult(PortsCheck, c) == Pass <==> forall p :: p in c.scope.includePorts ==> ValidPort(p)
  {
    var ports := c.scope.includePorts;
    var i := FirstInvalidPort(ports);
    if i < |ports| {
      assert ports[i] in ports;
    }
  }

  /** The deliverables check passes iff every deliverable is one of pdf_exec,
      html_tech, json_findings. */
  lemma DeliverablesCheckPassIff(c: Config)
    ensures CheckResult(DeliverablesCheck, c) == Pass <==> forall d :: d in c.report.deliverables ==> KnownDeliverable(d)
  {
    var ds := c.report.deliverables;
    var i := FirstUnknownDeliverable(ds);
    if i < |ds| {
      assert ds[i] in ds;
    }
  }

  /** Every check that applies passes; the target check applies only when
      targets are required. */
  predicate ChecksPass(c: Config, requireTargets: bool)
  {
    forall k: Check :: (k != TargetsCheck || requireTargets) ==> CheckResult(k, c) == Pass
  }

  /** The checks that apply all pass iff the fields are valid. */
  lemma ChecksPassIff(c: Config, requireTargets: bool)
    ensures ChecksPass(c, requireTargets) <==> FieldsValid(c, requireTargets)
  {
    PortsCheckPassIff(c);
    DeliverablesCheckPassIff(c);
    if ChecksPass(c, requireTargets) {
      assert CheckResult(NameCheck, c) == Pass && CheckResult(ClientCheck, c) == Pass;
      assert requireTargets ==> CheckResult(TargetsCheck, c) == Pass;
      assert CheckResult(PortsCheck, c) == Pass && CheckResult(WindowCheck, c) == Pass;
      assert CheckResult(RpsCheck, c) == Pass && CheckResult(TotalCheck, c) == Pass;
      assert CheckResult(ConcurrencyCheck, c) == Pass && CheckResult(TimeoutsCheck, c) == Pass;
      assert CheckResult(RetriesCheck, c) == Pass && CheckResult(DeliverablesCheck, c) == Pass;
      assert CheckResult(CvssCheck, c) == Pass;
    }
  }

  /** An ordered check list that holds every check (but the target check
      exactly when targets are required) passes iff the fields are valid. */
  lemma RunChecksPassIff(ks: seq<Check>, c: Config, requireTargets: bool)
    requires forall k :: k in ks <==> (k != TargetsCheck || requireTargets)
    ensures RunChecks(ks, c) == Pass <==> FieldsValid(c, requireTargets)
  {
    ChecksPassIff(c, requireTargets);
    if RunChecks(ks, c) == Pass {
      forall k | k != TargetsCheck || requireTargets
        ensures CheckResult(k, c) == Pass
      {
        assert k in ks;
        var i :| 0 <= i < |ks| && ks[i] == k;
      }
    } else {
      var i :| 0 <= i < |ks| && CheckResult(ks[i], c) != Pass;
      assert ks[i] in ks;
    }
  }

  /** The reported error is that of the first failing check: every check
      before it in `ks` passes. */
  lemma RunChecksReportsFirstFailure(ks: seq<Check>, c: Config, e: ConfigError)
    requires RunChecks(ks, c) == Fail(e)
    ensures exists i :: 0 <= i < |ks| && ks[i] == ErrorCheck(e) && CheckResult(ks[i], c) == Fail(e) &&
                        forall j :: 0 <= j < i ==> CheckResult(ks[j], c) == Pass
  {
  }

  /** A reported invalid port is the first port of the list that lies outside
      1..65535, whatever the order of the other checks. */
  lemma InvalidPortIsFirstOutOfRange(ks: seq<Check>, c: Config, p: int)
    requires RunChecks(ks, c) == Fail(InvalidPort(p))
    ensures exists i :: 0 <= i < |c.scope.includePorts| && c.scope.includePorts[i] == p && !ValidPort(p) &&
                        forall j :: 0 <= j < i ==> ValidPort(c.scope.includePorts[j])
  {
    var k :| 0 <= k < |ks| && CheckResult(ks[k], c) == Fail(InvalidPort(p));
    assert ks[k] == PortsCheck;
    var i := FirstInvalidPort(c.scope.includePorts);
    assert c.scope.includePorts[i] == p;
  }

  /** Removing a check that passes does not change the verdict of an ordered
      check list. */
  lemma RunChecksSkipsPassing(a: seq<Check>, k: Check, b: seq<Check>, c: Config)
    requires CheckResult(k, c) == Pass
    ensures RunChecks(a + [k] + b, c) == RunChecks(a + b, c)
  {
    var stop := (chk: Check) => CheckResult(chk, c).Fail?;
    var long, short := a + [k] + b, a + b;
    var i := Seqs.FirstWhere(short, stop);
    var m := if i < |a| then i else i + 1;
    forall j | 0 <= j < m
      ensures !stop(long[j])
    {
      if j > |a| {
        assert long[j] == short[j - 1];
      } else if j < |a| {
        assert long[j] == short[j];
      }
    }
    if i < |short| {
      assert long[m] == short[i];
    }
    Seqs.FirstWhereUnique(long, stop, m);
  }

  /** A failure is always reported by a check that is in the list. */
  lemma RunChecksErrorFromList(ks: seq<Check>, c: Config, e: ConfigError)
    requires RunChecks(ks, c) == Fail(e)
    ensures ErrorCheck(e) in ks
  {
    var i :| 0 <= i < |ks| && CheckResult(ks[i], c) == Fail(e);
  }

  /** Running a list is running its first check, and the rest only when
      that first check passes. */
  lemma RunChecksCons(k: Check, ks: seq<Check>, c: Config)
    ensures RunChecks([k] + ks, c) == if CheckResult(k, c).Fail? then CheckResult(k, c) else RunChecks(ks, c)
  {
    assert ([k] + ks)[1..] == ks;
  }

  /** A list whose first port is out of range fails on that port. */
  lemma PortsCheckFailsOnFirst(c: Config)
    requires |c.scope.includePorts| > 0 && !ValidPort(c.scope.includePorts[0])
    ensures CheckResult(PortsCheck, c) == Fail(InvalidPort(c.scope.includePorts[0]))
  {
    assert FirstInvalidPort(c.scope.includePorts) == 0;
  }
}
