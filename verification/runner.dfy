/** cmd/runner/main.go: the output directory the runner reports and the gate
    in front of the intrusive XSS/SQLi scans. */
module Runner {
  import opened Engagement
  import Settings
  import Seqs
  import Text
  import Naming
  import ConfigPkg

  /** The path elements that are not empty, in order: `filepath.Join`
      skips empty elements and keeps every other one. */
  function NonEmpty(parts: seq<string>): (r: seq<string>)
    ensures forall i :: 0 <= i < |r| ==> r[i] != []
    ensures forall x :: x in r <==> x in parts && x != []
    ensures (forall i :: 0 <= i < |parts| ==> parts[i] != []) ==> r == parts
  {
    if parts == [] then []
    else
      assert parts == [parts[0]] + parts[1..];
      if parts[0] == [] then NonEmpty(parts[1..])
      else [parts[0]] + NonEmpty(parts[1..])
  }

  /** `filepath.Join(".", "artifacts", client, name)` for sanitized `client`
      and `name`: the non-empty elements joined by '/', after which cleaning
      drops the leading "./". Sanitized elements hold no '.' or '/', so
      cleaning has nothing else to do. */
  function DefaultOutDir(client: string, name: string): string
  {
    Text.Join(["artifacts"] + NonEmpty([Naming.Sanitized(client), Naming.Sanitized(name)]), '/')
  }

  /** The runner's `outDir`: out_dir as configured, or else the default path
      built from the sanitized client and engagement names. */
  method ResolveOutDir(c: Config) returns (outDir: string)
    ensures c.report.outDir != "" ==> outDir == c.report.outDir
    ensures c.report.outDir == "" ==> outDir == DefaultOutDir(c.client, c.name)
  {
    outDir := c.report.outDir;
    if outDir == "" {
      var client := Naming.Sanitize(c.client);
      var name := Naming.Sanitize(c.name);
      outDir := Text.Join(["artifacts"] + NonEmpty([client, name]), '/');
    }
  }

  /** For a non-empty client and name the default path has exactly three
      segments: "artifacts", the sanitized client and the sanitized name.
      None of them is "." or "..", so the path stays under artifacts. */
  lemma DefaultOutDirSegments(client: string, name: string)
    requires client != "" && name != ""
    ensures Text.Split(DefaultOutDir(client, name), '/') == ["artifacts", Naming.Sanitized(client), Naming.Sanitized(name)]
    ensures '.' !in DefaultOutDir(client, name)
  {
    var a, b := Naming.Sanitized(client), Naming.Sanitized(name);
    Naming.SanitizedIsOneSegment(client);
    Naming.SanitizedIsOneSegment(name);
    var parts := ["artifacts", a, b];
    assert DefaultOutDir(client, name) == Text.Join(parts, '/') by {
      assert ["artifacts"] + [a, b] == parts;
    }
    assert '/' !in parts[0] && '.' !in parts[0];
    assert forall i :: 0 <= i < |parts| ==> '/' !in parts[i] && '.' !in parts[i];
    Text.SplitJoin(parts, '/');
    Text.JoinAvoids(parts, '/', '.');
  }

  /** Every configuration `config.Load` accepts has a client and a name, so
      with no out_dir set the runner writes to artifacts/<client>/<name>. */
  lemma LoadedOutDirUnderArtifacts(c: Config)
    requires ConfigPkg.Validate(c) == Settings.Pass
    requires c.report.outDir == ""
    ensures Text.Split(DefaultOutDir(c.client, c.name), '/') == ["artifacts", Naming.Sanitized(c.client), Naming.Sanitized(c.name)]
  {
    DefaultOutDirSegments(c.client, c.name);
  }

  /** `ensureTools`' verdict: every binary found, or the first one missing. */
  datatype ToolCheck = AllFound | NotInstalled(binary: string)

  /** Index of the first binary not on the search path. */
  function FirstMissing(binaries: seq<string>, onPath: set<string>): nat
  {
    Seqs.FirstWhere(binaries, b => b !in onPath)
  }

  /** `ensureTools`: look each binary up in order, failing on the first one
      missing. `onPath` stands for what `exec.LookPath` can find. */
  method EnsureTools(binaries: seq<string>, onPath: set<string>) returns (r: ToolCheck)
    ensures r == AllFound <==> forall i :: 0 <= i < |binaries| ==> binaries[i] in onPath
    ensures r.NotInstalled? ==> exists i :: 0 <= i < |binaries| && binaries[i] == r.binary && r.binary !in onPath &&
                                            forall j :: 0 <= j < i ==> binaries[j] in onPath
    ensures r == (var k := FirstMissing(binaries, onPath); if k < |binaries| then NotInstalled(binaries[k]) else AllFound)
  {
    for i := 0 to |binaries|
      invariant forall j :: 0 <= j < i ==> binaries[j] in onPath
    {
      if binaries[i] !in onPath {
        Seqs.FirstWhereUnique(binaries, b => b !in onPath, i);
        return NotInstalled(binaries[i]);
      }
    }
    Seqs.FirstWhereUnique(binaries, b => b !in onPath, |binaries|);
    return AllFound;
  }

  /** The tools the intrusive step needs, in the order they are looked up. */
  const IntrusiveTools: seq<string> := ["xsstrike", "sqlmap"]

  /** What the runner does at the intrusive step: nothing when intrusive
      checks are not allowed, exit with a tooling error naming the first
      missing tool, or run the XSS and SQLi scans. */
  datatype IntrusiveStep = Skipped | ToolingError(binary: string) | Scanned

  /** The decision the runner makes. */
  function IntrusiveDecision(allowIntrusive: bool, onPath: set<string>): (r: IntrusiveStep)
    ensures r == Scanned <==> allowIntrusive && "xsstrike" in onPath && "sqlmap" in onPath
    ensures r == Skipped <==> !allowIntrusive
    ensures r.ToolingError? ==> if "xsstrike" !in onPath then r.binary == "xsstrike" else r.binary == "sqlmap" && "sqlmap" !in onPath
  {
    if !allowIntrusive then Skipped
    else if "xsstrike" !in onPath then ToolingError("xsstrike")
    else if "sqlmap" !in onPath then ToolingError("sqlmap")
    else Scanned
  }

  /** The runner's intrusive block: only with allow_intrusive set, check the
      tools, then scan. */
  method IntrusivePhase(c: Config, onPath: set<string>) returns (step: IntrusiveStep)
    ensures step == IntrusiveDecision(c.scope.allowIntrusive, onPath)
  {
    step := Skipped;
    if c.scope.allowIntrusive {
      var tools := EnsureTools(IntrusiveTools, onPath);
      if tools.NotInstalled? {
        return ToolingError(tools.binary);
      }
      assert IntrusiveTools[0] in onPath && IntrusiveTools[1] in onPath;
      step := Scanned;
    }
  }
}
