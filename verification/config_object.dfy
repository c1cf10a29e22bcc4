/** The in-memory engagement object. config/config.go calls it `Razor` and
    main.go `RazorConfig`; both declare the same fields, and both default
    functions update them in place. */
module ConfigObject {
  import opened Engagement
  import opened Settings

  class Razor {
    var name: string
    var client: string
    var scope: Scope
    var limits: Limits
    var report: Report
    var notes: Notes

    /** The record the object currently holds. */
    function Value(): Config
      reads this
    {
      Config(name, client, scope, limits, report, notes)
    }

    /** The object as YAML unmarshalling leaves it. */
    constructor (parsed: Config)
      ensures Value() == parsed
    {
      name, client := parsed.name, parsed.client;
      scope, limits := parsed.scope, parsed.limits;
      report, notes := parsed.report, parsed.notes;
    }

    /** The `// Limits` block that opens both default functions: each zero
        limit gets its default, one conditional assignment at a time. */
    method ApplyLimitDefaults()
      modifies this
      ensures limits == LimitsWithDefaults(old(limits))
      ensures name == old(name) && client == old(client) && scope == old(scope)
      ensures report == old(report) && notes == old(notes)
    {
      if limits.rpsPerHost == 0 {
        limits := limits.(rpsPerHost := DefaultRpsPerHost);
      }
      if limits.totalRequestsPerHost == 0 {
        limits := limits.(totalRequestsPerHost := DefaultTotalRequestsPerHost);
      }
      if limits.concurrency == 0 {
        limits := limits.(concurrency := DefaultConcurrency);
      }
      if limits.connectTimeoutS == 0 {
        limits := limits.(connectTimeoutS := DefaultConnectTimeoutS);
      }
      if limits.requestTimeoutS == 0 {
        limits := limits.(requestTimeoutS := DefaultRequestTimeoutS);
      }
    }
  }
}
