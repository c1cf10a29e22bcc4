/** The engagement definition: the records that `config.Razor` and
    `main.RazorConfig` both declare, field for field. */
module Engagement {

  /** `ISOTime`: `Unset` is every value `IsZero` reports as zero (an empty
      field, or a parsed time equal to Go's zero instant); `At` is a non-zero
      instant. The instant is abstract; only its order matters. */
  datatype ISOTime = Unset | At(instant: int)
  {
    predicate IsZero() { Unset? }

    /** `time.Time.After`: strictly later. */
    predicate After(other: ISOTime)
      requires At? && other.At?
    {
      instant > other.instant
    }
  }

  /** `After` on set times is a strict total order: never reflexive, never
      both ways, transitive, and one of two distinct times is after the
      other. */
  lemma AfterIsStrictTotalOrder(t: ISOTime, u: ISOTime, v: ISOTime)
    requires t.At? && u.At? && v.At?
    ensures !t.After(t)
    ensures t.After(u) ==> !u.After(t)
    ensures t.After(u) && u.After(v) ==> t.After(v)
    ensures t != u ==> t.After(u) || u.After(t)
  {
  }

  datatype TimeWindow = TimeWindow(start: ISOTime, end: ISOTime)

  datatype Scope = Scope(
    targets: seq<string>,
    includePorts: seq<int>,
    maxHosts: int,
    allowIntrusive: bool,
    timeWindow: TimeWindow)

  datatype Limits = Limits(
    rpsPerHost: int,
    totalRequestsPerHost: int,
    concurrency: int,
    connectTimeoutS: int,
    requestTimeoutS: int,
    retries: int)

  datatype Report = Report(
    deliverables: seq<string>,
    redactions: bool,
    cvss: string,
    includeScreenshots: bool,
    outDir: string)

  datatype Notes = Notes(stackHints: seq<string>, contacts: seq<string>, tags: seq<string>)

  datatype Config = Config(
    name: string,
    client: string,
    scope: Scope,
    limits: Limits,
    report: Report,
    notes: Notes)
}
