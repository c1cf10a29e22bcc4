/** `sanitize`, which main.go and cmd/runner/main.go both define, rune for
    rune the same: a filesystem-safe rendering of a name. Strings are
    sequences of runes. */
module Naming {

  /** The runes `sanitize` keeps: ASCII letters, digits, '-' and '_'. */
  predicate Allowed(r: char)
  {
    ('a' <= r <= 'z') || ('A' <= r <= 'Z') || ('0' <= r <= '9') || r == '-' || r == '_'
  }

  /** The rune `sanitize` emits for `r`. */
  function SanitizeRune(r: char): (o: char)
    ensures Allowed(o)
    ensures Allowed(r) <==> o == r
  {
    if Allowed(r) then r else '_'
  }

  /** What `sanitize` returns: each rune mapped on its own, in place. */
  function Sanitized(s: string): (r: string)
    ensures |r| == |s|
    ensures forall i :: 0 <= i < |s| ==> r[i] == SanitizeRune(s[i])
  {
    seq(|s|, i requires 0 <= i < |s| => SanitizeRune(s[i]))
  }

  /** `sanitize`: append each rune, or '_' in its place, to `out`. */
  method Sanitize(s: string) returns (out: string)
    ensures out == Sanitized(s)
    ensures |out| == |s|
    ensures forall i :: 0 <= i < |s| ==> Allowed(out[i])
    ensures forall i :: 0 <= i < |s| ==> if Allowed(s[i]) then out[i] == s[i] else out[i] == '_'
  {
    out := [];
    for i := 0 to |s|
      invariant out == Sanitized(s)[..i]
    {
      if Allowed(s[i]) {
        out := out + [s[i]];
      } else {
        out := out + ['_'];
      }
    }
  }

  /** `sanitize` of a sanitized name changes nothing. */
  lemma SanitizeIdempotent(s: string)
    ensures Sanitized(Sanitized(s)) == Sanitized(s)
  {
  }

  /** `sanitize` leaves a name unchanged exactly when all its runes are
      already allowed. */
  lemma SanitizeFixedPointIff(s: string)
    ensures Sanitized(s) == s <==> forall i :: 0 <= i < |s| ==> Allowed(s[i])
  {
    if Sanitized(s) == s {
      forall i | 0 <= i < |s|
        ensures Allowed(s[i])
      {
        assert Sanitized(s)[i] == s[i];
      }
    }
  }

  /** A sanitized name holds neither a path separator nor a dot, so it is a
      single path segment that is neither "." nor "..". */
  lemma SanitizedIsOneSegment(s: string)
    ensures '/' !in Sanitized(s) && '\\' !in Sanitized(s) && '.' !in Sanitized(s)
  {
  }
}
