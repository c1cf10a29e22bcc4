/** The pieces of Go's `strings` package the configuration code relies on,
    for a single-character separator or cut set. */
module Text {

  /** `strings.Join(parts, string(sep))`. */
  function Join(parts: seq<string>, sep: char): (r: string)
    ensures parts == [] ==> r == ""
    ensures |parts| == 1 ==> r == parts[0]
  {
    if |parts| == 0 then ""
    else if |parts| == 1 then parts[0]
    else Join(parts[..|parts| - 1], sep) + [sep] + parts[|parts| - 1]
  }

  /** Position of the last `c` in `s`. */
  function LastIndex(s: string, c: char): (i: nat)
    requires c in s
    ensures i < |s| && s[i] == c
    ensures c !in s[i + 1..]
  {
    if s[|s| - 1] == c then |s| - 1
    else LastIndex(s[..|s| - 1], c)
  }

  /** `strings.Split(s, string(sep))`: the maximal `sep`-free pieces of `s`,
      in order. Go scans from the left; cutting at the last separator first
      yields the same pieces. */
  function Split(s: string, sep: char): (r: seq<string>)
    ensures |r| > 0
    decreases |s|
  {
    if sep !in s then [s]
    else
      var i := LastIndex(s, sep);
      Split(s[..i], sep) + [s[i + 1..]]
  }

  /** `strings.TrimLeft(s, string(c))`: drops every leading `c`. */
  function TrimLeft(s: string, c: char): (r: string)
    ensures |r| <= |s| && r == s[|s| - |r|..]
    ensures r == [] || r[0] != c
  {
    if |s| > 0 && s[0] == c then TrimLeft(s[1..], c) else s
  }

  /** `strings.TrimRight(s, string(c))`: drops every trailing `c`. */
  function TrimRight(s: string, c: char): (r: string)
    ensures |r| <= |s| && r == s[..|r|]
    ensures r == [] || r[|r| - 1] != c
  {
    if |s| > 0 && s[|s| - 1] == c then TrimRight(s[..|s| - 1], c) else s
  }

  /** Everything `TrimLeft` drops is `c`. */
  lemma {:induction false} TrimLeftCutsOnlySep(s: string, c: char)
    ensures forall k :: 0 <= k < |s| - |TrimLeft(s, c)| ==> s[k] == c
    decreases |s|
  {
    if |s| > 0 && s[0] == c {
      var rest := s[1..];
      TrimLeftCutsOnlySep(rest, c);
      forall k | 1 <= k < |s| - |TrimLeft(s, c)|
        ensures s[k] == c
      {
        assert s[k] == rest[k - 1];
      }
    }
  }

  /** Everything `TrimRight` drops is `c`. */
  lemma {:induction false} TrimRightCutsOnlySep(s: string, c: char)
    ensures forall k :: |TrimRight(s, c)| <= k < |s| ==> s[k] == c
    decreases |s|
  {
    if |s| > 0 && s[|s| - 1] == c {
      var init := s[..|s| - 1];
      TrimRightCutsOnlySep(init, c);
      forall k | |TrimRight(s, c)| <= k < |s| - 1
        ensures s[k] == c
      {
        assert s[k] == init[k];
      }
    }
  }

  /** What is left after cutting a prefix `s[..a]` of `c`s and then a
      suffix of `c`s is the slice `s[a..a + |r|]`, with only `c` on
      either side of it. */
  lemma CutBothEnds(s: string, t: string, r: string, c: char)
    requires |t| <= |s| && t == s[|s| - |t|..]
    requires |r| <= |t| && r == t[..|r|]
    requires forall k :: 0 <= k < |s| - |t| ==> s[k] == c
    requires forall k :: |r| <= k < |t| ==> t[k] == c
    ensures var a := |s| - |t|; a + |r| <= |s| && r == s[a..a + |r|]
    ensures var a := |s| - |t|;
      (forall k :: 0 <= k < a ==> s[k] == c) &&
      (forall k :: a + |r| <= k < |s| ==> s[k] == c)
  {
    var a := |s| - |t|;
    assert s[a..][..|r|] == s[a..a + |r|];
    forall k | a + |r| <= k < |s|
      ensures s[k] == c
    {
      assert s[k] == t[k - a];
    }
  }

  /** An input made only of `c` loses everything to `TrimLeft`. */
  lemma {:induction false} TrimLeftAllSep(s: string, c: char)
    requires forall k :: 0 <= k < |s| ==> s[k] == c
    ensures TrimLeft(s, c) == []
    decreases |s|
  {
    if |s| > 0 {
      assert forall k :: 0 <= k < |s[1..]| ==> s[1..][k] == s[k + 1];
      TrimLeftAllSep(s[1..], c);
    }
  }

  /** `strings.Trim(s, string(c))`: drops every leading and trailing `c`.
      The result neither starts nor ends with `c`, and is `s` itself when
      `s` neither starts nor ends with `c`; `TrimKeepsMiddle` shows that
      only `c`s were dropped. */
  function Trim(s: string, c: char): (r: string)
    ensures |r| <= |s|
    ensures r == [] || (r[0] != c && r[|r| - 1] != c)
    ensures |s| > 0 && s[0] != c && s[|s| - 1] != c ==> r == s
  {
    TrimRight(TrimLeft(s, c), c)
  }

  /** Trimming keeps the slice `s[a..a + |r|]` of the input, where `a` is
      the number of leading `c`s, and everything dropped on either side of
      it is `c`. */
  lemma TrimKeepsMiddle(s: string, c: char)
    ensures var a := |s| - |TrimLeft(s, c)|; var r := Trim(s, c);
      a + |r| <= |s| && r == s[a..a + |r|] &&
      (forall k :: 0 <= k < a ==> s[k] == c) &&
      (forall k :: a + |r| <= k < |s| ==> s[k] == c)
  {
    var t := TrimLeft(s, c);
    var r := TrimRight(t, c);
    TrimLeftCutsOnlySep(s, c);
    TrimRightCutsOnlySep(t, c);
    CutBothEnds(s, t, r, c);
  }

  /** An input made only of `c` trims to nothing. */
  lemma TrimAllSep(s: string, c: char)
    requires forall k :: 0 <= k < |s| ==> s[k] == c
    ensures Trim(s, c) == []
  {
    TrimLeftAllSep(s, c);
  }

  /** Every piece followed by `sep`: what a builder holds after writing
      `piece + sep` for each piece in turn. */
  function Terminated(parts: seq<string>, sep: char): string
  {
    if parts == [] then ""
    else Terminated(parts[..|parts| - 1], sep) + parts[|parts| - 1] + [sep]
  }

  lemma {:induction false} TerminatedIsJoinPlusSep(parts: seq<string>, sep: char)
    requires |parts| > 0
    ensures Terminated(parts, sep) == Join(parts, sep) + [sep]
    decreases |parts|
  {
    if |parts| > 1 {
      var init := parts[..|parts| - 1];
      TerminatedIsJoinPlusSep(init, sep);
      assert init[..|init| - 1] == parts[..|parts| - 2];
    } else {
      assert parts[..0] == [];
    }
  }

  /** Join of non-empty pieces starts with the first piece's first character
      and ends with the last piece's last character. */
  lemma {:induction false} JoinEnds(parts: seq<string>, sep: char)
    requires |parts| > 0
    requires forall i :: 0 <= i < |parts| ==> parts[i] != []
    ensures |Join(parts, sep)| > 0
    ensures Join(parts, sep)[0] == parts[0][0]
    ensures Join(parts, sep)[|Join(parts, sep)| - 1] == parts[|parts| - 1][|parts[|parts| - 1]| - 1]
    decreases |parts|
  {
    if |parts| > 1 {
      JoinEnds(parts[..|parts| - 1], sep);
    }
  }

  /** Trimming a string that neither starts nor ends with the separator,
      followed by one separator, gives back that string. */
  lemma TrimOneSep(s: string, sep: char)
    requires |s| > 0 && s[0] != sep && s[|s| - 1] != sep
    ensures Trim(s + [sep], sep) == s
  {
    assert (s + [sep])[0] == s[0];
    assert TrimLeft(s + [sep], sep) == s + [sep];
    assert (s + [sep])[..|s|] == s;
    assert TrimRight(s + [sep], sep) == TrimRight(s, sep);
    assert TrimRight(s, sep) == s;
  }

  /** Trimming a builder of terminated pieces gives their join, provided no
      piece is empty or starts or ends with the separator. */
  lemma TrimTerminated(parts: seq<string>, sep: char)
    requires forall i :: 0 <= i < |parts| ==> parts[i] != [] && parts[i][0] != sep && parts[i][|parts[i]| - 1] != sep
    ensures Trim(Terminated(parts, sep), sep) == Join(parts, sep)
  {
    if parts != [] {
      TerminatedIsJoinPlusSep(parts, sep);
      JoinEnds(parts, sep);
      TrimOneSep(Join(parts, sep), sep);
    }
  }

  /** Splitting a join gives the pieces back when none contains the separator. */
  lemma {:induction false} SplitJoin(parts: seq<string>, sep: char)
    requires |parts| > 0
    requires forall i :: 0 <= i < |parts| ==> sep !in parts[i]
    ensures Split(Join(parts, sep), sep) == parts
    decreases |parts|
  {
    if |parts| > 1 {
      var init := parts[..|parts| - 1];
      var last := parts[|parts| - 1];
      var head := Join(init, sep);
      var s := head + [sep] + last;
      assert Join(parts, sep) == s;
      var p := |head|;
      assert s[p] == sep;
      assert s[p + 1..] == last;
      assert LastIndex(s, sep) == p;
      assert s[..p] == head;
      assert Split(s, sep) == Split(head, sep) + [last];
      SplitJoin(init, sep);
      assert init + [last] == parts;
    }
  }

  /** A character other than the separator occurs in a join only if it
      occurs in one of the pieces. */
  lemma {:induction false} JoinAvoids(parts: seq<string>, sep: char, c: char)
    requires c != sep
    requires forall i :: 0 <= i < |parts| ==> c !in parts[i]
    ensures c !in Join(parts, sep)
    decreases |parts|
  {
    if |parts| > 1 {
      var init := parts[..|parts| - 1];
      JoinAvoids(init, sep, c);
      var head, last := Join(init, sep), parts[|parts| - 1];
      assert c !in last;
      assert Join(parts, sep) == head + [sep] + last;
    }
  }
}
