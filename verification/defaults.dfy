/** defaults/defaults.go: the default port catalogue. */
module Defaults {
  import Settings

  const VeryCommon: seq<int> := [80, 443, 22, 21, 25, 110, 143, 993, 445, 139]
  const CommonEnterprise: seq<int> := [3389, 3306, 1433, 1521, 389, 636, 8080, 5900]
  const ServiceSpecific: seq<int> := [69, 88, 111, 119, 135, 161, 162, 554, 631, 2049, 2100, 4445, 4555]
  const Rare: seq<int> := [23, 199, 1748, 1754, 1808, 1809, 3339, 47001, 5357, 5722, 9389, 1025]

  /** The four lists in catalogue order, most common first. */
  function Catalogue(): (r: seq<int>)
    ensures |r| == 43
  {
    VeryCommon + CommonEnterprise + ServiceSpecific + Rare
  }

  /** The zeroed slice `make([]int, n)` allocates. */
  function Zeros(n: nat): (r: seq<int>)
    ensures |r| == n
    ensures forall i :: 0 <= i < n ==> r[i] == 0
  {
    if n == 0 then [] else Zeros(n - 1) + [0]
  }

  /** What `Ports()` returns: `make` gives a slice whose LENGTH is the
      catalogue size, all zeros, and the four appends land after those zeros. */
  function PortsValue(): seq<int>
  {
    Zeros(|Catalogue()|) + Catalogue()
  }

  /** `Ports()` holds 86 entries: 43 zeros, then the catalogue in order. */
  lemma PortsLayout()
    ensures |PortsValue()| == 2 * (10 + 8 + 13 + 12)
    ensures forall i :: 0 <= i < 43 ==> PortsValue()[i] == 0
    ensures PortsValue()[43..] == VeryCommon + CommonEnterprise + ServiceSpecific + Rare
  {
    assert PortsValue()[43..] == Catalogue();
  }

  /** `Ports()` as written: allocate zeroed length, then append each list. */
  method Ports() returns (ports: seq<int>)
    ensures ports == PortsValue()
  {
    ports := Zeros(|VeryCommon| + |CommonEnterprise| + |ServiceSpecific| + |Rare|);
    ports := ports + VeryCommon;
    ports := ports + CommonEnterprise;
    ports := ports + ServiceSpecific;
    ports := ports + Rare;
  }

  /** The evidently intended `Ports()`: `make` with length 0 and the catalogue
      size as capacity, so the result is the catalogue alone. */
  method IntendedPorts() returns (ports: seq<int>)
    ensures ports == Catalogue()
    ensures forall i :: 0 <= i < |ports| ==> Settings.ValidPort(ports[i])
  {
    ports := [];
    ports := ports + VeryCommon;
    ports := ports + CommonEnterprise;
    ports := ports + ServiceSpecific;
    ports := ports + Rare;
    CatalogueInRange();
  }

  /** The four lists hold 10, 8, 13 and 12 ports. */
  lemma ListSizes()
    ensures |VeryCommon| == 10 && |CommonEnterprise| == 8 && |ServiceSpecific| == 13 && |Rare| == 12
  {
  }

  /** Every catalogue port is a valid TCP port. */
  lemma CatalogueInRange()
    ensures forall i :: 0 <= i < |Catalogue()| ==> Settings.ValidPort(Catalogue()[i])
  {
  }

  predicate Distinct(s: seq<int>)
  {
    forall i, j :: 0 <= i < j < |s| ==> s[i] != s[j]
  }

  predicate Disjoint(s: seq<int>, t: seq<int>)
  {
    forall i, j :: 0 <= i < |s| && 0 <= j < |t| ==> s[i] != t[j]
  }

  lemma DistinctConcat(s: seq<int>, t: seq<int>)
    requires Distinct(s) && Distinct(t) && Disjoint(s, t)
    ensures Distinct(s + t)
  {
    forall i, j | 0 <= i < j < |s + t|
      ensures (s + t)[i] != (s + t)[j]
    {
      if j < |s| {
      } else if i >= |s| {
        assert (s + t)[i] == t[i - |s|] && (s + t)[j] == t[j - |s|];
      } else {
        assert (s + t)[j] == t[j - |s|];
      }
    }
  }

  lemma DisjointConcat(s: seq<int>, t: seq<int>, u: seq<int>)
    requires Disjoint(s, u) && Disjoint(t, u)
    ensures Disjoint(s + t, u)
  {
    forall i, j | 0 <= i < |s + t| && 0 <= j < |u|
      ensures (s + t)[i] != u[j]
    {
      if i >= |s| {
        assert (s + t)[i] == t[i - |s|];
      }
    }
  }

  lemma ListsDistinct()
    ensures Distinct(VeryCommon) && Distinct(CommonEnterprise) && Distinct(ServiceSpecific) && Distinct(Rare)
  {
  }

  lemma ListsDisjointFromRare()
    ensures Disjoint(VeryCommon, Rare) && Disjoint(CommonEnterprise, Rare) && Disjoint(ServiceSpecific, Rare)
  {
  }

  lemma ListsDisjointFromServiceSpecific()
    ensures Disjoint(VeryCommon, ServiceSpecific) && Disjoint(CommonEnterprise, ServiceSpecific)
  {
  }

  /** No port appears twice in the catalogue. */
  lemma CatalogueDistinct()
    ensures forall i, j :: 0 <= i < j < |Catalogue()| ==> Catalogue()[i] != Catalogue()[j]
  {
    ListsDistinct();
    ListsDisjointFromRare();
    ListsDisjointFromServiceSpecific();
    assert Disjoint(VeryCommon, CommonEnterprise);
    DistinctConcat(VeryCommon, CommonEnterprise);
    DisjointConcat(VeryCommon, CommonEnterprise, ServiceSpecific);
    DistinctConcat(VeryCommon + CommonEnterprise, ServiceSpecific);
    DisjointConcat(VeryCommon, CommonEnterprise, Rare);
    DisjointConcat(VeryCommon + CommonEnterprise, ServiceSpecific, Rare);
    DistinctConcat(VeryCommon + CommonEnterprise + ServiceSpecific, Rare);
  }

  /** The first element of `Ports()` is 0, which is not a valid port. */
  lemma PortsStartsWithZero()
    ensures PortsValue()[0] == 0 && !Settings.ValidPort(PortsValue()[0])
  {
  }
}
