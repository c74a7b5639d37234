/**
 * Isotopologue bookkeeping for ion signatures: the isotope table, neighbouring
 * isotope coordinates, their hash and delta strings, the best-first isotopologue
 * search and the signature labels built from it. Probabilities (the multinomial
 * pmf) and masses are function parameters.
 */
module Ions {
  import opened Wrappers
  import opened Text
  import Grid
  import C = Combinatorics

  // ---------------------------------------------------------------------------
  // Isotope table
  // ---------------------------------------------------------------------------

  /** One row of the isotope data: symbol, mass number, relative atomic mass, isotopic composition (absent when null). */
  datatype IsotopeRecord = IsotopeRecord(symbol: string, massNumber: int, mass: real, composition: Option<real>)

  /** `(iso_symbol, NAP, mass)`: the isotope's name, natural abundance and mass. */
  datatype Isotope = Isotope(name: string, nap: real, mass: real)

  type Table = map<string, seq<Isotope>>

  /** Deuterium is filed under hydrogen; every other symbol is its own element. */
  function ElementOf(r: IsotopeRecord): (e: string)
    ensures e != "D"
    ensures e == r.symbol || (r.symbol == "D" && e == "H")
  {
    if r.symbol == "D" then "H" else r.symbol
  }

  /** `NAP and NAP > .005`: a null or zero composition is falsy. */
  predicate Abundant(r: IsotopeRecord)
  {
    r.composition.Some? && r.composition.value > 0.005
  }

  function IsotopeOf(r: IsotopeRecord): Isotope
    requires Abundant(r)
  {
    Isotope(ElementOf(r) + IntToString(r.massNumber), r.composition.value, r.mass)
  }

  /** The records filed under element `e`, in input order. */
  function Group(records: seq<IsotopeRecord>, e: string): (g: seq<IsotopeRecord>)
    ensures forall i :: 0 <= i < |g| ==> ElementOf(g[i]) == e
  {
    if |records| == 0 then []
    else
      var r := records[|records| - 1];
      Group(records[..|records| - 1], e) + (if ElementOf(r) == e then [r] else [])
  }

  /** The abundant isotopes of a group, in input order. */
  function Survivors(g: seq<IsotopeRecord>): (s: seq<Isotope>)
    ensures forall i :: 0 <= i < |s| ==> s[i].nap > 0.005
  {
    if |g| == 0 then []
    else
      var r := g[|g| - 1];
      Survivors(g[..|g| - 1]) + (if Abundant(r) then [IsotopeOf(r)] else [])
  }

  /** Insert `x` after every element whose key is at least its own. */
  function Insert<T>(x: T, s: seq<T>, key: T -> real): (r: seq<T>)
    ensures |r| == |s| + 1
  {
    if |s| == 0 then [x]
    else if key(s[0]) >= key(x) then [s[0]] + Insert(x, s[1..], key)
    else [x] + s
  }

  /** `sorted(s, key=lambda x: -key(x))`: by descending key, equal keys in input order. */
  function SortDesc<T>(s: seq<T>, key: T -> real): (r: seq<T>)
    ensures |r| == |s|
  {
    if |s| == 0 then [] else Insert(s[|s| - 1], SortDesc(s[..|s| - 1], key), key)
  }

  predicate Descending<T>(s: seq<T>, key: T -> real)
  {
    forall i, j :: 0 <= i < j < |s| ==> key(s[i]) >= key(s[j])
  }

  lemma {:induction false} InsertMultiset<T>(x: T, s: seq<T>, key: T -> real)
    ensures multiset(Insert(x, s, key)) == multiset(s) + multiset{x}
  {
    if |s| > 0 && key(s[0]) >= key(x) {
      InsertMultiset(x, s[1..], key);
      assert [s[0]] + s[1..] == s;
    }
  }

  lemma {:induction false} InsertBounded<T>(x: T, s: seq<T>, key: T -> real, b: real)
    requires key(x) <= b && forall i :: 0 <= i < |s| ==> key(s[i]) <= b
    ensures forall i :: 0 <= i < |s| + 1 ==> key(Insert(x, s, key)[i]) <= b
  {
    if |s| > 0 && key(s[0]) >= key(x) {
      InsertBounded(x, s[1..], key, b);
    }
  }

  lemma {:induction false} InsertKeeps<T>(x: T, s: seq<T>, key: T -> real)
    requires Descending(s, key)
    ensures Descending(Insert(x, s, key), key)
    ensures multiset(Insert(x, s, key)) == multiset(s) + multiset{x}
  {
    InsertMultiset(x, s, key);
    if |s| > 0 && key(s[0]) >= key(x) {
      InsertKeeps(x, s[1..], key);
      InsertBounded(x, s[1..], key, key(s[0]));
    }
  }

  /** The sort yields a descending permutation of its input. */
  lemma {:induction false} SortDescSpec<T>(s: seq<T>, key: T -> real)
    ensures Descending(SortDesc(s, key), key)
    ensures multiset(SortDesc(s, key)) == multiset(s)
  {
    if |s| > 0 {
      SortDescSpec(s[..|s| - 1], key);
      InsertKeeps(s[|s| - 1], SortDesc(s[..|s| - 1], key), key);
      assert s == s[..|s| - 1] + [s[|s| - 1]];
    }
  }

  function Nap(i: Isotope): real { i.nap }

  /** Tin and osmium keep only their two most abundant isotopes. */
  function Truncate(e: string, s: seq<Isotope>): seq<Isotope>
  {
    if (e == "Sn" || e == "Os") && |s| > 2 then s[..2] else s
  }

  /** The table entry for `e`: its abundant isotopes by descending abundance, cut for Sn and Os. */
  function TableEntry(records: seq<IsotopeRecord>, e: string): seq<Isotope>
  {
    Truncate(e, SortDesc(Survivors(Group(records, e)), Nap))
  }

  function Elements(records: seq<IsotopeRecord>): set<string>
  {
    set r | r in records :: ElementOf(r)
  }

  /**
   * Builds the per-element isotope table: group the records by element (D as H),
   * keep the abundant isotopes, sort them by descending abundance, cut Sn and Os
   * to two and leave out elements with nothing left.
   */
  method BuildIsotopeTable(records: seq<IsotopeRecord>) returns (table: Table)
    ensures forall e :: e in table <==> e in Elements(records) && |TableEntry(records, e)| > 0
    ensures forall e :: e in table ==> table[e] == TableEntry(records, e)
  {
    var groups, order := GroupByElement(records);
    table := map[];
    ghost var seen: set<string> := {};
    var j := 0;
    while j < |order|
      invariant 0 <= j <= |order|
      invariant forall e :: e in seen <==> exists k :: 0 <= k < j && order[k] == e
      invariant forall e :: e in table <==> e in seen && |TableEntry(records, e)| > 0
      invariant forall e :: e in table ==> table[e] == TableEntry(records, e)
    {
      var e := order[j];
      var naps := EntryOf(e, groups[e]);
      if |naps| > 0 {
        table := table[e := naps];
      }
      seen := seen + {e};
      j := j + 1;
    }
    forall e | e in Elements(records) ensures e in seen {
      var k :| 0 <= k < |order| && order[k] == e;
    }
  }

  /** One element's entry from its group of records. */
  method EntryOf(e: string, group: seq<IsotopeRecord>) returns (naps: seq<Isotope>)
    ensures naps == Truncate(e, SortDesc(Survivors(group), Nap))
  {
    naps := AbundantIsotopes(group);
    naps := SortDesc(naps, Nap);
    if (e == "Sn" || e == "Os") && |naps| > 2 {
      naps := naps[..2];
    }
  }

  /** Files every record under its element (D as H), keeping the order of first appearance. */
  method GroupByElement(records: seq<IsotopeRecord>) returns (groups: map<string, seq<IsotopeRecord>>, order: seq<string>)
    ensures forall e :: e in groups <==> e in Elements(records)
    ensures forall e :: e in groups ==> groups[e] == Group(records, e)
    ensures forall e :: e in groups <==> e in order
  {
    groups := map[];
    order := [];
    var i := 0;
    while i < |records|
      invariant 0 <= i <= |records|
      invariant Grouped(records[..i], groups, order)
    {
      var r := records[i];
      var e := ElementOf(r);
      GroupedStep(records, i, groups, order);
      if e !in groups {
        order := order + [e];
        groups := groups[e := [r]];
      } else {
        groups := groups[e := groups[e] + [r]];
      }
      i := i + 1;
    }
    assert records[..i] == records;
    forall e ensures e in groups <==> e in Elements(records) {
      GroupElements(records, e);
    }
  }

  /** The dict and key list after filing `records`: the non-empty groups, keyed in first-appearance order. */
  ghost predicate Grouped(records: seq<IsotopeRecord>, groups: map<string, seq<IsotopeRecord>>, order: seq<string>)
  {
    && (forall e :: e in groups <==> e in order)
    && (forall e :: e in groups ==> groups[e] == Group(records, e) && |groups[e]| > 0)
    && (forall e :: e !in groups ==> Group(records, e) == [])
  }

  lemma GroupedStep(records: seq<IsotopeRecord>, i: nat, groups: map<string, seq<IsotopeRecord>>, order: seq<string>)
    requires i < |records| && Grouped(records[..i], groups, order)
    ensures var r := records[i];
      var e := ElementOf(r);
      if e in groups then Grouped(records[..i + 1], groups[e := groups[e] + [r]], order)
      else Grouped(records[..i + 1], groups[e := [r]], order + [e])
  {
    var r := records[i];
    var e := ElementOf(r);
    var init := records[..i];
    var ext := records[..i + 1];
    assert ext[..i] == init;
    assert forall x :: x != e ==> Group(ext, x) == Group(init, x) + [];
    assert Group(ext, e) == Group(init, e) + [r];
  }

  /** An element has a non-empty group exactly when some record is filed under it. */
  lemma GroupElements(records: seq<IsotopeRecord>, e: string)
    ensures Group(records, e) != [] <==> e in Elements(records)
  {
    var g := Group(records, e);
    if g != [] {
      GroupMembers(records, e, g[0]);
    }
    if e in Elements(records) {
      var r :| r in records && ElementOf(r) == e;
      GroupMembers(records, e, r);
    }
  }

  /** The abundant isotopes of one element's records, in order. */
  method AbundantIsotopes(isotopes: seq<IsotopeRecord>) returns (naps: seq<Isotope>)
    ensures naps == Survivors(isotopes)
  {
    naps := [];
    var k := 0;
    while k < |isotopes|
      invariant 0 <= k <= |isotopes|
      invariant naps == Survivors(isotopes[..k])
    {
      assert isotopes[..k + 1][..k] == isotopes[..k];
      if Abundant(isotopes[k]) {
        naps := naps + [IsotopeOf(isotopes[k])];
      }
      k := k + 1;
    }
    assert isotopes[..k] == isotopes;
  }

  lemma {:induction false} SurvivorsExist(g: seq<IsotopeRecord>)
    ensures |Survivors(g)| > 0 <==> exists i :: 0 <= i < |g| && Abundant(g[i])
  {
    if |g| > 0 {
      SurvivorsExist(g[..|g| - 1]);
      if exists i :: 0 <= i < |g| && Abundant(g[i]) {
        var i :| 0 <= i < |g| && Abundant(g[i]);
        if i < |g| - 1 {
          assert g[..|g| - 1][i] == g[i];
        }
      }
    }
  }

  lemma GroupHas(records: seq<IsotopeRecord>, e: string)
    ensures (exists i :: 0 <= i < |Group(records, e)| && Abundant(Group(records, e)[i])) <==>
            (exists r :: r in records && ElementOf(r) == e && Abundant(r))
  {
    var g := Group(records, e);
    if exists i :: 0 <= i < |g| && Abundant(g[i]) {
      var i :| 0 <= i < |g| && Abundant(g[i]);
      GroupMembers(records, e, g[i]);
    }
    if exists r :: r in records && ElementOf(r) == e && Abundant(r) {
      var r :| r in records && ElementOf(r) == e && Abundant(r);
      GroupMembers(records, e, r);
      var i :| 0 <= i < |g| && g[i] == r;
    }
  }

  /** A record is in its element's group exactly when it is one of the records. */
  lemma {:induction false} GroupMembers(records: seq<IsotopeRecord>, e: string, x: IsotopeRecord)
    ensures x in Group(records, e) <==> x in records && ElementOf(x) == e
  {
    if |records| > 0 {
      var init := records[..|records| - 1];
      GroupMembers(init, e, x);
      assert records == init + [records[|records| - 1]];
    }
  }

  /**
   * An element is in the table exactly when some isotope filed under it (D as H)
   * has an abundance above 0.005.
   */
  lemma TableKeys(records: seq<IsotopeRecord>, e: string)
    ensures (e in Elements(records) && |TableEntry(records, e)| > 0) <==>
            exists r :: r in records && ElementOf(r) == e && Abundant(r)
  {
    var g := Group(records, e);
    SurvivorsExist(g);
    GroupHas(records, e);
    assert |TableEntry(records, e)| > 0 <==> |Survivors(g)| > 0;
    if exists r :: r in records && ElementOf(r) == e && Abundant(r) {
      var r :| r in records && ElementOf(r) == e && Abundant(r);
      assert ElementOf(r) in Elements(records);
    }
  }

  /**
   * Every table entry lists its isotopes by descending abundance, each above 0.005;
   * Sn and Os keep at most two; other elements keep exactly their abundant isotopes.
   */
  lemma EntrySpec(records: seq<IsotopeRecord>, e: string)
    ensures Descending(TableEntry(records, e), Nap)
    ensures forall i :: 0 <= i < |TableEntry(records, e)| ==> TableEntry(records, e)[i].nap > 0.005
    ensures (e == "Sn" || e == "Os") ==> |TableEntry(records, e)| <= 2
    ensures e != "Sn" && e != "Os" ==> multiset(TableEntry(records, e)) == multiset(Survivors(Group(records, e)))
  {
    var s := Survivors(Group(records, e));
    SortDescSpec(s, Nap);
    var sorted := SortDesc(s, Nap);
    forall i | 0 <= i < |TableEntry(records, e)| ensures TableEntry(records, e)[i].nap > 0.005 {
      assert TableEntry(records, e)[i] == sorted[i];
      assert sorted[i] in multiset(s);
    }
  }

  /** Every name in the table is an element symbol followed by a mass number, so none is empty. */
  predicate WellFormed(table: Table)
  {
    forall e :: e in table ==> |table[e]| > 0 && forall j :: 0 <= j < |table[e]| ==> table[e][j].name != ""
  }

  lemma BuiltTableWellFormed(records: seq<IsotopeRecord>, table: Table)
    requires forall e :: e in table <==> e in Elements(records) && |TableEntry(records, e)| > 0
    requires forall e :: e in table ==> table[e] == TableEntry(records, e)
    ensures WellFormed(table)
  {
    forall e, j | e in table && 0 <= j < |table[e]| ensures table[e][j].name != "" {
      var s := Survivors(Group(records, e));
      SortDescSpec(s, Nap);
      var sorted := SortDesc(s, Nap);
      assert table[e][j] == sorted[j];
      assert sorted[j] in multiset(s);
      SurvivorNames(Group(records, e), sorted[j]);
    }
  }

  lemma {:induction false} SurvivorNames(g: seq<IsotopeRecord>, x: Isotope)
    requires x in Survivors(g)
    ensures x.name != ""
  {
    if |g| > 0 {
      if x !in Survivors(g[..|g| - 1]) {
        var r := g[|g| - 1];
        assert x == IsotopeOf(r);
        assert |IntToString(r.massNumber)| > 0;
      } else {
        SurvivorNames(g[..|g| - 1], x);
      }
    }
  }

  // ---------------------------------------------------------------------------
  // Isotope coordinates and their neighbours
  // ---------------------------------------------------------------------------

  /** One element of an isotope coordinate: how many atoms sit in each isotope of the table entry. */
  datatype Slot = Slot(element: string, counts: seq<int>)

  /** `{element: counts}` in the dictionary's insertion order. */
  type Coord = seq<Slot>

  /** The step vectors for a vector of n isotopes: `itertools.permutations([-1, 1, 0, ..., 0])` when n > 1. */
  function Steps(n: nat): seq<seq<int>>
  {
    if n > 1 then C.Permutations([-1, 1] + seq(n - 2, _ => 0)) else []
  }

  lemma StepsShape(n: nat, d: seq<int>)
    requires d in Steps(n)
    ensures |d| == n && C.Sum(d) == 0
  {
    var base := [-1, 1] + seq(n - 2, _ => 0);
    C.PermutationShape(base, d);
    ZerosSum(n - 2);
    C.SumAppend([-1, 1], seq(n - 2, _ => 0));
  }

  lemma {:induction false} ZerosSum(n: nat)
    ensures C.Sum(seq(n, _ => 0)) == 0
  {
    if n > 0 {
      ZerosSum(n - 1);
      assert seq(n, _ => 0)[1..] == seq(n - 1, _ => 0);
    }
  }

  function Add(v: seq<int>, d: seq<int>): (r: seq<int>)
    requires |v| == |d|
    ensures |r| == |v|
  {
    seq(|v|, i requires 0 <= i < |v| => v[i] + d[i])
  }

  /** `v + d` for each step `d`, in order, dropping those with a negative entry. */
  function Moved(v: seq<int>, ds: seq<seq<int>>): seq<seq<int>>
    requires forall k :: 0 <= k < |ds| ==> |ds[k]| == |v|
  {
    if |ds| == 0 then []
    else
      var last := Add(v, ds[|ds| - 1]);
      Moved(v, ds[..|ds| - 1]) + (if C.NonNegative(last) then [last] else [])
  }

  /** The neighbour candidates of one element's vector: itself, then every valid single-atom move. */
  function CandidateVectors(v: seq<int>): (r: seq<seq<int>>)
    ensures |r| > 0 && r[0] == v
  {
    var ds := Steps(|v|);
    assert forall k :: 0 <= k < |ds| ==> |ds[k]| == |v| by {
      forall k | 0 <= k < |ds| ensures |ds[k]| == |v| {
        StepsShape(|v|, ds[k]);
      }
    }
    [v] + Moved(v, ds)
  }

  function SlotCandidates(s: Slot): (r: seq<Slot>)
    ensures |r| > 0 && r[0] == s
  {
    var vs := CandidateVectors(s.counts);
    seq(|vs|, i requires 0 <= i < |vs| => Slot(s.element, vs[i]))
  }

  function CandidateLists(c: Coord): (r: seq<seq<Slot>>)
    ensures |r| == |c| && forall k :: 0 <= k < |c| ==> r[k] == SlotCandidates(c[k])
  {
    seq(|c|, k requires 0 <= k < |c| => SlotCandidates(c[k]))
  }

  /**
   * `gen_neighbors`: one candidate per element for every index vector of
   * `np.ndindex`. The all-zero index vector (the coordinate itself) is not
   * excluded, since the test at line 123 compares a tuple with 0.
   */
  function Neighbors(c: Coord): seq<Coord>
  {
    Grid.Cross(CandidateLists(c))
  }

  /** The unchanged coordinate is the first neighbour of itself. */
  lemma NeighborsStartWithSelf(c: Coord)
    ensures |Neighbors(c)| > 0 && Neighbors(c)[0] == c
    ensures c in Neighbors(c)
  {
    Grid.CrossFirst(CandidateLists(c));
  }

  /** A one-isotope element never moves. */
  lemma SingleIsotopeFixed(v: seq<int>)
    requires |v| <= 1
    ensures CandidateVectors(v) == [v]
  {
  }

  /** For n > 1 isotopes, n! step vectors are tried (repeats included). */
  lemma StepsCount(n: nat)
    requires n > 1
    ensures |Steps(n)| == C.Factorial(n)
  {
    C.PermutationsCount([-1, 1] + seq(n - 2, _ => 0));
  }

  lemma {:induction false} MovedShape(v: seq<int>, ds: seq<seq<int>>, w: seq<int>)
    requires forall k :: 0 <= k < |ds| ==> |ds[k]| == |v| && C.Sum(ds[k]) == 0
    requires w in Moved(v, ds)
    ensures |w| == |v| && C.NonNegative(w) && C.Sum(w) == C.Sum(v)
  {
    var last := Add(v, ds[|ds| - 1]);
    if w in Moved(v, ds[..|ds| - 1]) {
      MovedShape(v, ds[..|ds| - 1], w);
    } else {
      assert w == last;
      AddSum(v, ds[|ds| - 1]);
    }
  }

  lemma {:induction false} AddSum(v: seq<int>, d: seq<int>)
    requires |v| == |d|
    ensures C.Sum(Add(v, d)) == C.Sum(v) + C.Sum(d)
  {
    if |v| > 0 {
      AddSum(v[1..], d[1..]);
      assert Add(v, d)[1..] == Add(v[1..], d[1..]);
    }
  }

  /** Every candidate keeps the vector's length and atom total; a non-negative vector stays non-negative. */
  lemma CandidateVectorShape(v: seq<int>, w: seq<int>)
    requires w in CandidateVectors(v)
    ensures |w| == |v| && C.Sum(w) == C.Sum(v)
    ensures C.NonNegative(v) ==> C.NonNegative(w)
  {
    var ds := Steps(|v|);
    if w != v {
      forall k | 0 <= k < |ds| ensures |ds[k]| == |v| && C.Sum(ds[k]) == 0 {
        StepsShape(|v|, ds[k]);
      }
      MovedShape(v, ds, w);
    }
  }

  /**
   * Every neighbour has the same elements in the same order, the same number of
   * isotopes per element and the same atom total per element.
   */
  lemma NeighborShape(c: Coord, n: Coord)
    requires n in Neighbors(c)
    ensures |n| == |c|
    ensures forall k :: 0 <= k < |c| ==>
      && n[k].element == c[k].element
      && |n[k].counts| == |c[k].counts|
      && C.Sum(n[k].counts) == C.Sum(c[k].counts)
      && (C.NonNegative(c[k].counts) ==> C.NonNegative(n[k].counts))
  {
    var lists := CandidateLists(c);
    Grid.CrossMembers(lists, n);
    forall k | 0 <= k < |c|
      ensures n[k].element == c[k].element
      ensures |n[k].counts| == |c[k].counts| && C.Sum(n[k].counts) == C.Sum(c[k].counts)
      ensures C.NonNegative(c[k].counts) ==> C.NonNegative(n[k].counts)
    {
      var slots := SlotCandidates(c[k]);
      var i :| 0 <= i < |slots| && slots[i] == n[k];
      CandidateVectorShape(c[k].counts, CandidateVectors(c[k].counts)[i]);
    }
  }

  /** `gen_neighbors`: the candidate lists per element, then one coordinate per `np.ndindex` vector. */
  method GenNeighbors(c: Coord) returns (r: seq<Coord>)
    ensures r == Neighbors(c)
  {
    var lists := ElementLists(c);
    var idx := Grid.NdIndex(Grid.Lengths(lists));
    ghost var cross := Grid.Cross(lists);
    r := [];
    var i := 0;
    while i < |idx|
      invariant 0 <= i <= |idx| == |cross|
      invariant r == cross[..i]
    {
      Grid.NdIndexMembers(Grid.Lengths(lists), idx[i]);
      assert cross[i] == Grid.Pick(lists, idx[i]);
      r := r + [Grid.Pick(lists, idx[i])];
      i := i + 1;
    }
  }

  /** The candidate lists of every element of a coordinate, in order. */
  method ElementLists(c: Coord) returns (lists: seq<seq<Slot>>)
    ensures lists == CandidateLists(c)
  {
    lists := [];
    var k := 0;
    while k < |c|
      invariant 0 <= k <= |c|
      invariant lists == CandidateLists(c)[..k]
    {
      var cands := ElementCandidates(c[k]);
      lists := lists + [cands];
      k := k + 1;
    }
  }

  /** One element's neighbour list: the vector, then each step that leaves no count negative. */
  method ElementCandidates(s: Slot) returns (r: seq<Slot>)
    ensures r == SlotCandidates(s)
  {
    var v := s.counts;
    var found: seq<seq<int>> := [v];
    if |v| > 1 {
      var ds := Steps(|v|);
      forall k | 0 <= k < |ds| ensures |ds[k]| == |v| {
        StepsShape(|v|, ds[k]);
      }
      var j := 0;
      while j < |ds|
        invariant 0 <= j <= |ds|
        invariant found == [v] + Moved(v, ds[..j])
      {
        assert ds[..j + 1][..j] == ds[..j];
        var moved := Add(v, ds[j]);
        if C.NonNegative(moved) {
          found := found + [moved];
        }
        j := j + 1;
      }
      assert ds[..j] == ds;
    }
    r := [];
    var i := 0;
    while i < |found|
      invariant 0 <= i <= |found|
      invariant r == seq(i, m requires 0 <= m < i => Slot(s.element, found[m]))
    {
      r := r + [Slot(s.element, found[i])];
      i := i + 1;
    }
  }

  // ---------------------------------------------------------------------------
  // Hash and delta strings
  // ---------------------------------------------------------------------------

  function CountStrings(v: seq<int>): (r: seq<string>)
    ensures |r| == |v| && forall i :: 0 <= i < |v| ==> r[i] == IntToString(v[i])
  {
    seq(|v|, i requires 0 <= i < |v| => IntToString(v[i]))
  }

  function SlotKey(s: Slot): string
  {
    s.element + Join(",", CountStrings(s.counts))
  }

  function SlotKeys(c: Coord): (r: seq<string>)
    ensures |r| == |c| && forall k :: 0 <= k < |c| ==> r[k] == SlotKey(c[k])
  {
    seq(|c|, k requires 0 <= k < |c| => SlotKey(c[k]))
  }

  /** `hash_isotopologue`: each element followed by its comma-joined counts, joined by '|'. */
  function Hash(c: Coord): string
  {
    Join("|", SlotKeys(c))
  }

  function ElementNames(c: Coord): (r: seq<string>)
    ensures |r| == |c| && forall k :: 0 <= k < |c| ==> r[k] == c[k].element
  {
    seq(|c|, k requires 0 <= k < |c| => c[k].element)
  }

  lemma {:induction false} JoinFree(sep: string, parts: seq<string>, c: char)
    requires Free(sep, c) && forall i :: 0 <= i < |parts| ==> Free(parts[i], c)
    ensures Free(Join(sep, parts), c)
  {
    if |parts| > 1 {
      JoinFree(sep, parts[1..], c);
    }
  }

  lemma CountStringsFree(v: seq<int>, c: char)
    requires c != '-' && !IsDigit(c)
    ensures forall i :: 0 <= i < |v| ==> Free(CountStrings(v)[i], c)
  {
  }

  /**
   * Coordinates over the same elements (none holding '|') with non-empty count
   * vectors have equal hashes only when they are equal: the `used` set of hashes
   * tells coordinates apart.
   */
  lemma HashInjective(a: Coord, b: Coord)
    requires ElementNames(a) == ElementNames(b)
    requires forall k :: 0 <= k < |a| ==> Free(a[k].element, '|') && |a[k].counts| > 0 && |b[k].counts| > 0
    requires |a| > 0
    requires Hash(a) == Hash(b)
    ensures a == b
  {
    forall x: Coord | x == a || x == b
      ensures Split(Hash(x), '|') == SlotKeys(x)
    {
      forall k | 0 <= k < |x| ensures Free(SlotKey(x[k]), '|') {
        CountStringsFree(x[k].counts, '|');
        JoinFree(",", CountStrings(x[k].counts), '|');
      }
      JoinSplit(SlotKeys(x), '|');
    }
    forall k | 0 <= k < |a| ensures a[k] == b[k] {
      assert a[k].element == b[k].element by {
        assert ElementNames(a)[k] == ElementNames(b)[k];
      }
      var e := a[k].element;
      assert SlotKey(a[k]) == SlotKey(b[k]);
      var ja, jb := Join(",", CountStrings(a[k].counts)), Join(",", CountStrings(b[k].counts));
      assert ja == SlotKey(a[k])[|e|..] && jb == SlotKey(b[k])[|e|..];
      CountStringsFree(a[k].counts, ',');
      CountStringsFree(b[k].counts, ',');
      JoinSplit(CountStrings(a[k].counts), ',');
      JoinSplit(CountStrings(b[k].counts), ',');
      forall i | 0 <= i < |a[k].counts| ensures a[k].counts[i] == b[k].counts[i] {
        IntToStringInjective(a[k].counts[i], b[k].counts[i]);
      }
    }
  }

  /** The isotope names of one table entry, `[x[0] for x in element_to_iso_tuples[element]]`. */
  function Names(isotopes: seq<Isotope>): (r: seq<string>)
    ensures |r| == |isotopes| && forall i :: 0 <= i < |r| ==> r[i] == isotopes[i].name
  {
    seq(|isotopes|, i requires 0 <= i < |isotopes| => isotopes[i].name)
  }

  /** One slot's contribution: nothing for no increase, the name for +1, `k` + name for +k. */
  function Bump(d: int, name: string): seq<string>
  {
    if d > 1 then [IntToString(d) + name] else if d == 1 then [name] else []
  }

  /** The bumps of the first m slots of `zip(v - r, names)`. */
  function Bumps(v: seq<int>, r: seq<int>, names: seq<string>, m: nat): seq<string>
    requires |v| == |r| && m <= |v| && m <= |names|
  {
    if m == 0 then [] else Bumps(v, r, names, m - 1) + Bump(v[m - 1] - r[m - 1], names[m - 1])
  }

  function Min(a: nat, b: nat): nat { if a < b then a else b }

  /** The delta substring of one element. */
  function SlotDelta(v: seq<int>, r: seq<int>, names: seq<string>): string
    requires |v| == |r|
  {
    Join(",", Bumps(v, r, names, Min(|v|, |names|)))
  }

  function NonEmpty(ss: seq<string>): (r: seq<string>)
    ensures forall i :: 0 <= i < |r| ==> r[i] != ""
  {
    if |ss| == 0 then []
    else NonEmpty(ss[..|ss| - 1]) + (if ss[|ss| - 1] != "" then [ss[|ss| - 1]] else [])
  }

  /** Both coordinates list the same table elements with vectors of one length. */
  predicate Comparable(iso: Coord, ref: Coord, table: Table)
  {
    && |iso| == |ref|
    && forall k :: 0 <= k < |iso| ==>
      && iso[k].element == ref[k].element
      && iso[k].element in table
      && |iso[k].counts| == |ref[k].counts|
  }

  function SlotDeltas(iso: Coord, ref: Coord, table: Table): (r: seq<string>)
    requires Comparable(iso, ref, table)
    ensures |r| == |iso|
  {
    seq(|iso|, k requires 0 <= k < |iso| =>
      SlotDelta(iso[k].counts, ref[k].counts, Names(table[iso[k].element])))
  }

  /**
   * The string half of `delta_info`: every slot with an increase, named, in
   * element order, wrapped in parentheses; '' when there is none.
   */
  function DeltaString(iso: Coord, ref: Coord, table: Table): string
    requires Comparable(iso, ref, table)
  {
    var inner := Join(",", NonEmpty(SlotDeltas(iso, ref, table)));
    if "(" + inner + ")" != "()" then "(" + inner + ")" else ""
  }

  /** Some slot among the first m of some element counts more atoms than the reference does. */
  predicate Increases(iso: Coord, ref: Coord, table: Table)
    requires Comparable(iso, ref, table)
  {
    exists k, j :: 0 <= k < |iso| && 0 <= j < Min(|iso[k].counts|, |table[iso[k].element]|) &&
      iso[k].counts[j] > ref[k].counts[j]
  }

  lemma {:induction false} JoinEmpty(sep: string, parts: seq<string>)
    requires forall i :: 0 <= i < |parts| ==> parts[i] != ""
    ensures Join(sep, parts) == "" <==> |parts| == 0
  {
    if |parts| > 1 {
      assert |Join(sep, parts)| >= |parts[0]|;
    }
  }

  lemma {:induction false} BumpsNonEmpty(v: seq<int>, r: seq<int>, names: seq<string>, m: nat)
    requires |v| == |r| && m <= |v| && m <= |names|
    requires forall i :: 0 <= i < |names| ==> names[i] != ""
    ensures forall i :: 0 <= i < |Bumps(v, r, names, m)| ==> Bumps(v, r, names, m)[i] != ""
  {
    if m > 0 {
      BumpsNonEmpty(v, r, names, m - 1);
      var d := v[m - 1] - r[m - 1];
      if d > 1 {
        assert |IntToString(d) + names[m - 1]| > 0;
      }
    }
  }

  lemma {:induction false} BumpsEmpty(v: seq<int>, r: seq<int>, names: seq<string>, m: nat)
    requires |v| == |r| && m <= |v| && m <= |names|
    ensures |Bumps(v, r, names, m)| == 0 <==> forall j :: 0 <= j < m ==> v[j] <= r[j]
  {
    if m > 0 {
      BumpsEmpty(v, r, names, m - 1);
    }
  }

  lemma {:induction false} NonEmptyEmpty(ss: seq<string>)
    ensures |NonEmpty(ss)| == 0 <==> forall i :: 0 <= i < |ss| ==> ss[i] == ""
  {
    if |ss| > 0 {
      var init := ss[..|ss| - 1];
      NonEmptyEmpty(init);
      assert forall i :: 0 <= i < |init| ==> init[i] == ss[i];
    }
  }

  /**
   * With a well-formed table, the delta string is empty exactly when no slot
   * gains atoms over the reference; otherwise it is wrapped in parentheses.
   */
  lemma DeltaStringSpec(iso: Coord, ref: Coord, table: Table)
    requires WellFormed(table) && Comparable(iso, ref, table)
    ensures DeltaString(iso, ref, table) == "" <==> !Increases(iso, ref, table)
    ensures DeltaString(iso, ref, table) != "" ==>
      var d := DeltaString(iso, ref, table);
      |d| >= 3 && d[0] == '(' && d[|d| - 1] == ')'
  {
    var inner := Join(",", NonEmpty(SlotDeltas(iso, ref, table)));
    InnerEmpty(iso, ref, table);
    var w := "(" + inner + ")";
    assert |w| == |inner| + 2 && w[0] == '(' && w[|w| - 1] == ')';
    assert w == "()" <==> inner == "";
  }

  /** The joined slot deltas are empty exactly when nothing increases. */
  lemma InnerEmpty(iso: Coord, ref: Coord, table: Table)
    requires WellFormed(table) && Comparable(iso, ref, table)
    ensures Join(",", NonEmpty(SlotDeltas(iso, ref, table))) == "" <==> !Increases(iso, ref, table)
  {
    var deltas := SlotDeltas(iso, ref, table);
    forall k | 0 <= k < |iso|
      ensures deltas[k] == "" <==>
        forall j :: 0 <= j < Min(|iso[k].counts|, |table[iso[k].element]|) ==> iso[k].counts[j] <= ref[k].counts[j]
    {
      SlotDeltaEmpty(iso[k].counts, ref[k].counts, Names(table[iso[k].element]));
    }
    NonEmptyEmpty(deltas);
    JoinEmpty(",", NonEmpty(deltas));
    if !Increases(iso, ref, table) {
      forall k | 0 <= k < |iso| ensures deltas[k] == "" {
      }
    }
  }

  /** One element's delta is empty exactly when none of its compared slots gains atoms. */
  lemma SlotDeltaEmpty(v: seq<int>, r: seq<int>, names: seq<string>)
    requires |v| == |r| && forall i :: 0 <= i < |names| ==> names[i] != ""
    ensures SlotDelta(v, r, names) == "" <==> forall j :: 0 <= j < Min(|v|, |names|) ==> v[j] <= r[j]
  {
    var m := Min(|v|, |names|);
    BumpsNonEmpty(v, r, names, m);
    BumpsEmpty(v, r, names, m);
    JoinEmpty(",", Bumps(v, r, names, m));
  }

  /** The reference itself has no delta. */
  lemma DeltaOfReference(ref: Coord, table: Table)
    requires WellFormed(table) && Comparable(ref, ref, table)
    ensures DeltaString(ref, ref, table) == ""
  {
    DeltaStringSpec(ref, ref, table);
  }

  // ---------------------------------------------------------------------------
  // Best-first isotopologue search (`gen_isotopologues`)
  // ---------------------------------------------------------------------------

  /** A heap entry `(-NAP, coordinate)`, kept here with the probability itself. */
  datatype Entry = Entry(prob: real, coord: Coord)

  /** Every element of the formula has isotopes in the table; the generator raises KeyError on the first that has none. */
  predicate Known(formula: seq<(string, nat)>, table: Table)
  {
    forall k :: 0 <= k < |formula| ==> formula[k].0 in table
  }

  /** One generated isotopologue: NAP, coordinate, mass, and the `delta_info` pair. */
  datatype Yield = Yield(nap: real, coord: Coord, mass: real, delta: string, deltaMass: real)

  /** Every element of the formula is in the table, with a vector as long as its table entry and no negative count. */
  predicate StartShaped(start: Coord, table: Table)
  {
    forall k :: 0 <= k < |start| ==>
      && start[k].element in table
      && |start[k].counts| == |table[start[k].element]|
      && C.NonNegative(start[k].counts)
  }

  /** The start coordinate: for each element of the formula, all its atoms in the most abundant isotope. */
  function Start(formula: seq<(string, nat)>, table: Table): (c: Coord)
    requires WellFormed(table) && forall k :: 0 <= k < |formula| ==> formula[k].0 in table
    ensures |c| == |formula| && StartShaped(c, table)
    ensures forall k :: 0 <= k < |c| ==> c[k].element == formula[k].0 && C.Sum(c[k].counts) == formula[k].1
  {
    var c := seq(|formula|, k requires 0 <= k < |formula| =>
      Slot(formula[k].0, [formula[k].1 as int] + seq(|table[formula[k].0]| - 1, _ => 0)));
    assert forall k :: 0 <= k < |c| ==> C.Sum(c[k].counts) == formula[k].1 by {
      forall k | 0 <= k < |c| ensures C.Sum(c[k].counts) == formula[k].1 {
        ZerosSum(|table[formula[k].0]| - 1);
        assert c[k].counts[1..] == seq(|table[formula[k].0]| - 1, _ => 0);
      }
    }
    c
  }

  /** Same elements, lengths and atom totals as the start, no negative count. */
  predicate InSpace(c: Coord, start: Coord)
  {
    && |c| == |start|
    && forall k :: 0 <= k < |c| ==>
      && c[k].element == start[k].element
      && |c[k].counts| == |start[k].counts|
      && C.NonNegative(c[k].counts)
      && C.Sum(c[k].counts) == C.Sum(start[k].counts)
  }

  ghost function Total(s: Slot): nat
  {
    var t := C.Sum(s.counts);
    if t >= 0 then t else 0
  }

  ghost function SlotSpace(s: Slot): seq<Slot>
  {
    var vs := C.Compositions(|s.counts|, Total(s));
    seq(|vs|, i requires 0 <= i < |vs| => Slot(s.element, vs[i]))
  }

  /** Every coordinate with the start's shape: finitely many. */
  ghost function Space(start: Coord): seq<Coord>
  {
    Grid.Cross(seq(|start|, k requires 0 <= k < |start| => SlotSpace(start[k])))
  }

  ghost function HashSpace(start: Coord): set<string>
  {
    set c | c in Space(start) :: Hash(c)
  }

  lemma InSpaceHashed(c: Coord, start: Coord)
    requires InSpace(c, start)
    ensures Hash(c) in HashSpace(start)
  {
    var lists := seq(|start|, k requires 0 <= k < |start| => SlotSpace(start[k]));
    forall k | 0 <= k < |c| ensures c[k] in lists[k] {
      C.SumNonNegative(c[k].counts);
      C.CompositionsComplete(|c[k].counts|, Total(start[k]), c[k].counts);
      var vs := C.Compositions(|start[k].counts|, Total(start[k]));
      var i :| 0 <= i < |vs| && vs[i] == c[k].counts;
      assert lists[k][i] == c[k];
    }
    Grid.CrossMembers(lists, c);
  }

  lemma NeighborInSpace(c: Coord, n: Coord, start: Coord)
    requires InSpace(c, start) && n in Neighbors(c)
    ensures InSpace(n, start)
  {
    NeighborShape(c, n);
  }

  /** The entries pushed for `xs`, in order: each with a new hash and a probability above the cutoff. */
  function Push(xs: seq<Coord>, used: set<string>, prob: Coord -> real, cutoff: real): (seq<Entry>, set<string>)
  {
    if |xs| == 0 then ([], used)
    else
      var before := Push(xs[..|xs| - 1], used, prob, cutoff);
      var x := xs[|xs| - 1];
      if Hash(x) !in before.1 && prob(x) > cutoff then (before.0 + [Entry(prob(x), x)], before.1 + {Hash(x)})
      else before
  }

  predicate DistinctHashes(h: seq<Entry>)
  {
    forall i, j :: 0 <= i < j < |h| ==> Hash(h[i].coord) != Hash(h[j].coord)
  }

  /**
   * Pushing only adds: every pushed entry comes from `xs`, carries its own
   * probability above the cutoff and a hash that was not used before and is used
   * after, and no two pushed entries share a hash.
   */
  lemma {:induction false} PushSpec(xs: seq<Coord>, used: set<string>, prob: Coord -> real, cutoff: real)
    ensures used <= Push(xs, used, prob, cutoff).1
    ensures DistinctHashes(Push(xs, used, prob, cutoff).0)
    ensures var h := Push(xs, used, prob, cutoff).0;
      forall i :: 0 <= i < |h| ==>
        && h[i].coord in xs
        && h[i].prob == prob(h[i].coord) && h[i].prob > cutoff
        && Hash(h[i].coord) !in used
        && Hash(h[i].coord) in Push(xs, used, prob, cutoff).1
  {
    if |xs| > 0 {
      PushSpec(xs[..|xs| - 1], used, prob, cutoff);
      var before := Push(xs[..|xs| - 1], used, prob, cutoff);
      var h := Push(xs, used, prob, cutoff).0;
      forall i | 0 <= i < |h| ensures h[i].coord in xs {
        if i < |before.0| {
          assert h[i] == before.0[i];
          assert h[i].coord in xs[..|xs| - 1];
        }
      }
    }
  }

  /** Each pushed entry uses up one hash of the space. */
  lemma {:induction false} PushCount(xs: seq<Coord>, used: set<string>, prob: Coord -> real, cutoff: real, space: set<string>)
    requires forall i :: 0 <= i < |xs| ==> Hash(xs[i]) in space
    ensures |space - Push(xs, used, prob, cutoff).1| + |Push(xs, used, prob, cutoff).0| == |space - used|
  {
    if |xs| > 0 {
      PushCount(xs[..|xs| - 1], used, prob, cutoff, space);
      var before := Push(xs[..|xs| - 1], used, prob, cutoff);
      var x := xs[|xs| - 1];
      if Hash(x) !in before.1 && prob(x) > cutoff {
        var after := before.1 + {Hash(x)};
        assert space - before.1 == (space - after) + {Hash(x)};
        assert Hash(x) !in space - after;
      }
    }
  }

  /** `heapq.heappop` on `(-NAP, coordinate)` pairs: the first entry of highest probability. */
  function Best(h: seq<Entry>): (i: nat)
    requires |h| > 0
    ensures i < |h| && forall j :: 0 <= j < |h| ==> h[j].prob <= h[i].prob
  {
    if |h| == 1 then 0
    else
      var b := Best(h[..|h| - 1]);
      if h[|h| - 1].prob > h[b].prob then |h| - 1 else b
  }

  /** The first of a non-empty sort holds a highest key among the input. */
  lemma SortDescFirst<T>(s: seq<T>, key: T -> real)
    requires |s| > 0
    ensures SortDesc(s, key)[0] in s
    ensures forall x :: x in s ==> key(x) <= key(SortDesc(s, key)[0])
  {
    SortDescSpec(s, key);
    var r := SortDesc(s, key);
    assert r[0] in multiset(s);
    forall x | x in s ensures key(x) <= key(r[0]) {
      assert x in multiset(r);
      var i :| 0 <= i < |r| && r[i] == x;
    }
  }

  /** A heap entry for a coordinate of the start's space, with its own probability above the cutoff. */
  predicate EntryOk(x: Entry, start: Coord, prob: Coord -> real, cutoff: real)
  {
    InSpace(x.coord, start) && x.prob == prob(x.coord) && x.prob > cutoff
  }

  /** Every waiting entry is well-formed, used, not yet yielded, and no two share a hash. */
  predicate HeapOk(heap: seq<Entry>, used: set<string>, yielded: set<string>, start: Coord, prob: Coord -> real, cutoff: real)
  {
    && yielded <= used
    && DistinctHashes(heap)
    && forall i :: 0 <= i < |heap| ==>
      EntryOk(heap[i], start, prob, cutoff) && Hash(heap[i].coord) in used && Hash(heap[i].coord) !in yielded
  }

  lemma RemoveKeepsHeapOk(heap: seq<Entry>, used: set<string>, yielded: set<string>, start: Coord, prob: Coord -> real, cutoff: real, i: nat)
    requires HeapOk(heap, used, yielded, start, prob, cutoff) && i < |heap|
    ensures HeapOk(C.Without(heap, i), used, yielded + {Hash(heap[i].coord)}, start, prob, cutoff)
  {
    var rest := C.Without(heap, i);
    assert forall k :: 0 <= k < |rest| ==> rest[k] == heap[if k < i then k else k + 1];
  }

  lemma PushKeepsHeapOk(rest: seq<Entry>, used: set<string>, yielded: set<string>, start: Coord, prob: Coord -> real, cutoff: real, xs: seq<Coord>)
    requires HeapOk(rest, used, yielded, start, prob, cutoff)
    requires forall k :: 0 <= k < |xs| ==> InSpace(xs[k], start)
    ensures var pushed := Push(xs, used, prob, cutoff);
      HeapOk(rest + pushed.0, pushed.1, yielded, start, prob, cutoff)
  {
    PushSpec(xs, used, prob, cutoff);
  }

  /** Popping entry i and pushing its neighbours keeps the heap well-formed. */
  lemma StepKeepsHeapOk(heap: seq<Entry>, used: set<string>, yielded: set<string>, start: Coord, prob: Coord -> real, cutoff: real, i: nat)
    requires HeapOk(heap, used, yielded, start, prob, cutoff) && i < |heap|
    ensures var pushed := Push(Neighbors(heap[i].coord), used, prob, cutoff);
      HeapOk(C.Without(heap, i) + pushed.0, pushed.1, yielded + {Hash(heap[i].coord)}, start, prob, cutoff)
  {
    var ns := Neighbors(heap[i].coord);
    RemoveKeepsHeapOk(heap, used, yielded, start, prob, cutoff, i);
    forall k | 0 <= k < |ns| ensures InSpace(ns[k], start) {
      NeighborInSpace(heap[i].coord, ns[k], start);
    }
    PushKeepsHeapOk(C.Without(heap, i), used, yielded + {Hash(heap[i].coord)}, start, prob, cutoff, ns);
  }

  /** Popping entry i and pushing its neighbours lowers the measure by one. */
  lemma StepMeasure(heap: seq<Entry>, used: set<string>, start: Coord, prob: Coord -> real, cutoff: real, i: nat)
    requires i < |heap| && InSpace(heap[i].coord, start)
    ensures var pushed := Push(Neighbors(heap[i].coord), used, prob, cutoff);
      |HashSpace(start) - pushed.1| + |C.Without(heap, i) + pushed.0| < |HashSpace(start) - used| + |heap|
  {
    var ns := Neighbors(heap[i].coord);
    forall k | 0 <= k < |ns| ensures Hash(ns[k]) in HashSpace(start) {
      NeighborInSpace(heap[i].coord, ns[k], start);
      InSpaceHashed(ns[k], start);
    }
    PushCount(ns, used, prob, cutoff, HashSpace(start));
  }

  /** Pushes the coordinates in order, each with a new hash and a probability above the cutoff. */
  method PushAll(xs: seq<Coord>, used: set<string>, prob: Coord -> real, cutoff: real) returns (h: seq<Entry>, u: set<string>)
    ensures (h, u) == Push(xs, used, prob, cutoff)
  {
    h, u := [], used;
    var j := 0;
    while j < |xs|
      invariant 0 <= j <= |xs|
      invariant (h, u) == Push(xs[..j], used, prob, cutoff)
    {
      assert xs[..j + 1][..j] == xs[..j];
      var x := xs[j];
      var key := Hash(x);
      if key !in u {
        var p := prob(x);
        if p > cutoff {
          h := h + [Entry(p, x)];
          u := u + {key};
        }
      }
      j := j + 1;
    }
    assert xs[..j] == xs;
  }

  /** The state of `gen_isotopologues` between two yields, as values: the waiting heap and the hashes ever pushed. */
  datatype Frontier = Frontier(heap: seq<Entry>, used: set<string>)

  /** One pass of the `while iso_heap` loop: pop the best entry and push its new neighbours; nothing once the heap is empty. */
  function Advance(f: Frontier, prob: Coord -> real, cutoff: real): Frontier
  {
    if f.heap == [] then f
    else
      var i := Best(f.heap);
      var pushed := Push(Neighbors(f.heap[i].coord), f.used, prob, cutoff);
      Frontier(C.Without(f.heap, i) + pushed.0, pushed.1)
  }

  /** `n` applications of `step`, starting from `s`. */
  function Iterate<S>(step: S -> S, s: S, n: nat): S
  {
    if n == 0 then s else step(Iterate(step, s, n - 1))
  }

  /** What the first `n` applications of `step` emit, each state giving `emit` of itself. */
  function Emitted<S, E>(step: S -> S, emit: S -> seq<E>, s: S, n: nat): seq<E>
  {
    if n == 0 then [] else Emitted(step, emit, s, n - 1) + emit(Iterate(step, s, n - 1))
  }

  /** A state that `step` keeps and that emits nothing is never left, and nothing more is emitted. */
  lemma {:induction false} FixedStays<S, E>(step: S -> S, emit: S -> seq<E>, s: S, n: nat, m: nat)
    requires step(Iterate(step, s, n)) == Iterate(step, s, n) && emit(Iterate(step, s, n)) == [] && n <= m
    ensures Iterate(step, s, m) == Iterate(step, s, n)
    ensures Emitted(step, emit, s, m) == Emitted(step, emit, s, n)
    decreases m - n
  {
    if m > n {
      FixedStays(step, emit, s, n, m - 1);
      assert Emitted(step, emit, s, m) == Emitted(step, emit, s, m - 1) + [];
    }
  }

  /** What one pass yields: the best entry of a non-empty heap. */
  function Top(f: Frontier): seq<Entry>
  {
    if f.heap == [] then [] else [f.heap[Best(f.heap)]]
  }

  /** The state after n passes. */
  function After(f: Frontier, prob: Coord -> real, cutoff: real, n: nat): Frontier
  {
    Iterate((g: Frontier) => Advance(g, prob, cutoff), f, n)
  }

  /** The entries yielded by the first n passes, in order. */
  function Popped(f: Frontier, prob: Coord -> real, cutoff: real, n: nat): seq<Entry>
  {
    Emitted((g: Frontier) => Advance(g, prob, cutoff), Top, f, n)
  }

  /** The (NAP, coordinate) pairs of some yields. */
  function Entries(gs: seq<Yield>): (r: seq<Entry>)
    ensures |r| == |gs| && forall k :: 0 <= k < |gs| ==> r[k].prob == gs[k].nap && r[k].coord == gs[k].coord
  {
    seq(|gs|, k requires 0 <= k < |gs| => Entry(gs[k].nap, gs[k].coord))
  }

  /** Once the heap is empty the generator is exhausted: no later pass changes the state or yields anything. */
  lemma DryStays(f: Frontier, prob: Coord -> real, cutoff: real, n: nat, m: nat)
    requires After(f, prob, cutoff, n).heap == [] && n <= m
    ensures After(f, prob, cutoff, m) == After(f, prob, cutoff, n)
    ensures Popped(f, prob, cutoff, m) == Popped(f, prob, cutoff, n)
  {
    var step := (g: Frontier) => Advance(g, prob, cutoff);
    AdvanceDry(Iterate(step, f, n), prob, cutoff);
    FixedStays(step, Top, f, n, m);
  }

  lemma AdvanceDry(g: Frontier, prob: Coord -> real, cutoff: real)
    requires g.heap == []
    ensures Advance(g, prob, cutoff) == g
  {
  }

  /** A pass from a non-empty heap yields its best entry after the earlier ones. */
  lemma PoppedStep(f: Frontier, prob: Coord -> real, cutoff: real, gs: seq<Yield>, y: Yield)
    requires Entries(gs) == Popped(f, prob, cutoff, |gs|)
    requires var g := After(f, prob, cutoff, |gs|);
      g.heap != [] && Entry(y.nap, y.coord) == g.heap[Best(g.heap)]
    ensures Entries(gs + [y]) == Popped(f, prob, cutoff, |gs| + 1)
  {
    assert Entries(gs + [y]) == Entries(gs) + [Entry(y.nap, y.coord)];
  }

  /**
   * The state of `gen_isotopologues` between two yields: the heap of pushed
   * coordinates not yet yielded and the set of hashes ever pushed.
   */
  class IsotopologueSearch {
    var heap: seq<Entry>
    var used: set<string>
    /** The hashes yielded so far. */
    ghost var yielded: set<string>
    const start: Coord
    const reference: Coord
    const table: Table
    const prob: Coord -> real
    const mass: Coord -> real
    const cutoff: real

    ghost predicate Valid()
      reads this
    {
      && WellFormed(table)
      && StartShaped(start, table)
      && InSpace(reference, start)
      && HeapOk(heap, used, yielded, start, prob, cutoff)
    }

    /** Hashes of the finite space not yet used, plus entries waiting: every step lowers it by one. */
    ghost function Measure(): nat
      reads this
    {
      |HashSpace(start) - used| + |heap|
    }

    /**
     * Starts the search: the start coordinate and its neighbours sorted by
     * descending probability, the first of them as the delta reference, and each
     * of them with a new hash and a probability above the cutoff pushed.
     */
    constructor (formula: seq<(string, nat)>, table: Table, prob: Coord -> real, mass: Coord -> real, cutoff: real)
      requires WellFormed(table) && forall k :: 0 <= k < |formula| ==> formula[k].0 in table
      ensures Valid()
      ensures start == Start(formula, table)
      ensures this.table == table && this.prob == prob && this.mass == mass && this.cutoff == cutoff
      ensures reference == SortDesc([start] + Neighbors(start), prob)[0]
      ensures heap == Push(SortDesc([start] + Neighbors(start), prob), {}, prob, cutoff).0
      ensures used == Push(SortDesc([start] + Neighbors(start), prob), {}, prob, cutoff).1
      ensures yielded == {}
    {
      var s := Start(formula, table);
      var ns := GenNeighbors(s);
      var isos := SortDesc([s] + ns, prob);
      var h, u := PushAll(isos, {}, prob, cutoff);
      SearchStartValid(s, isos, prob, cutoff);
      this.start := s;
      this.reference := isos[0];
      this.table := table;
      this.prob := prob;
      this.mass := mass;
      this.cutoff := cutoff;
      heap := h;
      used := u;
      yielded := {};
    }

    /**
     * One step of the generator: pop the most probable entry, yield it with its
     * mass and its delta against the reference, then push each neighbour with a
     * new hash and a probability above the cutoff. None once the heap is empty.
     */
    method Next() returns (y: Option<Yield>)
      requires Valid()
      modifies this
      ensures Valid()
      ensures y.None? <==> old(heap) == []
      ensures y.None? ==> heap == old(heap) && used == old(used) && yielded == old(yielded)
      ensures y.Some? ==>
        && Comparable(y.value.coord, reference, table)
        && y.value.delta == DeltaString(y.value.coord, reference, table)
        && y.value.mass == mass(y.value.coord)
        && y.value.deltaMass == mass(y.value.coord) - mass(reference)
      ensures y.Some? ==>
        var i := Best(old(heap));
        var pushed := Push(Neighbors(old(heap)[i].coord), old(used), prob, cutoff);
        && y.value.coord == old(heap)[i].coord && y.value.nap == old(heap)[i].prob
        && heap == C.Without(old(heap), i) + pushed.0
        && used == pushed.1
        && yielded == old(yielded) + {Hash(y.value.coord)}
      ensures y.Some? ==> Hash(y.value.coord) !in old(yielded)
      ensures y.Some? ==> forall j :: 0 <= j < |old(heap)| ==> old(heap)[j].prob <= y.value.nap
      ensures y.Some? ==> y.value.nap == prob(y.value.coord) && y.value.nap > cutoff
      ensures y.Some? ==> Measure() < old(Measure())
    {
      if heap == [] {
        return None;
      }
      var i := Best(heap);
      var e := heap[i];
      var rest := C.Without(heap, i);
      InSpaceComparable(e.coord, reference, start, table);
      var delta := DeltaString(e.coord, reference, table);
      var ns := GenNeighbors(e.coord);
      var h, u := PushAll(ns, used, prob, cutoff);
      StepKeepsHeapOk(heap, used, yielded, start, prob, cutoff, i);
      StepMeasure(heap, used, start, prob, cutoff, i);
      heap := rest + h;
      used := u;
      yielded := yielded + {Hash(e.coord)};
      y := Some(Yield(e.prob, e.coord, mass(e.coord), delta, mass(e.coord) - mass(reference)));
    }
  }

  lemma InSpaceComparable(c: Coord, ref: Coord, start: Coord, table: Table)
    requires InSpace(c, start) && InSpace(ref, start) && StartShaped(start, table)
    ensures Comparable(c, ref, table)
  {
  }

  /** The facts the constructor needs about its first pushes. */
  lemma SearchStartValid(s: Coord, isos: seq<Coord>, prob: Coord -> real, cutoff: real)
    requires InSpace(s, s) && isos == SortDesc([s] + Neighbors(s), prob)
    ensures InSpace(isos[0], s)
    ensures var pushed := Push(isos, {}, prob, cutoff);
      HeapOk(pushed.0, pushed.1, {}, s, prob, cutoff)
  {
    SortDescSpec([s] + Neighbors(s), prob);
    forall k | 0 <= k < |isos| ensures InSpace(isos[k], s) {
      assert isos[k] in multiset([s] + Neighbors(s));
      if isos[k] != s {
        NeighborInSpace(s, isos[k], s);
      }
    }
    PushKeepsHeapOk([], {}, {}, s, prob, cutoff, isos);
    assert [] + Push(isos, {}, prob, cutoff).0 == Push(isos, {}, prob, cutoff).0;
  }

  /** The start is most probable-first sorted: the reference is a most probable of the start and its neighbours. */
  lemma ReferenceMostProbable(s: Coord, prob: Coord -> real)
    ensures var cands := [s] + Neighbors(s);
      var ref := SortDesc(cands, prob)[0];
      ref in cands && forall x :: x in cands ==> prob(x) <= prob(ref)
  {
    SortDescFirst([s] + Neighbors(s), prob);
  }

  /** The delta reference of the generator: the first of the start and its neighbours by descending probability. */
  function Reference(formula: seq<(string, nat)>, table: Table, prob: Coord -> real): Coord
    requires WellFormed(table) && forall k :: 0 <= k < |formula| ==> formula[k].0 in table
  {
    var s := Start(formula, table);
    SortDesc([s] + Neighbors(s), prob)[0]
  }

  /** The generator's state before its first yield: the start and its neighbours, by descending probability, pushed. */
  function Initial(formula: seq<(string, nat)>, table: Table, prob: Coord -> real, cutoff: real): Frontier
    requires WellFormed(table) && forall k :: 0 <= k < |formula| ==> formula[k].0 in table
  {
    var s := Start(formula, table);
    var pushed := Push(SortDesc([s] + Neighbors(s), prob), {}, prob, cutoff);
    Frontier(pushed.0, pushed.1)
  }

  // ---------------------------------------------------------------------------
  // Ion signatures (`generate_ion_signature`)
  // ---------------------------------------------------------------------------

  /** One adduct from the adduct calculator: m/z, adduct name, formula string. */
  datatype Adduct = Adduct(mz: real, name: string, formula: string)

  /** One signature entry: m/z, label (the signature key), formula string, isotopologue order. */
  datatype Ion = Ion(mz: real, name: string, formula: string, order: int)

  const C13Shift: real := 1.003355

  /** The C13-only signature: every adduct with order 0, then every adduct shifted by one 13C with order 1. */
  function C13Ions(adducts: seq<Adduct>): seq<Ion>
  {
    seq(|adducts|, a requires 0 <= a < |adducts| => Ion(adducts[a].mz, adducts[a].name, adducts[a].formula, 0)) +
    seq(|adducts|, a requires 0 <= a < |adducts| =>
      Ion(adducts[a].mz + C13Shift, adducts[a].name + ",C13", adducts[a].formula + ",(C13)", 1))
  }

  /** `s[1:-1]`. */
  function Inner(s: string): string
  {
    if |s| >= 2 then s[1..|s| - 1] else ""
  }

  /** The entry of adduct `a` for the i-th isotopologue: label `name,delta;i`, or `name;i` without a delta. */
  function IonFor(a: Adduct, y: Yield, i: nat): Ion
  {
    if y.delta != "" then
      Ion(a.mz + y.deltaMass, a.name + "," + Inner(y.delta) + ";" + IntToString(i), a.formula + "," + y.delta, i)
    else
      Ion(a.mz + y.deltaMass, a.name + ";" + IntToString(i), a.formula, i)
  }

  function Block(adducts: seq<Adduct>, y: Yield, i: nat): (r: seq<Ion>)
    ensures |r| == |adducts|
  {
    seq(|adducts|, a requires 0 <= a < |adducts| => IonFor(adducts[a], y, i))
  }

  /** The entries of the isotopologues `ys`, numbered from 0, adduct-minor. */
  function Blocks(adducts: seq<Adduct>, ys: seq<Yield>): seq<Ion>
  {
    if |ys| == 0 then [] else Blocks(adducts, ys[..|ys| - 1]) + Block(adducts, ys[|ys| - 1], |ys| - 1)
  }

  predicate AllAbove(gs: seq<Yield>, cutoff: real)
  {
    forall k :: 0 <= k < |gs| ==> gs[k].nap > cutoff
  }

  /** What is returned when the generator runs dry: every adduct once with label `name;0`, all isotopologues dropped. */
  function Reset(adducts: seq<Adduct>): (r: seq<Ion>)
    ensures |r| == |adducts|
  {
    seq(|adducts|, a requires 0 <= a < |adducts| =>
      Ion(adducts[a].mz, adducts[a].name + ";0", adducts[a].formula, 0))
  }

  /**
   * `generate_ion_signature`: in C13-only mode the adducts and their 13C shifts;
   * otherwise the entries of each generated isotopologue in turn, returned at the
   * first whose NAP is not above the cutoff. A generator that runs dry first
   * discards them all in favour of the `;0` entries.
   */
  method GenerateIonSignature(adducts: seq<Adduct>, formula: seq<(string, nat)>, table: Table,
                              prob: Coord -> real, mass: Coord -> real, c13Only: bool, napCutoff: real)
    returns (r: Result<seq<Ion>>, generated: seq<Yield>)
    requires WellFormed(table)
    ensures c13Only ==> r == Ok(C13Ions(adducts)) && generated == []
    ensures !c13Only && !Known(formula, table) ==> r == Err(KeyError) && generated == []
    ensures !c13Only && Known(formula, table) ==> r.Ok?
    ensures !c13Only && r.Ok? && AllAbove(generated, napCutoff) ==> r.value == Reset(adducts)
    ensures !c13Only && !AllAbove(generated, napCutoff) ==>
      && generated[|generated| - 1].nap <= napCutoff
      && AllAbove(generated[..|generated| - 1], napCutoff)
      && r == Ok(Blocks(adducts, generated[..|generated| - 1]))
    ensures forall k :: 0 <= k < |generated| ==> generated[k].nap > 0.0 && generated[k].nap == prob(generated[k].coord)
    ensures forall i, j :: 0 <= i < j < |generated| ==> generated[i].coord != generated[j].coord
    ensures Known(formula, table) ==> AllDescribed(generated, Reference(formula, table, prob), table, mass)
    ensures !c13Only && Known(formula, table) ==>
      var f := Initial(formula, table, prob, 0.0);
      && Entries(generated) == Popped(f, prob, 0.0, |generated|)
      && (AllAbove(generated, napCutoff) ==> After(f, prob, 0.0, |generated|).heap == [])
  {
    if c13Only {
      var ions := C13Signature(adducts);
      return Ok(ions), [];
    }
    if !Known(formula, table) {
      return Err(KeyError), [];
    }
    var search := new IsotopologueSearch(formula, table, prob, mass, 0.0);
    var ions, dry;
    ions, generated, dry := Consume(search, adducts, napCutoff);
    if dry {
      ions := Reset(adducts);
    }
    r := Ok(ions);
  }

  /** A yield as the generator builds it: its mass, and its delta string and mass shift against `ref`. */
  predicate Described(y: Yield, ref: Coord, table: Table, mass: Coord -> real)
  {
    && Comparable(y.coord, ref, table)
    && y.mass == mass(y.coord)
    && y.delta == DeltaString(y.coord, ref, table)
    && y.deltaMass == mass(y.coord) - mass(ref)
  }

  predicate AllDescribed(gs: seq<Yield>, ref: Coord, table: Table, mass: Coord -> real)
  {
    forall k :: 0 <= k < |gs| ==> Described(gs[k], ref, table, mass)
  }

  /** One step of the generator, seen through what the consuming loop needs. */
  method Pull(search: IsotopologueSearch) returns (y: Option<Yield>)
    requires search.Valid()
    modifies search
    ensures search.Valid()
    ensures y.None? <==> old(search.heap) == []
    ensures y.None? ==> search.yielded == old(search.yielded)
    ensures Frontier(search.heap, search.used) ==
      Advance(Frontier(old(search.heap), old(search.used)), search.prob, search.cutoff)
    ensures y.Some? ==> Entry(y.value.nap, y.value.coord) == old(search.heap)[Best(old(search.heap))]
    ensures y.Some? ==>
      && y.value.nap == search.prob(y.value.coord) && y.value.nap > search.cutoff
      && Described(y.value, search.reference, search.table, search.mass)
      && (forall j :: 0 <= j < |old(search.heap)| ==> old(search.heap)[j].prob <= y.value.nap)
      && Hash(y.value.coord) !in old(search.yielded)
      && search.yielded == old(search.yielded) + {Hash(y.value.coord)}
      && search.Measure() < old(search.Measure())
  {
    y := search.Next();
  }

  /**
   * What the consuming loop keeps: the entries of the isotopologues taken so
   * far, all above the NAP cutoff, each a probable coordinate already yielded,
   * no two of them alike.
   */
  predicate Consumed(adducts: seq<Adduct>, ions: seq<Ion>, gs: seq<Yield>, napCutoff: real,
                     prob: Coord -> real, cutoff: real, yielded: set<string>)
  {
    && ions == Blocks(adducts, gs)
    && AllAbove(gs, napCutoff)
    && Yielded(gs, prob, cutoff, yielded)
  }

  predicate Yielded(gs: seq<Yield>, prob: Coord -> real, cutoff: real, yielded: set<string>)
  {
    && (forall k :: 0 <= k < |gs| ==> gs[k].nap > cutoff && gs[k].nap == prob(gs[k].coord))
    && (forall k :: 0 <= k < |gs| ==> Hash(gs[k].coord) in yielded)
    && (forall i, j :: 0 <= i < j < |gs| ==> Hash(gs[i].coord) != Hash(gs[j].coord))
  }

  lemma YieldedSnoc(gs: seq<Yield>, y: Yield, prob: Coord -> real, cutoff: real, yielded: set<string>)
    requires Yielded(gs, prob, cutoff, yielded)
    requires y.nap > cutoff && y.nap == prob(y.coord) && Hash(y.coord) !in yielded
    ensures Yielded(gs + [y], prob, cutoff, yielded + {Hash(y.coord)})
  {
  }

  lemma ConsumedSnoc(adducts: seq<Adduct>, ions: seq<Ion>, gs: seq<Yield>, y: Yield, napCutoff: real,
                     prob: Coord -> real, cutoff: real, yielded: set<string>)
    requires Consumed(adducts, ions, gs, napCutoff, prob, cutoff, yielded)
    requires y.nap > napCutoff && y.nap > cutoff && y.nap == prob(y.coord) && Hash(y.coord) !in yielded
    ensures Consumed(adducts, ions + Block(adducts, y, |gs|), gs + [y], napCutoff, prob, cutoff, yielded + {Hash(y.coord)})
  {
    assert (gs + [y])[..|gs|] == gs;
    YieldedSnoc(gs, y, prob, cutoff, yielded);
  }

  /**
   * How the loop ends at an isotopologue not above the NAP cutoff: the entries
   * are those of the isotopologues before it, and all of them were yielded.
   */
  predicate Stopped(adducts: seq<Adduct>, ions: seq<Ion>, gs: seq<Yield>, napCutoff: real,
                    prob: Coord -> real, cutoff: real, yielded: set<string>)
  {
    && |gs| > 0
    && gs[|gs| - 1].nap <= napCutoff
    && Consumed(adducts, ions, gs[..|gs| - 1], napCutoff, prob, cutoff, yielded - {Hash(gs[|gs| - 1].coord)})
    && Yielded(gs, prob, cutoff, yielded)
  }

  /** The isotopologue that ends the loop is yielded but adds no entries. */
  lemma ConsumedStop(adducts: seq<Adduct>, ions: seq<Ion>, gs: seq<Yield>, y: Yield, napCutoff: real,
                     prob: Coord -> real, cutoff: real, yielded: set<string>)
    requires Consumed(adducts, ions, gs, napCutoff, prob, cutoff, yielded)
    requires y.nap <= napCutoff && y.nap > cutoff && y.nap == prob(y.coord) && Hash(y.coord) !in yielded
    ensures Stopped(adducts, ions, gs + [y], napCutoff, prob, cutoff, yielded + {Hash(y.coord)})
  {
    assert (gs + [y])[..|gs|] == gs;
    assert (yielded + {Hash(y.coord)}) - {Hash(y.coord)} == yielded;
    YieldedSnoc(gs, y, prob, cutoff, yielded);
  }

  lemma DescribedSnoc(gs: seq<Yield>, y: Yield, ref: Coord, table: Table, mass: Coord -> real)
    requires AllDescribed(gs, ref, table, mass) && Described(y, ref, table, mass)
    ensures AllDescribed(gs + [y], ref, table, mass)
  {
  }

  lemma YieldedDistinct(gs: seq<Yield>, prob: Coord -> real, cutoff: real, yielded: set<string>)
    requires Yielded(gs, prob, cutoff, yielded)
    ensures forall k :: 0 <= k < |gs| ==> gs[k].nap > cutoff && gs[k].nap == prob(gs[k].coord)
    ensures forall i, j :: 0 <= i < j < |gs| ==> gs[i].coord != gs[j].coord
  {
  }

  /**
   * The loop over the generator: each isotopologue above the cutoff adds its
   * entries; the first one not above it ends the loop; `dry` when the heap ran out.
   */
  method Consume(search: IsotopologueSearch, adducts: seq<Adduct>, napCutoff: real)
    returns (ions: seq<Ion>, generated: seq<Yield>, dry: bool)
    requires search.Valid()
    modifies search
    ensures dry ==> Consumed(adducts, ions, generated, napCutoff, search.prob, search.cutoff, search.yielded)
    ensures !dry ==> Stopped(adducts, ions, generated, napCutoff, search.prob, search.cutoff, search.yielded)
    ensures AllDescribed(generated, search.reference, search.table, search.mass)
    ensures search.Valid()
    ensures dry ==> search.heap == []
    ensures Entries(generated) ==
      Popped(Frontier(old(search.heap), old(search.used)), search.prob, search.cutoff, |generated|)
    ensures Frontier(search.heap, search.used) ==
      After(Frontier(old(search.heap), old(search.used)), search.prob, search.cutoff, |generated|)
  {
    ions := [];
    generated := [];
    ghost var f0 := Frontier(search.heap, search.used);
    while true
      invariant search.Valid()
      invariant Entries(generated) == Popped(f0, search.prob, search.cutoff, |generated|)
      invariant Frontier(search.heap, search.used) == After(f0, search.prob, search.cutoff, |generated|)
      invariant Consumed(adducts, ions, generated, napCutoff, search.prob, search.cutoff, search.yielded)
      invariant AllDescribed(generated, search.reference, search.table, search.mass)
      decreases search.Measure()
    {
      ghost var before := search.yielded;
      var y := Pull(search);
      if y.None? {
        return ions, generated, true;
      }
      DescribedSnoc(generated, y.value, search.reference, search.table, search.mass);
      PoppedStep(f0, search.prob, search.cutoff, generated, y.value);
      if y.value.nap > napCutoff {
        ConsumedSnoc(adducts, ions, generated, y.value, napCutoff, search.prob, search.cutoff, before);
        ions := ions + Block(adducts, y.value, |generated|);
        generated := generated + [y.value];
      } else {
        ConsumedStop(adducts, ions, generated, y.value, napCutoff, search.prob, search.cutoff, before);
        generated := generated + [y.value];
        return ions, generated, false;
      }
    }
  }

  /** The C13-only branch: each adduct gains order 0, followed by its 13C-shifted copy with order 1. */
  method C13Signature(adducts: seq<Adduct>) returns (ions: seq<Ion>)
    ensures ions == C13Ions(adducts)
  {
    var base: seq<Ion> := [];
    var shifted: seq<Ion> := [];
    var a := 0;
    while a < |adducts|
      invariant 0 <= a <= |adducts|
      invariant base == seq(a, k requires 0 <= k < a => Ion(adducts[k].mz, adducts[k].name, adducts[k].formula, 0))
      invariant shifted == seq(a, k requires 0 <= k < a =>
        Ion(adducts[k].mz + C13Shift, adducts[k].name + ",C13", adducts[k].formula + ",(C13)", 1))
    {
      var A := adducts[a];
      base := base + [Ion(A.mz, A.name, A.formula, 0)];
      shifted := shifted + [Ion(A.mz + C13Shift, A.name + ",C13", A.formula + ",(C13)", 1)];
      a := a + 1;
    }
    ions := base + shifted;
  }

  /**
   * Every label ends in `;i` after the only ';' when the adduct name and the delta
   * hold none: the order written here is the one a ladder parser reads back.
   */
  lemma LabelOrder(a: Adduct, y: Yield, i: nat)
    requires Free(a.name, ';') && Free(y.delta, ';')
    ensures var parts := Split(IonFor(a, y, i).name, ';');
      |parts| == 2 && ParseInt(parts[1]) == Some(i)
  {
    var head := if y.delta != "" then a.name + "," + Inner(y.delta) else a.name;
    var tail := IntToString(i);
    assert IonFor(a, y, i).name == head + [';'] + tail;
    SplitPeel(head, tail, ';');
    SplitFree(tail, ';');
    IntToStringRoundTrip(i);
  }

  /** Each isotopologue contributes one entry per adduct, in order. */
  lemma {:induction false} BlocksLength(adducts: seq<Adduct>, ys: seq<Yield>)
    ensures |Blocks(adducts, ys)| == |ys| * |adducts|
  {
    if |ys| > 0 {
      BlocksLength(adducts, ys[..|ys| - 1]);
      assert (|ys| - 1) * |adducts| + |adducts| == |ys| * |adducts|;
    }
  }
}
