/** Formula algebra and consecutive-scan clustering (asarix/utils.py). */
module Utils {
  import opened Wrappers
  import opened Json

  // ---------------------------------------------------------------------------
  // sum_formula_dicts
  // ---------------------------------------------------------------------------

  /** An element-count map: element symbol to a (possibly negative) integer count. */
  type Formula = map<string, int>

  /** The count of `k` in `f`, a missing element counting as 0. */
  function Count(f: Formula, k: string): int
  {
    if k in f then f[k] else 0
  }

  /** Every element that occurs in some formula of `fs`. */
  function KeyUnion(fs: seq<Formula>): set<string>
  {
    if |fs| == 0 then {} else KeyUnion(fs[..|fs| - 1]) + fs[|fs| - 1].Keys
  }

  /** The sum over `fs` of the counts of `k`. */
  function Total(fs: seq<Formula>, k: string): int
  {
    if |fs| == 0 then 0 else Total(fs[..|fs| - 1], k) + Count(fs[|fs| - 1], k)
  }

  /** The element-wise sum of a list of formulas; an element summing to 0 is kept. */
  function FormulaSum(fs: seq<Formula>): Formula
  {
    map k | k in KeyUnion(fs) :: Total(fs, k)
  }

  predicate AllInts(ds: seq<map<string, Value>>)
  {
    forall i, k :: 0 <= i < |ds| && k in ds[i] ==> IsPyInt(ds[i][k])
  }

  function IntMap(d: map<string, Value>): Formula
    requires forall k :: k in d ==> IsPyInt(d[k])
  {
    map k | k in d :: AsInt(d[k])
  }

  function IntMaps(ds: seq<map<string, Value>>): (fs: seq<Formula>)
    requires AllInts(ds)
    ensures |fs| == |ds|
  {
    seq(|ds|, i requires 0 <= i < |ds| => IntMap(ds[i]))
  }

  function AsValues(f: Formula): map<string, Value>
  {
    map k | k in f :: Int(f[k])
  }

  /** Formulas written as dicts of Python ints. */
  function ValuesOf(fs: seq<Formula>): (ds: seq<map<string, Value>>)
    ensures |ds| == |fs|
  {
    seq(|fs|, i requires 0 <= i < |fs| => AsValues(fs[i]))
  }

  lemma AsValuesInts(fs: seq<Formula>)
    ensures AllInts(ValuesOf(fs))
    ensures IntMaps(ValuesOf(fs)) == fs
  {
    var ds := ValuesOf(fs);
    forall i | 0 <= i < |fs| ensures IntMap(ds[i]) == fs[i] {
      assert IntMap(ds[i]).Keys == fs[i].Keys;
    }
  }

  lemma {:induction false} TotalOutside(fs: seq<Formula>, k: string)
    requires k !in KeyUnion(fs)
    ensures Total(fs, k) == 0
  {
    if |fs| > 0 {
      TotalOutside(fs[..|fs| - 1], k);
    }
  }

  lemma TotalSnoc(fs: seq<Formula>, f: Formula, k: string)
    ensures Total(fs + [f], k) == Total(fs, k) + Count(f, k)
    ensures KeyUnion(fs + [f]) == KeyUnion(fs) + f.Keys
  {
    assert (fs + [f])[..|fs|] == fs;
  }

  /** `f` added into `acc` element by element. */
  function Added(acc: Formula, f: Formula): Formula
  {
    map k | k in acc.Keys + f.Keys :: Count(acc, k) + Count(f, k)
  }

  /** The sum of a longer list is the sum of the shorter one with the new formula added in. */
  lemma FormulaSumSnoc(fs: seq<Formula>, f: Formula)
    ensures FormulaSum(fs + [f]) == Added(FormulaSum(fs), f)
  {
    var l := FormulaSum(fs + [f]);
    var r := Added(FormulaSum(fs), f);
    forall k ensures Total(fs + [f], k) == Total(fs, k) + Count(f, k) && KeyUnion(fs + [f]) == KeyUnion(fs) + f.Keys {
      TotalSnoc(fs, f, k);
    }
    forall k | k in l ensures k in r && l[k] == r[k] {
      if k !in KeyUnion(fs) {
        TotalOutside(fs, k);
      }
    }
    assert l.Keys == r.Keys;
  }

  lemma IntMapsSnoc(ds: seq<map<string, Value>>, i: nat)
    requires i < |ds| && AllInts(ds[..i]) && forall k :: k in ds[i] ==> IsPyInt(ds[i][k])
    ensures AllInts(ds[..i + 1])
    ensures IntMaps(ds[..i + 1]) == IntMaps(ds[..i]) + [IntMap(ds[i])]
  {
    assert ds[..i + 1] == ds[..i] + [ds[i]];
  }

  /** One dict's counts added into `acc`; a value that is not a Python int fails the assertion. */
  method AddCounts(acc: Formula, d: map<string, Value>) returns (r: Result<Formula>)
    ensures r.Ok? <==> forall k :: k in d ==> IsPyInt(d[k])
    ensures r.Err? ==> r.error == AssertionError
    ensures r.Ok? ==> (forall k :: k in d ==> IsPyInt(d[k])) && r.value == Added(acc, IntMap(d))
  {
    var sum := acc;
    var todo := d.Keys;
    while todo != {}
      invariant todo <= d.Keys
      invariant forall k :: k in d.Keys - todo ==> IsPyInt(d[k])
      invariant sum.Keys == acc.Keys + (d.Keys - todo)
      invariant forall k :: k in sum ==> sum[k] == Count(acc, k) + (if k in d.Keys - todo then AsInt(d[k]) else 0)
      decreases todo
    {
      var key :| key in todo;
      if !IsPyInt(d[key]) {
        return Err(AssertionError);
      }
      sum := sum[key := Count(sum, key) + AsInt(d[key])];
      todo := todo - {key};
    }
    AddedAll(acc, d, sum);
    return Ok(sum);
  }

  lemma AddedAll(acc: Formula, d: map<string, Value>, sum: Formula)
    requires forall k :: k in d ==> IsPyInt(d[k])
    requires sum.Keys == acc.Keys + d.Keys
    requires forall k :: k in sum ==> sum[k] == Count(acc, k) + (if k in d.Keys then AsInt(d[k]) else 0)
    ensures sum == Added(acc, IntMap(d))
  {
    assert sum.Keys == Added(acc, IntMap(d)).Keys;
  }

  /** An element is in the sum iff some formula of the list names it, and its count then is its total. */
  lemma {:induction false} FormulaSumSpec(fs: seq<Formula>)
    ensures forall k :: k in FormulaSum(fs) <==> exists i :: 0 <= i < |fs| && k in fs[i]
    ensures forall k :: k !in FormulaSum(fs) ==> Total(fs, k) == 0
  {
    var n := |fs|;
    if n > 0 {
      var init := fs[..n - 1];
      FormulaSumSpec(init);
      forall k | k in FormulaSum(fs) ensures exists i :: 0 <= i < n && k in fs[i] {
        if k in KeyUnion(init) {
          assert k in FormulaSum(init);
          var i :| 0 <= i < n - 1 && k in init[i];
          assert k in fs[i];
        } else {
          assert k in fs[n - 1];
        }
      }
      forall k, i | 0 <= i < n && k in fs[i] ensures k in FormulaSum(fs) {
        if i < n - 1 {
          assert k in init[i];
          assert k in FormulaSum(init);
        }
      }
    }
    forall k | k !in FormulaSum(fs) ensures Total(fs, k) == 0 {
      TotalOutside(fs, k);
    }
  }

  /**
   * Sums the values of shared keys across a list of dicts. Each value must be a
   * Python int (a bool counts as one); otherwise the assertion fails.
   */
  method SumFormulaDicts(ds: seq<map<string, Value>>) returns (r: Result<Formula>)
    ensures r.Ok? <==> AllInts(ds)
    ensures r.Err? ==> r.error == AssertionError
    ensures r.Ok? ==> r.value.Keys == KeyUnion(IntMaps(ds))
    ensures r.Ok? ==> forall k :: k in r.value ==> r.value[k] == Total(IntMaps(ds), k)
  {
    var acc: Formula := map[];
    assert IntMaps(ds[..0]) == [];
    assert acc == FormulaSum(IntMaps(ds[..0]));
    var i := 0;
    while i < |ds|
      invariant 0 <= i <= |ds|
      invariant AllInts(ds[..i])
      invariant acc == FormulaSum(IntMaps(ds[..i]))
    {
      var d := ds[i];
      var added := AddCounts(acc, d);
      if added.Err? {
        var k :| k in d && !IsPyInt(d[k]);
        assert !AllInts(ds);
        return Err(AssertionError);
      }
      IntMapsSnoc(ds, i);
      FormulaSumSnoc(IntMaps(ds[..i]), IntMap(d));
      acc := added.value;
      i := i + 1;
    }
    assert ds[..i] == ds;
    FormulaSumSpec(IntMaps(ds));
    return Ok(acc);
  }

  lemma {:induction false} TotalAppend(a: seq<Formula>, b: seq<Formula>, k: string)
    ensures Total(a + b, k) == Total(a, k) + Total(b, k)
    ensures KeyUnion(a + b) == KeyUnion(a) + KeyUnion(b)
    decreases |b|
  {
    if |b| == 0 {
      assert a + b == a;
    } else {
      var b' := b[..|b| - 1];
      TotalAppend(a, b', k);
      assert a + b == (a + b') + [b[|b| - 1]];
      TotalSnoc(a + b', b[|b| - 1], k);
    }
  }

  /** Taking one formula out of the list takes exactly its counts out of the sum. */
  lemma RemoveOne(b: seq<Formula>, j: nat, k: string)
    requires j < |b|
    ensures Total(b, k) == Total(b[..j] + b[j + 1..], k) + Count(b[j], k)
    ensures KeyUnion(b) == KeyUnion(b[..j] + b[j + 1..]) + b[j].Keys
  {
    assert b == (b[..j] + [b[j]]) + b[j + 1..];
    TotalAppend(b[..j] + [b[j]], b[j + 1..], k);
    TotalSnoc(b[..j], b[j], k);
    TotalAppend(b[..j], b[j + 1..], k);
  }

  lemma {:induction false} TotalPermutation(a: seq<Formula>, b: seq<Formula>, k: string)
    requires multiset(a) == multiset(b)
    ensures Total(a, k) == Total(b, k) && KeyUnion(a) == KeyUnion(b)
    decreases |a|
  {
    if |a| == 0 {
      assert |b| == |multiset(b)| == 0;
    } else {
      var x := a[|a| - 1];
      var a' := a[..|a| - 1];
      SnocMultiset(a);
      assert x in multiset(b);
      var j :| 0 <= j < |b| && b[j] == x;
      var b' := b[..j] + b[j + 1..];
      RemovedMultiset(b, j);
      TotalPermutation(a', b', k);
      TotalSnoc(a', x, k);
      RemoveOne(b, j, k);
    }
  }

  lemma SnocMultiset(a: seq<Formula>)
    requires |a| > 0
    ensures multiset(a[..|a| - 1]) == multiset(a) - multiset{a[|a| - 1]}
    ensures a[|a| - 1] in multiset(a)
    ensures a == a[..|a| - 1] + [a[|a| - 1]]
  {
    assert a == a[..|a| - 1] + [a[|a| - 1]];
  }

  lemma RemovedMultiset(b: seq<Formula>, j: nat)
    requires j < |b|
    ensures multiset(b[..j] + b[j + 1..]) == multiset(b) - multiset{b[j]}
  {
    assert b == b[..j] + [b[j]] + b[j + 1..];
  }

  /** The sum does not depend on the order of the formulas. */
  lemma FormulaSumOrderIndependent(a: seq<Formula>, b: seq<Formula>)
    requires multiset(a) == multiset(b)
    ensures FormulaSum(a) == FormulaSum(b)
  {
    forall k ensures Total(a, k) == Total(b, k) && KeyUnion(a) == KeyUnion(b) {
      TotalPermutation(a, b, k);
    }
  }

  /** Adding the empty (identity) delta leaves a formula unchanged. */
  lemma SumWithEmpty(f: Formula)
    ensures FormulaSum([f, map[]]) == f
  {
    assert [f, map[]][..1] == [f];
    assert [f][..0] == [];
    var e: Formula := map[];
    assert KeyUnion([f]) == f.Keys;
    assert KeyUnion([f, e]) == KeyUnion([f]) + e.Keys;
    forall k | k in f ensures Total([f, map[]], k) == f[k] {
      assert Total([f], k) == f[k];
    }
  }

  // ---------------------------------------------------------------------------
  // consecutive_scans
  // ---------------------------------------------------------------------------

  /** The largest step from one scan to the next that still extends a group. */
  function Bridge(maxGap: int): int
  {
    if maxGap > 0 then maxGap + 1 else 1
  }

  predicate NonEmptyGroups(groups: seq<seq<int>>)
  {
    forall g :: g in groups ==> |g| > 0
  }

  function Last(g: seq<int>): int
    requires |g| > 0
  {
    g[|g| - 1]
  }

  /** How one further scan is absorbed into the groups built so far. */
  function Absorb(groups: seq<seq<int>>, scan: int, maxGap: int): (r: seq<seq<int>>)
    requires |groups| > 0 && NonEmptyGroups(groups)
    ensures |r| > 0 && NonEmptyGroups(r)
  {
    var g := groups[|groups| - 1];
    if scan == Last(g) then groups
    else if 1 <= scan - Last(g) <= Bridge(maxGap) then groups[..|groups| - 1] + [g + [scan]]
    else groups + [[scan]]
  }

  /** The groups formed from a non-empty scan list, before the size filter. */
  function Runs(scans: seq<int>, maxGap: int): (r: seq<seq<int>>)
    requires |scans| > 0
    ensures |r| > 0 && NonEmptyGroups(r)
  {
    if |scans| == 1 then [[scans[0]]]
    else Absorb(Runs(scans[..|scans| - 1], maxGap), scans[|scans| - 1], maxGap)
  }

  /** The groups of at least `minSize` scans, in their input order. */
  function KeepLarge(groups: seq<seq<int>>, minSize: int): (r: seq<seq<int>>)
    ensures forall g :: g in r <==> g in groups && |g| >= minSize
    ensures |r| <= |groups|
  {
    if |groups| == 0 then []
    else (if |groups[0]| >= minSize then [groups[0]] else []) + KeepLarge(groups[1..], minSize)
  }

  /** Filtering a concatenation filters each part in turn: the kept groups keep their input order. */
  lemma {:induction false} KeepLargeAppend(a: seq<seq<int>>, b: seq<seq<int>>, minSize: int)
    ensures KeepLarge(a + b, minSize) == KeepLarge(a, minSize) + KeepLarge(b, minSize)
  {
    if |a| == 0 {
      assert a + b == b;
    } else {
      assert (a + b)[1..] == a[1..] + b;
      KeepLargeAppend(a[1..], b, minSize);
    }
  }

  /** The consecutive scan sets of `scans`. */
  function ScanSets(scans: seq<int>, maxGap: int, minSize: int): seq<seq<int>>
  {
    if |scans| == 0 then [] else KeepLarge(Runs(scans, maxGap), minSize)
  }

  /**
   * Splits a scan list into groups, bridging up to `maxGap` missing scans,
   * ignoring a repeat of the previous scan, and dropping groups shorter than
   * `minGroupSize`.
   */
  method ConsecutiveScans(scans: seq<int>, maxGap: int, minGroupSize: int) returns (r: seq<seq<int>>)
    ensures r == ScanSets(scans, maxGap, minGroupSize)
    ensures forall g :: g in r ==> |g| >= minGroupSize && Steady(g, maxGap)
  {
    if |scans| == 0 {
      return [];
    }
    var groups := [[scans[0]]];
    var n := 1;
    while n < |scans|
      invariant 1 <= n <= |scans|
      invariant groups == Runs(scans[..n], maxGap)
    {
      var scan := scans[n];
      var g := groups[|groups| - 1];
      if scan == Last(g) + 1 {
        groups := groups[..|groups| - 1] + [g + [scan]];
      } else if scan == Last(g) {
      } else {
        var currentGap := 0;
        var gapFilled := false;
        while currentGap < maxGap
          invariant 0 <= currentGap
          invariant maxGap > 0 ==> currentGap <= maxGap
          invariant !gapFilled
          invariant !(Last(g) + 1 <= scan <= Last(g) + 1 + currentGap)
        {
          currentGap := currentGap + 1;
          if scan == Last(g) + 1 + currentGap {
            groups := groups[..|groups| - 1] + [g + [scan]];
            gapFilled := true;
            break;
          }
        }
        if !gapFilled {
          assert !(1 <= scan - Last(g) <= Bridge(maxGap));
          groups := groups + [[scan]];
        }
      }
      assert scans[..n + 1][..n] == scans[..n];
      n := n + 1;
    }
    assert scans[..n] == scans;
    r := KeepLarge(groups, minGroupSize);
    RunsSteady(scans, maxGap);
  }

  /** Each scan of a group exceeds the previous one by 1 to `Bridge(maxGap)`. */
  predicate Steady(g: seq<int>, maxGap: int)
  {
    forall i :: 0 < i < |g| ==> 1 <= g[i] - g[i - 1] <= Bridge(maxGap)
  }

  lemma {:induction false} RunsSteady(scans: seq<int>, maxGap: int)
    requires |scans| > 0
    ensures forall g :: g in Runs(scans, maxGap) ==> Steady(g, maxGap)
  {
    if |scans| > 1 {
      var before := Runs(scans[..|scans| - 1], maxGap);
      RunsSteady(scans[..|scans| - 1], maxGap);
      var g := before[|before| - 1];
      var scan := scans[|scans| - 1];
      if scan != Last(g) && 1 <= scan - Last(g) <= Bridge(maxGap) {
        assert g in before;
        var g' := g + [scan];
        assert Steady(g', maxGap) by {
          forall i | 0 < i < |g'| ensures 1 <= g'[i] - g'[i - 1] <= Bridge(maxGap) {
            if i < |g| { assert g'[i] == g[i] && g'[i - 1] == g[i - 1]; }
          }
        }
        forall h | h in Runs(scans, maxGap) ensures Steady(h, maxGap) {
          if h != g' {
            assert h in before[..|before| - 1];
          }
        }
      }
    }
  }

  /** Two neighbouring groups are separated by a step that could not be bridged. */
  lemma {:induction false} RunsSeparated(scans: seq<int>, maxGap: int, i: nat)
    requires |scans| > 0 && i + 1 < |Runs(scans, maxGap)|
    ensures var r := Runs(scans, maxGap);
      var step := r[i + 1][0] - Last(r[i]);
      !(0 <= step <= Bridge(maxGap))
  {
    var prefix := scans[..|scans| - 1];
    if |scans| > 1 {
      var before := Runs(prefix, maxGap);
      if i + 1 < |before| {
        RunsSeparated(prefix, maxGap, i);
        if i + 1 == |before| - 1 {
          // the last group of `before` may have grown, but its first scan is kept
          assert Runs(scans, maxGap)[i + 1][0] == before[i + 1][0];
        }
      }
    }
  }

  /** `s` with every scan that repeats its predecessor removed. */
  function DropRepeats(s: seq<int>): seq<int>
  {
    if |s| <= 1 then s
    else if s[|s| - 1] == s[|s| - 2] then DropRepeats(s[..|s| - 1])
    else DropRepeats(s[..|s| - 1]) + [s[|s| - 1]]
  }

  function Flatten(groups: seq<seq<int>>): seq<int>
  {
    if |groups| == 0 then [] else Flatten(groups[..|groups| - 1]) + groups[|groups| - 1]
  }

  lemma {:induction false} DropRepeatsLast(s: seq<int>)
    requires |s| > 0
    ensures |DropRepeats(s)| > 0 && Last(DropRepeats(s)) == s[|s| - 1]
  {
    if |s| > 1 {
      DropRepeatsLast(s[..|s| - 1]);
    }
  }

  lemma FlattenLast(groups: seq<seq<int>>)
    requires |groups| > 0 && NonEmptyGroups(groups)
    ensures |Flatten(groups)| > 0 && Last(Flatten(groups)) == Last(groups[|groups| - 1])
  {
  }

  /**
   * Read in order, the groups hold exactly the input scans with repeats of the
   * previous scan removed: nothing is invented, reordered or lost.
   */
  lemma {:induction false} RunsCoverInput(scans: seq<int>, maxGap: int)
    requires |scans| > 0
    ensures Flatten(Runs(scans, maxGap)) == DropRepeats(scans)
  {
    if |scans| == 1 {
      assert Flatten([[scans[0]]]) == Flatten([]) + [scans[0]];
    } else {
      var prefix := scans[..|scans| - 1];
      var before := Runs(prefix, maxGap);
      RunsCoverInput(prefix, maxGap);
      DropRepeatsLast(prefix);
      FlattenLast(before);
      var g := before[|before| - 1];
      var scan := scans[|scans| - 1];
      assert prefix[|prefix| - 1] == scans[|scans| - 2];
      if scan != Last(g) && 1 <= scan - Last(g) <= Bridge(maxGap) {
        var after := before[..|before| - 1] + [g + [scan]];
        assert after[..|after| - 1] == before[..|before| - 1];
        assert before == before[..|before| - 1] + [g];
        assert Flatten(before) == Flatten(before[..|before| - 1]) + g;
      } else if scan != Last(g) {
        assert (before + [[scan]])[..|before|] == before;
      }
    }
  }

  /** Every scan of a group is in the flattened groups. */
  lemma {:induction false} FlattenMember(groups: seq<seq<int>>, g: seq<int>, s: int)
    requires g in groups && s in g
    ensures s in Flatten(groups)
  {
    var n := |groups| - 1;
    if groups[n] != g {
      assert g in groups[..n];
      FlattenMember(groups[..n], g, s);
    }
  }

  /** Dropping repeats keeps only scans of the input. */
  lemma {:induction false} DropRepeatsSubset(xs: seq<int>, s: int)
    requires s in DropRepeats(xs)
    ensures s in xs
  {
    if |xs| > 1 {
      var init := xs[..|xs| - 1];
      if s in DropRepeats(init) {
        DropRepeatsSubset(init, s);
        assert s in init;
      }
    }
  }

  /** Every scan of every consecutive scan set is a scan of the input. */
  lemma ScanSetsFromInput(scans: seq<int>, maxGap: int, minSize: int)
    ensures forall g, s :: g in ScanSets(scans, maxGap, minSize) && s in g ==> s in scans
  {
    forall g, s | g in ScanSets(scans, maxGap, minSize) && s in g ensures s in scans {
      RunsCoverInput(scans, maxGap);
      FlattenMember(Runs(scans, maxGap), g, s);
      DropRepeatsSubset(scans, s);
    }
  }

  lemma AbsorbStep(g: seq<int>, scan: int, maxGap: int)
    requires |g| > 0 && scan != Last(g) && 1 <= scan - Last(g) <= Bridge(maxGap)
    ensures Absorb([g], scan, maxGap) == [g + [scan]]
  {
    assert [g][..0] == [];
  }

  lemma Example1()
    ensures ScanSets([1, 2, 3, 10], 2, 2) == [[1, 2, 3]]
  {
    assert [1, 2, 3, 10][..3] == [1, 2, 3];
    assert [1, 2, 3][..2] == [1, 2];
    assert [1, 2][..1] == [1];
    assert Runs([1], 2) == [[1]];
    AbsorbStep([1], 2, 2);
    assert [1] + [2] == [1, 2];
    assert Runs([1, 2], 2) == [[1, 2]];
    AbsorbStep([1, 2], 3, 2);
    assert [1, 2] + [3] == [1, 2, 3];
    assert Runs([1, 2, 3], 2) == [[1, 2, 3]];
    assert Runs([1, 2, 3, 10], 2) == [[1, 2, 3], [10]];
  }

  lemma Example2()
    ensures ScanSets([1, 2, 4, 5], 2, 2) == [[1, 2, 4, 5]]
  {
    assert [1, 2, 4, 5][..3] == [1, 2, 4];
    assert [1, 2, 4][..2] == [1, 2];
    assert [1, 2][..1] == [1];
    assert Runs([1], 2) == [[1]];
    AbsorbStep([1], 2, 2);
    assert [1] + [2] == [1, 2];
    assert Runs([1, 2], 2) == [[1, 2]];
    AbsorbStep([1, 2], 4, 2);
    assert [1, 2] + [4] == [1, 2, 4];
    assert Runs([1, 2, 4], 2) == [[1, 2, 4]];
    assert [1, 2, 4] + [5] == [1, 2, 4, 5];
    AbsorbStep([1, 2, 4], 5, 2);
    assert Runs([1, 2, 4, 5], 2) == [[1, 2, 4, 5]];
  }

  lemma Example3()
    ensures ScanSets([5], 2, 2) == []
  {
  }

  /** A repeated scan is absorbed without starting a new group. */
  lemma Example4()
    ensures ScanSets([7, 7, 8], 2, 2) == [[7, 8]]
  {
    assert [7, 7, 8][..2] == [7, 7];
    assert [7, 7][..1] == [7];
    assert Runs([7], 2) == [[7]];
    assert Runs([7, 7], 2) == [[7]];
    AbsorbStep([7], 8, 2);
    assert [7] + [8] == [7, 8];
    assert Runs([7, 7, 8], 2) == [[7, 8]];
  }
}
