/**
 * Scan-level scoring of one mined file: hits below the intensity cutoff are
 * dropped, signature keys are arranged into isotope ladders, every combination
 * of consecutive-scan sets along a ladder is scored by rarity, signal-to-noise
 * and correlation, the best score per (left base, apex, right base) region is
 * kept, and ladder scores are routed back to compound uuids. Spearman
 * correlation is a parameter.
 */
module ScanScore {
  import opened Wrappers
  import opened Json
  import opened Text
  import Utils
  import Grid
  import opened ScanSearch

  // ---------------------------------------------------------------------------
  // digest_signatures
  // ---------------------------------------------------------------------------

  /** The four parallel arrays kept per signature key. */
  datatype Columns = Columns(scans: seq<int>, intensities: seq<int>, masses: seq<real>, times: seq<real>)

  /** The hits whose intensity is strictly above the cutoff, in order. */
  function Kept(ps: seq<Point>, cutoff: real): seq<Point>
  {
    if |ps| == 0 then []
    else Kept(ps[..|ps| - 1], cutoff) + (if ps[|ps| - 1].intensity as real > cutoff then [ps[|ps| - 1]] else [])
  }

  function ColumnsOf(ps: seq<Point>): Columns
  {
    Columns(seq(|ps|, j requires 0 <= j < |ps| => ps[j].scan),
            seq(|ps|, j requires 0 <= j < |ps| => ps[j].intensity),
            seq(|ps|, j requires 0 <= j < |ps| => ps[j].mz),
            seq(|ps|, j requires 0 <= j < |ps| => ps[j].time))
  }

  predicate Parallel(c: Columns)
  {
    |c.scans| == |c.intensities| == |c.masses| == |c.times|
  }

  /** Zips the four arrays back into hits. */
  function Rows(c: Columns): seq<Point>
    requires Parallel(c)
  {
    seq(|c.scans|, j requires 0 <= j < |c.scans| => Point(c.scans[j], c.intensities[j], c.masses[j], c.times[j]))
  }

  /**
   * Every key keeps its four arrays, of equal length, which zip back into
   * exactly the hits above the intensity cutoff.
   */
  function Digest(hits: map<string, seq<Point>>, cutoff: real): (r: map<string, Columns>)
    ensures r.Keys == hits.Keys
    ensures forall s :: s in r ==> Parallel(r[s]) && Rows(r[s]) == Kept(hits[s], cutoff)
  {
    map s | s in hits :: ColumnsOf(Kept(hits[s], cutoff))
  }

  /** The filter keeps exactly the hits above the cutoff, in their order. */
  lemma {:induction false} KeptSpec(ps: seq<Point>, cutoff: real)
    ensures forall p :: p in Kept(ps, cutoff) <==> p in ps && p.intensity as real > cutoff
    ensures |Kept(ps, cutoff)| <= |ps|
  {
    if |ps| > 0 {
      KeptSpec(ps[..|ps| - 1], cutoff);
      assert ps == ps[..|ps| - 1] + [ps[|ps| - 1]];
    }
  }

  lemma {:induction false} KeptAppend(a: seq<Point>, b: seq<Point>, cutoff: real)
    ensures Kept(a + b, cutoff) == Kept(a, cutoff) + Kept(b, cutoff)
  {
    if |b| > 0 {
      KeptAppend(a, b[..|b| - 1], cutoff);
      assert (a + b)[..|a + b| - 1] == a + b[..|b| - 1];
    } else {
      assert a + b == a;
    }
  }

  // ---------------------------------------------------------------------------
  // topo_sort_signatures
  // ---------------------------------------------------------------------------

  /** A signature key read as a rung: its ladder key and its isotopologue order. */
  datatype Rung = Rung(ladder: string, order: int)

  /** The adduct label with its last comma-separated segment removed, when it has a comma. */
  function AdductOf(adductIso: string): string
  {
    if Free(adductIso, ',') then adductIso
    else
      var parts := Split(adductIso, ',');
      Join(",", parts[..|parts| - 1])
  }

  /**
   * `parent$adduct_iso;order`: exactly one `$`, exactly one `;` after it and an
   * integer order, or ValueError.
   */
  function ParseKey(sig: string): Result<Rung>
  {
    var parts := Split(sig, '$');
    if |parts| != 2 then Err(ValueError)
    else
      var halves := Split(parts[1], ';');
      if |halves| != 2 then Err(ValueError)
      else match ParseInt(halves[1])
        case None => Err(ValueError)
        case Some(order) => Ok(Rung(parts[0] + "_" + AdductOf(halves[0]), order))
  }

  /** `_s`: ladder keys in first-appearance order, and per ladder its order-to-key dict. */
  datatype Orders = Orders(keys: seq<string>, byOrder: map<string, map<int, string>>)

  /** Files one key under its rung; a later key for the same rung overwrites an earlier one. */
  function File(o: Orders, r: Rung, sig: string): Orders
  {
    if r.ladder in o.byOrder then Orders(o.keys, o.byOrder[r.ladder := o.byOrder[r.ladder][r.order := sig]])
    else Orders(o.keys + [r.ladder], o.byOrder[r.ladder := map[r.order := sig]])
  }

  /** The first loop: every key filed, or the error of the first key that does not parse. */
  function Collect(sigs: seq<string>): Result<Orders>
  {
    if |sigs| == 0 then Ok(Orders([], map[]))
    else match Collect(sigs[..|sigs| - 1])
      case Err(e) => Err(e)
      case Ok(o) =>
        match ParseKey(sigs[|sigs| - 1])
        case Err(e) => Err(e)
        case Ok(r) => Ok(File(o, r, sigs[|sigs| - 1]))
  }

  function Above(od: map<int, string>, i: int): set<int>
  {
    set j | j in od && j >= i
  }

  lemma AboveShrinks(od: map<int, string>, i: int)
    requires i in od
    ensures |Above(od, i + 1)| < |Above(od, i)|
  {
    assert Above(od, i) == Above(od, i + 1) + {i};
    assert i !in Above(od, i + 1);
  }

  /** The keys of orders i, i+1, ... up to the first missing order. */
  function Run(od: map<int, string>, i: int): seq<string>
    decreases |Above(od, i)|
  {
    if i in od then AboveShrinks(od, i); [od[i]] + Run(od, i + 1) else []
  }

  /** The ladders: each ladder key with its run from order 0, ladders without order 0 left out. */
  datatype Ladders = Ladders(keys: seq<string>, rungs: map<string, seq<string>>)

  function RunOf(o: Orders, k: string): seq<string>
  {
    if k in o.byOrder then Run(o.byOrder[k], 0) else []
  }

  /** The second loop over the first `n` ladder keys. */
  function Assemble(o: Orders, n: nat): Ladders
    requires n <= |o.keys|
  {
    if n == 0 then Ladders([], map[])
    else
      var l := Assemble(o, n - 1);
      var k := o.keys[n - 1];
      var run := RunOf(o, k);
      if |run| > 0 then Ladders(l.keys + [k], l.rungs[k := run]) else l
  }

  function TopoSort(sigs: seq<string>): Result<Ladders>
  {
    match Collect(sigs)
    case Err(e) => Err(e)
    case Ok(o) => Ok(Assemble(o, |o.keys|))
  }

  /** Arranges the signature keys into isotope ladders. */
  method TopoSortSignatures(sigs: seq<string>) returns (r: Result<Ladders>)
    ensures r == TopoSort(sigs)
  {
    var collected := CollectOrders(sigs);
    if collected.Err? {
      return Err(collected.error);
    }
    var ladders := AssembleLadders(collected.value);
    r := Ok(ladders);
  }

  /** The first loop: every key parsed and filed under its ladder, or the first parse error. */
  method CollectOrders(sigs: seq<string>) returns (r: Result<Orders>)
    ensures r == Collect(sigs)
  {
    var o := Orders([], map[]);
    var n := 0;
    while n < |sigs|
      invariant 0 <= n <= |sigs|
      invariant Collect(sigs[..n]) == Ok(o)
    {
      var sig := sigs[n];
      assert sigs[..n + 1][..n] == sigs[..n];
      var parsed := ParseKey(sig);
      if parsed.Err? {
        CollectStops(sigs, n + 1);
        CollectFailsOn(sigs, n + 1);
        return Err(parsed.error);
      }
      o := File(o, parsed.value, sig);
      n := n + 1;
    }
    assert sigs[..n] == sigs;
    r := Ok(o);
  }

  /** The second loop: each ladder, in first-seen order, with its run of consecutive orders from 0. */
  method AssembleLadders(o: Orders) returns (ladders: Ladders)
    ensures ladders == Assemble(o, |o.keys|)
  {
    ladders := Ladders([], map[]);
    var m := 0;
    while m < |o.keys|
      invariant 0 <= m <= |o.keys|
      invariant ladders == Assemble(o, m)
    {
      var k := o.keys[m];
      var run := LadderRun(o, k);
      if |run| > 0 {
        ladders := Ladders(ladders.keys + [k], ladders.rungs[k := run]);
      }
      m := m + 1;
    }
  }

  /** Once a prefix fails to parse, so does every longer one. */
  lemma {:induction false} CollectStops(sigs: seq<string>, n: nat)
    requires 0 < n <= |sigs| && ParseKey(sigs[n - 1]).Err? && Collect(sigs[..n - 1]).Ok?
    ensures Collect(sigs[..n]) == Err(ParseKey(sigs[n - 1]).error)
  {
    assert sigs[..n][..n - 1] == sigs[..n - 1];
  }

  /** A failing prefix fails the whole list with the same error. */
  lemma {:induction false} CollectFailsOn(sigs: seq<string>, n: nat)
    requires n <= |sigs| && Collect(sigs[..n]).Err?
    ensures Collect(sigs) == Collect(sigs[..n])
  {
    if n < |sigs| {
      var init := sigs[..|sigs| - 1];
      assert init[..n] == sigs[..n];
      CollectFailsOn(init, n);
    } else {
      assert sigs[..n] == sigs;
    }
  }

  /** The inner `while` loop: orders 0, 1, ... until one is missing. */
  method LadderRun(o: Orders, k: string) returns (run: seq<string>)
    ensures run == RunOf(o, k)
  {
    run := [];
    if k !in o.byOrder {
      return;
    }
    var od := o.byOrder[k];
    var i := 0;
    while i in od
      invariant i >= 0 && |run| == i
      invariant Run(od, 0) == run + Run(od, i)
      decreases |Above(od, i)|
    {
      AboveShrinks(od, i);
      run := run + [od[i]];
      i := i + 1;
    }
  }

  /** The last key of `sigs` that reads as rung `r`, if any: the one a repeated rung keeps. */
  function LastWith(sigs: seq<string>, r: Rung): Option<string>
  {
    if |sigs| == 0 then None
    else if ParseKey(sigs[|sigs| - 1]) == Ok(r) then Some(sigs[|sigs| - 1])
    else LastWith(sigs[..|sigs| - 1], r)
  }

  lemma LastWithSpec(sigs: seq<string>, r: Rung)
    ensures LastWith(sigs, r).Some? <==> exists j :: 0 <= j < |sigs| && ParseKey(sigs[j]) == Ok(r)
    ensures LastWith(sigs, r).Some? ==> LastWith(sigs, r).value in sigs && ParseKey(LastWith(sigs, r).value) == Ok(r)
  {
    LastWithValue(sigs, r);
    if exists j :: 0 <= j < |sigs| && ParseKey(sigs[j]) == Ok(r) {
      var j :| 0 <= j < |sigs| && ParseKey(sigs[j]) == Ok(r);
      LastWithHit(sigs, r, j);
    }
    if LastWith(sigs, r).Some? {
      var j :| 0 <= j < |sigs| && sigs[j] == LastWith(sigs, r).value;
      assert ParseKey(sigs[j]) == Ok(r);
    }
  }

  /** A key that reads as the rung is found. */
  lemma {:induction false} LastWithHit(sigs: seq<string>, r: Rung, j: nat)
    requires j < |sigs| && ParseKey(sigs[j]) == Ok(r)
    ensures LastWith(sigs, r).Some?
  {
    var n := |sigs| - 1;
    if j < n && ParseKey(sigs[n]) != Ok(r) {
      var init := sigs[..n];
      assert init[j] == sigs[j];
      LastWithHit(init, r, j);
    }
  }

  lemma {:induction false} LastWithValue(sigs: seq<string>, r: Rung)
    ensures LastWith(sigs, r).Some? ==> LastWith(sigs, r).value in sigs && ParseKey(LastWith(sigs, r).value) == Ok(r)
  {
    if |sigs| > 0 {
      var n := |sigs| - 1;
      var init := sigs[..n];
      LastWithValue(init, r);
      assert sigs == init + [sigs[n]];
    }
  }

  /** What the first loop files: under each ladder, each order's last key; the ladder keys without repeats. */
  ghost predicate Filed(sigs: seq<string>, o: Orders)
  {
    && Distinct(o.keys)
    && (forall k :: k in o.byOrder <==> k in o.keys)
    && (forall k, i :: k in o.byOrder && i in o.byOrder[k] ==> LastWith(sigs, Rung(k, i)) == Some(o.byOrder[k][i]))
    && (forall k, i :: LastWith(sigs, Rung(k, i)).Some? ==> k in o.byOrder && i in o.byOrder[k])
  }

  /** The first loop fails exactly when some key does not parse. */
  lemma CollectFails(sigs: seq<string>)
    ensures Collect(sigs).Err? <==> exists j :: 0 <= j < |sigs| && ParseKey(sigs[j]).Err?
  {
    CollectErrWitness(sigs);
    if exists j :: 0 <= j < |sigs| && ParseKey(sigs[j]).Err? {
      var j :| 0 <= j < |sigs| && ParseKey(sigs[j]).Err?;
      CollectHit(sigs, j);
    }
  }

  /** A key that does not parse fails the loop. */
  lemma {:induction false} CollectHit(sigs: seq<string>, j: nat)
    requires j < |sigs| && ParseKey(sigs[j]).Err?
    ensures Collect(sigs).Err?
  {
    var n := |sigs| - 1;
    var init := sigs[..n];
    if j < n {
      assert init[j] == sigs[j];
      CollectHit(init, j);
      assert Collect(sigs) == Err(Collect(init).error);
    } else if Collect(init).Ok? {
      assert Collect(sigs) == Err(ParseKey(sigs[n]).error);
    }
  }

  /** A failed loop met a key that does not parse. */
  lemma {:induction false} CollectErrWitness(sigs: seq<string>)
    ensures Collect(sigs).Err? ==> exists j :: 0 <= j < |sigs| && ParseKey(sigs[j]).Err?
  {
    if |sigs| > 0 {
      var n := |sigs| - 1;
      var init := sigs[..n];
      CollectErrWitness(init);
      if Collect(init).Err? {
        var j :| 0 <= j < |init| && ParseKey(init[j]).Err?;
        assert sigs[j] == init[j];
      }
    }
  }

  lemma {:induction false} CollectSpec(sigs: seq<string>)
    ensures Collect(sigs).Ok? ==> Filed(sigs, Collect(sigs).value)
  {
    if |sigs| > 0 {
      var init := sigs[..|sigs| - 1];
      var last := sigs[|sigs| - 1];
      CollectSpec(init);
      if Collect(sigs).Ok? {
        var o := Collect(init).value;
        var r := ParseKey(last).value;
        FileSpec(init, o, r, last);
      }
    }
  }

  lemma FileSpec(init: seq<string>, o: Orders, r: Rung, last: string)
    requires Filed(init, o) && ParseKey(last) == Ok(r)
    ensures Filed(init + [last], File(o, r, last))
  {
    var sigs := init + [last];
    assert sigs[..|sigs| - 1] == init;
    var o' := File(o, r, last);
    forall k, i | LastWith(sigs, Rung(k, i)).Some? ensures k in o'.byOrder && i in o'.byOrder[k] {
      if Rung(k, i) != r {
        assert LastWith(sigs, Rung(k, i)) == LastWith(init, Rung(k, i));
      }
    }
    forall k, i | k in o'.byOrder && i in o'.byOrder[k] ensures LastWith(sigs, Rung(k, i)) == Some(o'.byOrder[k][i]) {
      if Rung(k, i) != r {
        assert LastWith(sigs, Rung(k, i)) == LastWith(init, Rung(k, i));
      }
    }
    if r.ladder !in o.byOrder {
      assert Distinct(o'.keys) by {
        assert o'.keys == o.keys + [r.ladder];
      }
    }
  }

  /** The run from order i lists the keys of orders i, i+1, ... and the order just after it is missing. */
  lemma {:induction false} RunSpec(od: map<int, string>, i: int)
    ensures forall j :: i <= j < i + |Run(od, i)| ==> j in od && Run(od, i)[j - i] == od[j]
    ensures i + |Run(od, i)| !in od
    decreases |Above(od, i)|
  {
    if i in od {
      AboveShrinks(od, i);
      RunSpec(od, i + 1);
      var r := Run(od, i);
      var rest := Run(od, i + 1);
      assert r == [od[i]] + rest;
      forall j | i < j < i + |r| ensures j in od && r[j - i] == od[j] {
        assert r[j - i] == rest[j - (i + 1)];
      }
    }
  }

  /** One ladder's run, read back against the input keys. */
  lemma RunOfSpec(sigs: seq<string>, o: Orders, k: string)
    requires Filed(sigs, o)
    ensures |RunOf(o, k)| > 0 <==> LastWith(sigs, Rung(k, 0)).Some?
    ensures forall t :: 0 <= t < |RunOf(o, k)| ==> LastWith(sigs, Rung(k, t)) == Some(RunOf(o, k)[t])
    ensures |RunOf(o, k)| > 0 ==> LastWith(sigs, Rung(k, |RunOf(o, k)|)) == None
  {
    var run := RunOf(o, k);
    if k in o.byOrder {
      var od := o.byOrder[k];
      RunSpec(od, 0);
      assert run == Run(od, 0);
      assert |run| > 0 <==> 0 in od;
      forall t | 0 <= t < |run| ensures LastWith(sigs, Rung(k, t)) == Some(run[t]) {
        assert t in od && run[t] == od[t];
      }
      assert |run| !in od;
    } else {
      assert run == [];
    }
  }

  /** The second loop applied to what the first one filed. */
  lemma LaddersSpec(sigs: seq<string>, o: Orders)
    requires Filed(sigs, o)
    ensures var l := Assemble(o, |o.keys|);
      && Distinct(l.keys)
      && (forall k :: k in l.rungs <==> k in l.keys)
      && (forall k :: k in l.rungs <==> LastWith(sigs, Rung(k, 0)).Some?)
      && (forall k, t :: k in l.rungs && 0 <= t < |l.rungs[k]| ==> LastWith(sigs, Rung(k, t)) == Some(l.rungs[k][t]))
      && (forall k :: k in l.rungs ==> LastWith(sigs, Rung(k, |l.rungs[k]|)) == None)
  {
    AssembleSpec(o, |o.keys|);
    assert o.keys[..|o.keys|] == o.keys;
    var l := Assemble(o, |o.keys|);
    forall k ensures k in l.rungs <==> LastWith(sigs, Rung(k, 0)).Some? {
      RunOfSpec(sigs, o, k);
    }
    forall k, t | k in l.rungs && 0 <= t < |l.rungs[k]| ensures LastWith(sigs, Rung(k, t)) == Some(l.rungs[k][t]) {
      RunOfSpec(sigs, o, k);
    }
    forall k | k in l.rungs ensures LastWith(sigs, Rung(k, |l.rungs[k]|)) == None {
      RunOfSpec(sigs, o, k);
    }
  }

  lemma {:induction false} AssembleSpec(o: Orders, n: nat)
    requires n <= |o.keys| && Distinct(o.keys)
    ensures var l := Assemble(o, n);
      && Distinct(l.keys)
      && (forall k :: k in l.rungs <==> k in l.keys)
      && (forall k :: k in l.rungs <==> k in o.keys[..n] && |RunOf(o, k)| > 0)
      && (forall k :: k in l.rungs ==> l.rungs[k] == RunOf(o, k))
  {
    if n > 0 {
      AssembleSpec(o, n - 1);
      var l0 := Assemble(o, n - 1);
      var k := o.keys[n - 1];
      assert o.keys[..n] == o.keys[..n - 1] + [k];
      assert k !in o.keys[..n - 1];
      assert k !in l0.rungs;
      if |RunOf(o, k)| > 0 {
        assert Assemble(o, n) == Ladders(l0.keys + [k], l0.rungs[k := RunOf(o, k)]);
      } else {
        assert Assemble(o, n) == l0;
      }
    }
  }

  /**
   * `topo_sort_signatures`: it fails exactly when some key does not parse.
   * Otherwise a ladder exists exactly when some key reads as its order 0; its
   * t-th entry is the last key read as order t; the ladder stops at the first
   * missing order; the ladder keys have no repeats.
   */
  lemma TopoSortSpec(sigs: seq<string>)
    ensures TopoSort(sigs).Err? <==> exists j :: 0 <= j < |sigs| && ParseKey(sigs[j]).Err?
    ensures TopoSort(sigs).Ok? ==>
      var l := TopoSort(sigs).value;
      && Distinct(l.keys)
      && (forall k :: k in l.rungs <==> k in l.keys)
      && (forall k :: k in l.rungs <==> LastWith(sigs, Rung(k, 0)).Some?)
      && (forall k, t :: k in l.rungs && 0 <= t < |l.rungs[k]| ==> LastWith(sigs, Rung(k, t)) == Some(l.rungs[k][t]))
      && (forall k :: k in l.rungs ==> LastWith(sigs, Rung(k, |l.rungs[k]|)) == None)
  {
    CollectFails(sigs);
    if Collect(sigs).Ok? {
      CollectSpec(sigs);
      LaddersSpec(sigs, Collect(sigs).value);
    }
  }

  /** Every key on a ladder is one of the input keys. */
  lemma LadderKeysFromInput(sigs: seq<string>)
    requires TopoSort(sigs).Ok?
    ensures var l := TopoSort(sigs).value;
      forall k, t :: k in l.rungs && 0 <= t < |l.rungs[k]| ==> l.rungs[k][t] in sigs
  {
    TopoSortSpec(sigs);
    var l := TopoSort(sigs).value;
    forall k, t | k in l.rungs && 0 <= t < |l.rungs[k]| ensures l.rungs[k][t] in sigs {
      LastWithSpec(sigs, Rung(k, t));
    }
  }

  // ---------------------------------------------------------------------------
  // Signature labels and their ladders
  // ---------------------------------------------------------------------------

  lemma DigitsFree(i: int, c: char)
    requires c != '-' && !IsDigit(c)
    ensures Free(IntToString(i), c)
  {
  }

  /**
   * A label `parent$adduct,inner;i` (the `adduct,delta;i` form of an ion
   * signature under its compound) reads as order `i` on the ladder
   * `parent_AdductOf(adduct,inner)`; that ladder is `parent_adduct` exactly when
   * the delta part has no comma, so a delta naming two isotopes lands on a ladder
   * of its own.
   */
  lemma LabelLadder(parent: string, adduct: string, inner: string, i: int)
    requires Free(parent, '$') && Free(adduct, '$') && Free(inner, '$')
    requires Free(adduct, ';') && Free(inner, ';') && Free(adduct, ',')
    ensures ParseKey(parent + "$" + adduct + "," + inner + ";" + IntToString(i)) ==
      Ok(Rung(parent + "_" + AdductOf(adduct + "," + inner), i))
    ensures AdductOf(adduct + "," + inner) == adduct <==> Free(inner, ',')
  {
    var iso := adduct + "," + inner;
    assert Free(iso, '$') && Free(iso, ';');
    assert parent + "$" + adduct + "," + inner + ";" + IntToString(i) == parent + "$" + iso + ";" + IntToString(i);
    LabelParse(parent, iso, i);
    LabelAdduct(adduct, inner);
  }

  lemma LabelParse(parent: string, iso: string, i: int)
    requires Free(parent, '$') && Free(iso, '$') && Free(iso, ';')
    ensures ParseKey(parent + "$" + iso + ";" + IntToString(i)) == Ok(Rung(parent + "_" + AdductOf(iso), i))
  {
    var digits := IntToString(i);
    DigitsFree(i, '$');
    DigitsFree(i, ';');
    var rest := iso + ";" + digits;
    assert Free(rest, '$');
    assert parent + "$" + iso + ";" + digits == parent + ['$'] + rest;
    SplitPeel(parent, rest, '$');
    SplitFree(rest, '$');
    assert Split(parent + ['$'] + rest, '$') == [parent, rest];
    assert rest == iso + [';'] + digits;
    SplitPeel(iso, digits, ';');
    SplitFree(digits, ';');
    IntToStringRoundTrip(i);
  }

  lemma LabelAdduct(adduct: string, inner: string)
    requires Free(adduct, ',')
    ensures AdductOf(adduct + "," + inner) == adduct <==> Free(inner, ',')
  {
    var iso := adduct + "," + inner;
    assert iso == adduct + [','] + inner;
    SplitPeel(adduct, inner, ',');
    var parts := Split(iso, ',');
    assert parts == [adduct] + Split(inner, ',');
    assert !Free(iso, ',') by {
      assert iso[|adduct|] == ',';
    }
    if Free(inner, ',') {
      SplitFree(inner, ',');
      assert parts[..|parts| - 1] == [adduct];
    } else {
      SplitLengthAtLeastTwo(inner, ',');
      var tail := Split(inner, ',');
      assert parts[..|parts| - 1] == [adduct] + tail[..|tail| - 1];
      assert |Join(",", parts[..|parts| - 1])| > |adduct|;
    }
  }

  /** A string holding the separator splits into at least two parts. */
  lemma {:induction false} SplitLengthAtLeastTwo(s: string, c: char)
    requires !Free(s, c)
    ensures |Split(s, c)| >= 2
  {
    SplitLength(s, c);
    CountCharPositive(s, c);
  }

  lemma {:induction false} CountCharPositive(s: string, c: char)
    requires !Free(s, c)
    ensures CountChar(s, c) > 0
  {
    if s[0] != c {
      assert !Free(s[1..], c) by {
        var i :| 0 <= i < |s| && s[i] == c;
        assert s[1..][i - 1] == c;
      }
      CountCharPositive(s[1..], c);
    }
  }

  // ---------------------------------------------------------------------------
  // cluster_prob and cluster_snr
  // ---------------------------------------------------------------------------

  /** No factor k < m has a zero denominator `max_scans - 1 - k`, that is, `max_scans - 1` is not among 0 .. m-1. */
  predicate Divides(m: nat, maxScans: int)
  {
    maxScans < 1 || maxScans > m
  }

  function Ratio(k: nat, total: int, maxScans: int): real
    requires maxScans - 1 - k != 0
  {
    (total - 1 - k) as real / (maxScans - 1 - k) as real
  }

  function Ratios(m: nat, total: int, maxScans: int): (r: seq<real>)
    requires Divides(m, maxScans)
    ensures |r| == m && forall k :: 0 <= k < m ==> maxScans - 1 - k != 0 && r[k] == Ratio(k, total, maxScans)
  {
    seq(m, k requires 0 <= k < m => Ratio(k, total, maxScans))
  }

  /** `np.product`: 1 for the empty list. */
  function Product(s: seq<real>): real
  {
    if |s| == 0 then 1.0 else Product(s[..|s| - 1]) * s[|s| - 1]
  }

  function Tail(cluster: seq<int>): nat
  {
    if |cluster| > 0 then |cluster| - 1 else 0
  }

  /** The rarity of a scan cluster: the product of its ratios, or ZeroDivisionError. */
  function ClusterProbOf(cluster: seq<int>, total: int, maxScans: int): Result<real>
  {
    if Divides(Tail(cluster), maxScans) then Ok(Product(Ratios(Tail(cluster), total, maxScans)))
    else Err(ZeroDivisionError)
  }

  /** `cluster_prob`: one ratio per scan after the first, then their product. */
  method ClusterProb(cluster: seq<int>, total: int, maxScans: int) returns (r: Result<real>)
    ensures r == ClusterProbOf(cluster, total, maxScans)
  {
    var probs: seq<real> := [];
    var k := 0;
    while k < Tail(cluster)
      invariant 0 <= k <= Tail(cluster)
      invariant Divides(k, maxScans)
      invariant probs == Ratios(k, total, maxScans)
    {
      var numerator := total - 1 - k;
      var denominator := maxScans - 1 - k;
      if denominator == 0 {
        return Err(ZeroDivisionError);
      }
      assert Ratios(k + 1, total, maxScans) == Ratios(k, total, maxScans) + [Ratio(k, total, maxScans)];
      probs := probs + [numerator as real / denominator as real];
      k := k + 1;
    }
    r := Ok(Product(probs));
  }

  /** A cluster of at most one scan has rarity 1. */
  lemma ClusterProbSingle(cluster: seq<int>, total: int, maxScans: int)
    requires |cluster| <= 1
    ensures ClusterProbOf(cluster, total, maxScans) == Ok(1.0)
  {
  }

  /** The division fails exactly when `max_scans - 1` is among the factor indices. */
  lemma ClusterProbFails(cluster: seq<int>, total: int, maxScans: int)
    ensures ClusterProbOf(cluster, total, maxScans).Err? <==> 1 <= maxScans <= Tail(cluster)
  {
    if 1 <= maxScans <= Tail(cluster) {
      assert maxScans - 1 - (maxScans - 1) == 0;
    }
  }

  lemma {:induction false} ProductBounds(s: seq<real>)
    requires forall k :: 0 <= k < |s| ==> 0.0 < s[k] <= 1.0
    ensures 0.0 < Product(s) <= 1.0
  {
    if |s| > 0 {
      ProductBounds(s[..|s| - 1]);
      var p := Product(s[..|s| - 1]);
      var x := s[|s| - 1];
      assert p * x <= p by {
        assert p * (1.0 - x) >= 0.0;
      }
      assert p * x > 0.0;
    }
  }

  /**
   * For a cluster no longer than the key's total hit count, itself at most the
   * number of scans, the rarity lies in (0, 1].
   */
  lemma ClusterProbBounds(cluster: seq<int>, total: int, maxScans: int)
    requires 0 < |cluster| <= total <= maxScans
    ensures ClusterProbOf(cluster, total, maxScans).Ok?
    ensures 0.0 < ClusterProbOf(cluster, total, maxScans).value <= 1.0
  {
    var m := Tail(cluster);
    var rs := Ratios(m, total, maxScans);
    forall k | 0 <= k < m ensures 0.0 < rs[k] <= 1.0 {
      var num := (total - 1 - k) as real;
      var den := (maxScans - 1 - k) as real;
      assert 0.0 < num <= den;
      assert num / den <= den / den;
    }
    ProductBounds(rs);
  }

  function MaxOf(xs: seq<int>): (m: int)
    requires |xs| > 0
    ensures m in xs && forall k :: 0 <= k < |xs| ==> xs[k] <= m
  {
    if |xs| == 1 then xs[0]
    else
      var m := MaxOf(xs[..|xs| - 1]);
      assert xs[..|xs| - 1][0] in xs;
      if xs[|xs| - 1] > m then xs[|xs| - 1] else m
  }

  function MinOf(xs: seq<int>): (m: int)
    requires |xs| > 0
    ensures m in xs && forall k :: 0 <= k < |xs| ==> m <= xs[k]
  {
    if |xs| == 1 then xs[0]
    else
      var m := MinOf(xs[..|xs| - 1]);
      assert xs[..|xs| - 1][0] in xs;
      if xs[|xs| - 1] < m then xs[|xs| - 1] else m
  }

  /**
   * `cluster_snr` with its default modes: some intensity exceeds the smallest
   * one times the cutoff; an empty list raises ValueError.
   */
  function ClusterSnr(intensities: seq<int>, snrCutoff: real): (r: Result<bool>)
    ensures r.Err? <==> |intensities| == 0
  {
    if |intensities| == 0 then Err(ValueError)
    else Ok(MaxOf(intensities) as real > Floor(intensities, snrCutoff))
  }

  /** The noise floor: the smallest intensity times the cutoff. */
  function Floor(intensities: seq<int>, snrCutoff: real): real
    requires |intensities| > 0
  {
    MinOf(intensities) as real * snrCutoff
  }

  /** The test passes exactly when some intensity, not only the largest, is above the noise floor. */
  lemma ClusterSnrSpec(intensities: seq<int>, snrCutoff: real)
    requires |intensities| > 0
    ensures ClusterSnr(intensities, snrCutoff) == Ok(true) <==>
      exists k :: 0 <= k < |intensities| && intensities[k] as real > Floor(intensities, snrCutoff)
  {
    MaxExceeds(intensities, Floor(intensities, snrCutoff));
  }

  lemma MaxExceeds(xs: seq<int>, lo: real)
    requires |xs| > 0
    ensures MaxOf(xs) as real > lo <==> exists k :: 0 <= k < |xs| && xs[k] as real > lo
  {
    var hi := MaxOf(xs);
    if exists k :: 0 <= k < |xs| && xs[k] as real > lo {
      var k :| 0 <= k < |xs| && xs[k] as real > lo;
      assert xs[k] as real <= hi as real;
    }
    if hi as real > lo {
      var k :| 0 <= k < |xs| && xs[k] == hi;
    }
  }

  // ---------------------------------------------------------------------------
  // score_signature: the per-rung dicts
  // ---------------------------------------------------------------------------

  /** The scans of `keys` in order of first appearance. */
  function Firsts(keys: seq<int>): (r: seq<int>)
    ensures Distinct(r)
    ensures forall k :: k in r <==> k in keys
  {
    if |keys| == 0 then []
    else
      var init := keys[..|keys| - 1];
      var k := keys[|keys| - 1];
      assert keys == init + [k];
      var r := Firsts(init);
      if k in r then r else r + [k]
  }

  /** Scan to value, the value of a repeated scan's last occurrence winning. */
  function Lasts<V>(keys: seq<int>, vals: seq<V>): map<int, V>
    requires |keys| == |vals|
  {
    if |keys| == 0 then map[]
    else Lasts(keys[..|keys| - 1], vals[..|vals| - 1])[keys[|keys| - 1] := vals[|vals| - 1]]
  }

  /** A Python dict keyed by scan number: its keys in insertion order and its entries. */
  datatype ScanDict<V> = ScanDict(keys: seq<int>, vals: map<int, V>)

  predicate Wf<V>(d: ScanDict<V>)
  {
    && Distinct(d.keys)
    && (forall i :: 0 <= i < |d.keys| ==> d.keys[i] in d.vals)
    && (forall k :: k in d.vals ==> k in d.keys)
  }

  /** `dict(zip(keys, vals))` for two lists of one length. */
  function Zip<V>(keys: seq<int>, vals: seq<V>): ScanDict<V>
    requires |keys| == |vals|
  {
    ScanDict(Firsts(keys), Lasts(keys, vals))
  }

  lemma {:induction false} LastsKeys<V>(keys: seq<int>, vals: seq<V>)
    requires |keys| == |vals|
    ensures forall k :: k in Lasts(keys, vals) <==> k in keys
  {
    if |keys| > 0 {
      var n := |keys| - 1;
      LastsKeys(keys[..n], vals[..n]);
      assert keys == keys[..n] + [keys[n]];
    }
  }

  lemma {:induction false} LastsLastWins<V>(keys: seq<int>, vals: seq<V>, j: nat)
    requires |keys| == |vals| && j < |keys|
    requires forall i :: j < i < |keys| ==> keys[i] != keys[j]
    ensures keys[j] in Lasts(keys, vals) && Lasts(keys, vals)[keys[j]] == vals[j]
  {
    var n := |keys| - 1;
    if j < n {
      var ik := keys[..n];
      assert ik[j] == keys[j];
      forall i | j < i < |ik| ensures ik[i] != ik[j] {
        assert ik[i] == keys[i];
      }
      LastsLastWins(ik, vals[..n], j);
    }
  }

  /**
   * The dict holds each scan of the list once, in order of first appearance,
   * with the value paired with that scan's last occurrence.
   */
  lemma ZipSpec<V>(keys: seq<int>, vals: seq<V>)
    requires |keys| == |vals|
    ensures Wf(Zip(keys, vals))
    ensures forall k :: k in Zip(keys, vals).vals <==> k in keys
    ensures forall j :: 0 <= j < |keys| && (forall i :: j < i < |keys| ==> keys[i] != keys[j]) ==>
      Zip(keys, vals).vals[keys[j]] == vals[j]
  {
    LastsKeys(keys, vals);
    var z := Zip(keys, vals);
    forall i | 0 <= i < |z.keys| ensures z.keys[i] in z.vals {
      var k := z.keys[i];
      assert k in Firsts(keys);
      assert k in keys;
      assert k in Lasts(keys, vals);
    }
    forall j | 0 <= j < |keys| && (forall i :: j < i < |keys| ==> keys[i] != keys[j])
      ensures Zip(keys, vals).vals[keys[j]] == vals[j]
    {
      LastsLastWins(keys, vals, j);
    }
  }

  /** A dict subscript: the value, or KeyError. */
  function Lookup<V>(d: ScanDict<V>, k: int): (r: Result<V>)
    ensures r.Ok? <==> k in d.vals
    ensures r.Ok? ==> r.value == d.vals[k]
  {
    if k in d.vals then Ok(d.vals[k]) else Err(KeyError)
  }

  /** `[d[s] for s in ks]`: KeyError at the first scan missing. */
  function LookupAll<V>(d: ScanDict<V>, ks: seq<int>): (r: Result<seq<V>>)
    ensures r.Ok? <==> forall j :: 0 <= j < |ks| ==> ks[j] in d.vals
    ensures r.Ok? ==> |r.value| == |ks| && forall j :: 0 <= j < |ks| ==> r.value[j] == d.vals[ks[j]]
  {
    if |ks| == 0 then Ok([])
    else match LookupAll(d, ks[..|ks| - 1])
      case Err(e) => Err(e)
      case Ok(vs) => if ks[|ks| - 1] in d.vals then Ok(vs + [d.vals[ks[|ks| - 1]]]) else Err(KeyError)
  }

  /** What one rung of a ladder contributes: its intensity, mass and time dicts, its consecutive scan sets and its hit count. */
  datatype Layer = Layer(intensity: ScanDict<int>, mass: ScanDict<real>, time: ScanDict<real>, sets: seq<seq<int>>, count: nat)

  /** The three dicts of a rung are well formed and share their keys, and every scan of its scan sets is a key. */
  predicate Aligned(l: Layer)
  {
    && Wf(l.intensity) && Wf(l.mass) && Wf(l.time)
    && l.mass.keys == l.intensity.keys && l.time.keys == l.intensity.keys
    && forall g, s :: g in l.sets && s in g ==> s in l.intensity.vals
  }

  predicate AllAligned(layers: seq<Layer>)
  {
    forall i :: 0 <= i < |layers| ==> Aligned(layers[i])
  }

  /** A rung's dicts and scan sets (`consecutive_scans` with its defaults: gap 2, groups of 2 or more). */
  function LayerOf(c: Columns): Layer
    requires Parallel(c)
  {
    Layer(Zip(c.scans, c.intensities), Zip(c.scans, c.masses), Zip(c.scans, c.times),
          Utils.ScanSets(c.scans, 2, 2), |c.scans|)
  }

  /** A rung's three dicts are well formed, share their keys, hold exactly its scans, and cover its scan sets. */
  lemma LayerOfSpec(c: Columns)
    requires Parallel(c)
    ensures Aligned(LayerOf(c))
    ensures forall k :: k in LayerOf(c).intensity.vals <==> k in c.scans
  {
    Utils.ScanSetsFromInput(c.scans, 2, 2);
    ZipSpec(c.scans, c.intensities);
    ZipSpec(c.scans, c.masses);
    ZipSpec(c.scans, c.times);
  }

  /** Every rung is in the digest. */
  predicate Digested(isos: seq<string>, digested: map<string, Columns>)
  {
    forall j :: 0 <= j < |isos| ==> isos[j] in digested
  }

  /** One layer per rung, in rung order. */
  function LayerList(isos: seq<string>, digested: map<string, Columns>): (ls: seq<Layer>)
    requires forall s :: s in digested ==> Parallel(digested[s])
    requires Digested(isos, digested)
    ensures |ls| == |isos|
  {
    if |isos| == 0 then []
    else
      var init := isos[..|isos| - 1];
      assert forall j :: 0 <= j < |init| ==> init[j] == isos[j];
      LayerList(init, digested) + [LayerOf(digested[isos[|isos| - 1]])]
  }

  /** The first loop of `score_signature`: one layer per rung; KeyError at the first rung missing from the digest. */
  function Layers(isos: seq<string>, digested: map<string, Columns>): (r: Result<seq<Layer>>)
    requires forall s :: s in digested ==> Parallel(digested[s])
    ensures r.Ok? <==> Digested(isos, digested)
    ensures r.Ok? ==> |r.value| == |isos|
  {
    if Digested(isos, digested) then Ok(LayerList(isos, digested)) else Err(KeyError)
  }

  /** One more rung: its layer is appended. */
  lemma LayerListSnoc(isos: seq<string>, n: nat, digested: map<string, Columns>)
    requires forall s :: s in digested ==> Parallel(digested[s])
    requires n < |isos| && Digested(isos[..n], digested) && isos[n] in digested
    ensures Digested(isos[..n + 1], digested)
    ensures LayerList(isos[..n + 1], digested) == LayerList(isos[..n], digested) + [LayerOf(digested[isos[n]])]
  {
    var ext := isos[..n + 1];
    assert ext[..n] == isos[..n];
    forall j | 0 <= j < |ext| ensures ext[j] in digested {
      if j < n {
        assert ext[j] == isos[..n][j];
      }
    }
  }

  /** Every layer's dicts are well formed and share their keys. */
  lemma {:induction false} LayerListAligned(isos: seq<string>, digested: map<string, Columns>)
    requires forall s :: s in digested ==> Parallel(digested[s])
    requires Digested(isos, digested)
    ensures AllAligned(LayerList(isos, digested))
  {
    if |isos| > 0 {
      var n := |isos| - 1;
      var init := isos[..n];
      assert forall j :: 0 <= j < |init| ==> init[j] == isos[j];
      LayerListAligned(init, digested);
      LayerOfSpec(digested[isos[n]]);
      var ls := LayerList(isos, digested);
      assert ls == LayerList(init, digested) + [LayerOf(digested[isos[n]])];
      forall i | 0 <= i < |ls| ensures Aligned(ls[i]) {
        if i < n {
          assert ls[i] == LayerList(init, digested)[i];
        }
      }
    }
  }

  lemma LayersAligned(isos: seq<string>, digested: map<string, Columns>)
    requires forall s :: s in digested ==> Parallel(digested[s])
    requires Layers(isos, digested).Ok?
    ensures AllAligned(Layers(isos, digested).value)
  {
    LayerListAligned(isos, digested);
  }

  function SetsOf(layers: seq<Layer>): (r: seq<seq<seq<int>>>)
    ensures |r| == |layers| && forall i :: 0 <= i < |layers| ==> r[i] == layers[i].sets
  {
    seq(|layers|, i requires 0 <= i < |layers| => layers[i].sets)
  }

  /** `filter_empty`: the scan-set lists up to, not including, the first empty one. */
  function Leading(sets: seq<seq<seq<int>>>): (r: seq<seq<seq<int>>>)
    ensures |r| <= |sets| && r == sets[..|r|]
    ensures forall i :: 0 <= i < |r| ==> |r[i]| > 0
    ensures |r| < |sets| ==> |sets[|r|]| == 0
  {
    if |sets| == 0 || |sets[0]| == 0 then [] else [sets[0]] + Leading(sets[1..])
  }

  /** A prefix of non-empty lists that stops at the end or at an empty list is the leading part. */
  lemma {:induction false} LeadingIs(sets: seq<seq<seq<int>>>, k: nat)
    requires k <= |sets| && (forall i :: 0 <= i < k ==> |sets[i]| > 0) && (k < |sets| ==> |sets[k]| == 0)
    ensures Leading(sets) == sets[..k]
  {
    if k > 0 {
      LeadingIs(sets[1..], k - 1);
      assert sets[..k] == [sets[0]] + sets[1..][..k - 1];
    }
  }

  // ---------------------------------------------------------------------------
  // score_signature: the apex of a window
  // ---------------------------------------------------------------------------

  /** The running apex: the scan with the highest intensity so far (None while nothing beat 0) and that intensity. */
  datatype Peak = Peak(scan: Option<int>, height: int)

  /** The apex search over the dict's entries in key order: a later scan replaces the apex only when strictly higher. */
  function Apex(keys: seq<int>, vals: map<int, int>, window: seq<int>): Peak
  {
    if |keys| == 0 then Peak(None, 0)
    else
      var p := Apex(keys[..|keys| - 1], vals, window);
      var k := keys[|keys| - 1];
      if k in window && k in vals && vals[k] > p.height then Peak(Some(k), vals[k]) else p
  }

  /** A candidate for the apex: an entry of the dict whose scan lies in the window. */
  predicate InWindow(keys: seq<int>, vals: map<int, int>, window: seq<int>, j: int)
  {
    0 <= j < |keys| && keys[j] in window && keys[j] in vals
  }

  /**
   * The apex is the first window scan, in key order, with the highest
   * intensity; when no window scan has a positive intensity there is none.
   */
  lemma {:induction false} ApexSpec(keys: seq<int>, vals: map<int, int>, window: seq<int>)
    ensures var p := Apex(keys, vals, window);
      && p.height >= 0
      && (p.scan.None? <==> p.height == 0)
      && (forall j :: InWindow(keys, vals, window, j) ==> vals[keys[j]] <= p.height)
      && (p.scan.Some? ==>
            exists j :: (&& InWindow(keys, vals, window, j) && keys[j] == p.scan.value
                         && vals[keys[j]] == p.height
                         && forall i :: 0 <= i < j && InWindow(keys, vals, window, i) ==> vals[keys[i]] < p.height))
  {
    if |keys| > 0 {
      var n := |keys| - 1;
      var init := keys[..n];
      ApexSpec(init, vals, window);
      var q := Apex(init, vals, window);
      var p := Apex(keys, vals, window);
      forall j | InWindow(keys, vals, window, j) ensures vals[keys[j]] <= p.height {
        if j < n {
          assert InWindow(init, vals, window, j);
        }
      }
      if p.scan.Some? {
        if p == q {
          var j :| InWindow(init, vals, window, j) && init[j] == q.scan.value && vals[init[j]] == q.height
            && forall i :: 0 <= i < j && InWindow(init, vals, window, i) ==> vals[init[i]] < q.height;
          assert InWindow(keys, vals, window, j);
          forall i | 0 <= i < j && InWindow(keys, vals, window, i) ensures vals[keys[i]] < p.height {
            assert InWindow(init, vals, window, i);
          }
        } else {
          forall i | 0 <= i < n && InWindow(keys, vals, window, i) ensures vals[keys[i]] < p.height {
            assert InWindow(init, vals, window, i);
          }
        }
      }
    }
  }

  // ---------------------------------------------------------------------------
  // score_signature: the subscores of one combination of scan sets
  // ---------------------------------------------------------------------------

  /** A region key: the times of the window's first scan, its apex and its last scan. */
  datatype Region = Region(left: real, apex: real, right: real)

  /** `spearmanr(x, y).statistic`, with NaN already read as 0. */
  type Spearman = (seq<int>, seq<int>) -> real

  /** Everything the scoring loop reads for one combination. */
  datatype Subscores = Subscores(region: Region, width: nat, mz: real, intensities: seq<seq<int>>,
                                 probs: seq<real>, snr0: bool, corrs: seq<real>)

  /** One intensity list, one rarity and one correlation per rung. */
  predicate Shaped(s: Subscores)
  {
    |s.intensities| == |s.probs| == |s.corrs|
  }

  /** `working_intensities`: each window's intensities in its own rung; KeyError when a scan is missing. */
  function Intensities(layers: seq<Layer>, wss: seq<seq<int>>): (r: Result<seq<seq<int>>>)
    requires |wss| <= |layers|
    ensures r.Ok? ==> |r.value| == |wss|
    ensures r.Ok? ==> forall i :: 0 <= i < |wss| ==> LookupAll(layers[i].intensity, wss[i]) == Ok(r.value[i])
  {
    if forall i :: 0 <= i < |wss| ==> LookupAll(layers[i].intensity, wss[i]).Ok?
    then Ok(seq(|wss|, i requires 0 <= i < |wss| => LookupAll(layers[i].intensity, wss[i]).value))
    else Err(KeyError)
  }

  /** `working_probs`: each window's rarity against its rung's hit count; ZeroDivisionError when one fails. */
  function Probs(layers: seq<Layer>, wss: seq<seq<int>>, maxScans: int): (r: Result<seq<real>>)
    requires |wss| <= |layers|
    ensures r.Ok? <==> forall i :: 0 <= i < |wss| ==> ClusterProbOf(wss[i], layers[i].count, maxScans).Ok?
    ensures r.Ok? ==> |r.value| == |wss|
    ensures r.Ok? ==> forall i :: 0 <= i < |wss| ==> ClusterProbOf(wss[i], layers[i].count, maxScans) == Ok(r.value[i])
  {
    if forall i :: 0 <= i < |wss| ==> ClusterProbOf(wss[i], layers[i].count, maxScans).Ok?
    then Ok(seq(|wss|, i requires 0 <= i < |wss| => ClusterProbOf(wss[i], layers[i].count, maxScans).value))
    else Err(ZeroDivisionError)
  }

  /** `snr_filters`: one signal-to-noise test per rung; ValueError for an empty intensity list. */
  function Snrs(ints: seq<seq<int>>, snrCutoff: real): (r: Result<seq<bool>>)
    ensures r.Ok? <==> forall i :: 0 <= i < |ints| ==> |ints[i]| > 0
    ensures r.Ok? ==> |r.value| == |ints|
    ensures r.Ok? ==> forall i :: 0 <= i < |ints| ==> ClusterSnr(ints[i], snrCutoff) == Ok(r.value[i])
  {
    if forall i :: 0 <= i < |ints| ==> |ints[i]| > 0
    then Ok(seq(|ints|, i requires 0 <= i < |ints| => ClusterSnr(ints[i], snrCutoff).value))
    else Err(ValueError)
  }

  /** What the correlation of rung i is computed on: its intensity at each scan of rung 0's window, 0 where it has none. */
  function CorrInput(w: seq<int>, vs: seq<int>, w0: seq<int>): (r: seq<int>)
    requires |w| == |vs|
    ensures |r| == |w0|
  {
    var d := Zip(w, vs);
    seq(|w0|, j requires 0 <= j < |w0| => if w0[j] in d.vals then d.vals[w0[j]] else 0)
  }

  /** Rung 0 read against its own window (whose scans do not repeat) gives back its intensities. */
  lemma CorrInputSelf(w0: seq<int>, vs: seq<int>)
    requires |w0| == |vs| && Distinct(w0)
    ensures CorrInput(w0, vs, w0) == vs
  {
    ZipSpec(w0, vs);
  }

  function Correlations(wss: seq<seq<int>>, ints: seq<seq<int>>, spearman: Spearman): (r: seq<real>)
    requires |ints| == |wss| > 0 && forall i :: 0 <= i < |wss| ==> |ints[i]| == |wss[i]|
    ensures |r| == |wss|
  {
    seq(|wss|, i requires 0 <= i < |wss| => spearman(CorrInput(wss[i], ints[i], wss[0]), ints[0]))
  }

  function RealSum(xs: seq<real>): real
  {
    if |xs| == 0 then 0.0 else RealSum(xs[..|xs| - 1]) + xs[|xs| - 1]
  }

  /** `np.mean` of the dict's values. */
  function MeanMass(d: ScanDict<real>): real
    requires Wf(d) && |d.keys| > 0
  {
    RealSum(seq(|d.keys|, j requires 0 <= j < |d.keys| => d.vals[d.keys[j]])) / |d.keys| as real
  }

  /**
   * The setup and subscores of one combination `wss` (one window per rung):
   * the region's times, the apex, the intensities, rarities, signal-to-noise
   * tests and correlations, or the first exception the code raises.
   */
  function Evaluate(layers: seq<Layer>, wss: seq<seq<int>>, maxScans: int, snrCutoff: real, spearman: Spearman): (r: Result<Subscores>)
    requires AllAligned(layers)
    ensures r.Ok? ==> Shaped(r.value) && |r.value.probs| == |wss| > 0 && r.value.width == |wss[0]|
  {
    if |wss| == 0 || |wss| > |layers| then Err(IndexError)
    else if |wss[0]| == 0 then Err(ValueError)
    else
      var l0 := layers[0];
      var w0 := wss[0];
      var peak := Apex(l0.intensity.keys, l0.intensity.vals, w0);
      match Lookup(l0.time, MinOf(w0))
      case Err(e) => Err(e)
      case Ok(left) =>
      match Lookup(l0.time, MaxOf(w0))
      case Err(e) => Err(e)
      case Ok(right) =>
      if peak.scan.None? then Err(KeyError)
      else match Lookup(l0.time, peak.scan.value)
      case Err(e) => Err(e)
      case Ok(apex) =>
      match Intensities(layers, wss)
      case Err(e) => Err(e)
      case Ok(ints) =>
      match Probs(layers, wss, maxScans)
      case Err(e) => Err(e)
      case Ok(probs) =>
      match Snrs(ints, snrCutoff)
      case Err(e) => Err(e)
      case Ok(snrs) =>
      assert MinOf(w0) in l0.time.keys;
      Ok(Subscores(Region(left, apex, right), |w0|, MeanMass(l0.mass), ints, probs, snrs[0],
                   Correlations(wss, ints, spearman)))
  }

  // ---------------------------------------------------------------------------
  // score_signature: the score of one combination
  // ---------------------------------------------------------------------------

  /** `corr * (corr > .5)`: the correlation when above one half, otherwise 0. */
  function Mask(c: real): real
  {
    if c > 0.5 then c else 0.0
  }

  /** The sum of the first n terms `(1 - prob) * masked correlation`. */
  function Weighted(probs: seq<real>, corrs: seq<real>, n: nat): real
    requires n <= |probs| && n <= |corrs|
  {
    if n == 0 then 0.0 else Weighted(probs, corrs, n - 1) + (1.0 - probs[n - 1]) * Mask(corrs[n - 1])
  }

  function IntSum(xs: seq<int>): int
  {
    if |xs| == 0 then 0 else IntSum(xs[..|xs| - 1]) + xs[|xs| - 1]
  }

  /** The intensities of the first n rungs whose correlation is above one half, added up. */
  function Counted(ints: seq<seq<int>>, corrs: seq<real>, n: nat): int
    requires n <= |ints| && n <= |corrs|
  {
    if n == 0 then 0 else Counted(ints, corrs, n - 1) + (if corrs[n - 1] > 0.5 then IntSum(ints[n - 1]) else 0)
  }

  /** `total_score`: nothing unless rung 0 passes its signal-to-noise test. */
  function Total(s: Subscores): real
    requires Shaped(s)
  {
    if s.snr0 then Weighted(s.probs, s.corrs, |s.probs|) else 0.0
  }

  /** `integral`: likewise gated by rung 0's signal-to-noise test. */
  function Integral(s: Subscores): int
    requires Shaped(s)
  {
    if s.snr0 then Counted(s.intensities, s.corrs, |s.probs|) else 0
  }

  lemma WeighStep(score: seq<real>, probs: seq<real>, corrs: seq<real>, i: nat)
    requires i < |probs| && i < |corrs| && RealSum(score) == Weighted(probs, corrs, i)
    ensures RealSum(score + [(1.0 - probs[i]) * Mask(corrs[i])]) == Weighted(probs, corrs, i + 1)
  {
    assert (score + [(1.0 - probs[i]) * Mask(corrs[i])])[..|score|] == score;
  }

  /** The loop that builds the score list and the integral. */
  method Weigh(s: Subscores) returns (total: real, integral: int)
    requires Shaped(s)
    ensures total == Total(s) && integral == Integral(s)
  {
    var score: seq<real> := [];
    integral := 0;
    if s.snr0 {
      for i := 0 to |s.probs|
        invariant |score| == i
        invariant RealSum(score) == Weighted(s.probs, s.corrs, i)
        invariant integral == Counted(s.intensities, s.corrs, i)
      {
        var corr := Mask(s.corrs[i]);
        WeighStep(score, s.probs, s.corrs, i);
        score := score + [(1.0 - s.probs[i]) * corr];
        if corr != 0.0 {
          integral := integral + IntSum(s.intensities[i]);
        }
      }
    }
    total := RealSum(score);
  }

  /**
   * A combination scores above 0 only when rung 0 passes its signal-to-noise
   * test and some rung correlates above one half with a rarity below 1.
   */
  lemma TotalPositive(s: Subscores)
    requires Shaped(s) && Total(s) > 0.0
    ensures s.snr0
    ensures exists i :: 0 <= i < |s.probs| && s.corrs[i] > 0.5 && s.probs[i] < 1.0
  {
    WeightedPositive(s.probs, s.corrs, |s.probs|);
  }

  lemma {:induction false} WeightedPositive(probs: seq<real>, corrs: seq<real>, n: nat)
    requires n <= |probs| && n <= |corrs| && Weighted(probs, corrs, n) > 0.0
    ensures exists i :: 0 <= i < n && corrs[i] > 0.5 && probs[i] < 1.0
  {
    if n > 0 {
      var i := n - 1;
      if !(corrs[i] > 0.5 && probs[i] < 1.0) {
        assert (1.0 - probs[i]) * Mask(corrs[i]) <= 0.0 by {
          if corrs[i] > 0.5 {
            assert 1.0 - probs[i] <= 0.0 && corrs[i] > 0.0;
          }
        }
        WeightedPositive(probs, corrs, n - 1);
      }
    }
  }

  /** With every rarity in [0, 1] no combination scores below 0. */
  lemma {:induction false} WeightedNonNegative(probs: seq<real>, corrs: seq<real>, n: nat)
    requires n <= |probs| && n <= |corrs|
    requires forall i :: 0 <= i < n ==> 0.0 <= probs[i] <= 1.0
    ensures Weighted(probs, corrs, n) >= 0.0
  {
    if n > 0 {
      WeightedNonNegative(probs, corrs, n - 1);
      var m := Mask(corrs[n - 1]);
      assert (1.0 - probs[n - 1]) * m >= 0.0;
    }
  }

  // ---------------------------------------------------------------------------
  // score_signature: the best score per region
  // ---------------------------------------------------------------------------

  /** What a region holds: the `(0, 0)` placeholder, or the five values of its best combination. */
  datatype Slot = Unscored | Scored(total: real, scans: nat, freq: real, integral: int, mz: real)

  function TotalOf(s: Slot): real
  {
    if s.Scored? then s.total else 0.0
  }

  /** The dict of region scores: regions in insertion order and what each holds. */
  datatype Scores = Scores(order: seq<Region>, best: map<Region, Slot>)

  const NoScores := Scores([], map[])

  /** A region seen for the first time is added with the placeholder. */
  function Enroll(s: Scores, g: Region): Scores
  {
    if g in s.best then s else Scores(s.order + [g], s.best[g := Unscored])
  }

  /**
   * One combination offered to the dict: it replaces its region's values when
   * its total is strictly higher; the frequency `ion_counts[0] / max_scans`
   * then raises ZeroDivisionError when there are no scans.
   */
  function Offer(s: Scores, sub: Subscores, count0: int, maxScans: int): Result<Scores>
    requires Shaped(sub)
  {
    var e := Enroll(s, sub.region);
    if Total(sub) > TotalOf(e.best[sub.region]) then
      if maxScans == 0 then Err(ZeroDivisionError)
      else Ok(Scores(e.order, e.best[sub.region := Stored(sub, count0, maxScans)]))
    else Ok(e)
  }

  /** What a combination that beats its region leaves there: its total, window, frequency, integral and m/z. */
  function Stored(sub: Subscores, count0: int, maxScans: int): Slot
    requires Shaped(sub) && maxScans != 0
  {
    Scored(Total(sub), sub.width, count0 as real / maxScans as real, Integral(sub), sub.mz)
  }

  /** What each combination evaluates to, in `np.ndindex` order. */
  function Outcomes(layers: seq<Layer>, combos: seq<seq<seq<int>>>, maxScans: int, snrCutoff: real, spearman: Spearman): seq<Result<Subscores>>
    requires AllAligned(layers)
  {
    seq(|combos|, j requires 0 <= j < |combos| => Evaluate(layers, combos[j], maxScans, snrCutoff, spearman))
  }

  predicate AllShaped(outs: seq<Result<Subscores>>)
  {
    forall j :: 0 <= j < |outs| && outs[j].Ok? ==> Shaped(outs[j].value)
  }

  /** The combination loop over the combinations' outcomes, stopping at the first exception. */
  function ScoreAll(outs: seq<Result<Subscores>>, count0: int, maxScans: int): Result<Scores>
    requires AllShaped(outs)
  {
    if |outs| == 0 then Ok(NoScores)
    else match ScoreAll(outs[..|outs| - 1], count0, maxScans)
      case Err(e) => Err(e)
      case Ok(s) =>
        match outs[|outs| - 1]
        case Err(e) => Err(e)
        case Ok(sub) => Offer(s, sub, count0, maxScans)
  }

  /** A failure on a prefix of the combinations is the failure of the whole loop. */
  lemma {:induction false} ScoreAllFailsOn(outs: seq<Result<Subscores>>, n: nat, count0: int, maxScans: int)
    requires AllShaped(outs) && n <= |outs| && ScoreAll(outs[..n], count0, maxScans).Err?
    ensures ScoreAll(outs, count0, maxScans) == ScoreAll(outs[..n], count0, maxScans)
  {
    if n < |outs| {
      var init := outs[..|outs| - 1];
      assert init[..n] == outs[..n];
      ScoreAllFailsOn(init, n, count0, maxScans);
    } else {
      assert outs[..n] == outs;
    }
  }

  /** The dict lists each of its regions once. */
  predicate Listed(s: Scores)
  {
    Distinct(s.order) && (forall g :: g in s.best ==> g in s.order) && (forall i :: 0 <= i < |s.order| ==> s.order[i] in s.best)
  }

  /** Every combination's region is present with a total at least the combination's own. */
  ghost predicate Covers(s: Scores, subs: seq<Subscores>)
    requires forall j :: 0 <= j < |subs| ==> Shaped(subs[j])
  {
    forall j :: 0 <= j < |subs| ==> subs[j].region in s.best && Total(subs[j]) <= TotalOf(s.best[subs[j].region])
  }

  /** Every region comes from some combination. */
  ghost predicate Sourced(s: Scores, subs: seq<Subscores>)
  {
    forall g :: g in s.best ==> exists j :: 0 <= j < |subs| && subs[j].region == g
  }

  /** Combination `j` is of region `g`, and every earlier combination of `g` has a strictly lower total. */
  ghost predicate FirstBest(subs: seq<Subscores>, j: int, g: Region)
    requires 0 <= j < |subs| && forall i :: 0 <= i < |subs| ==> Shaped(subs[i])
  {
    subs[j].region == g && forall i :: 0 <= i < j && subs[i].region == g ==> Total(subs[i]) < Total(subs[j])
  }

  /**
   * Every stored slot has a positive total and holds all five values of one
   * combination of its region, the first to reach that total.
   */
  ghost predicate Attained(s: Scores, subs: seq<Subscores>, count0: int, maxScans: int)
    requires forall j :: 0 <= j < |subs| ==> Shaped(subs[j])
  {
    forall g :: g in s.best && s.best[g].Scored? ==>
      && s.best[g].total > 0.0 && maxScans != 0
      && exists j :: 0 <= j < |subs| && FirstBest(subs, j, g) && s.best[g] == Stored(subs[j], count0, maxScans)
  }

  /**
   * The dict after the combinations `subs`: regions listed once; every
   * combination's region present with a total at least its own; every region
   * some combination's; every stored slot positive and the values of the
   * first combination of its region to reach the highest total.
   */
  ghost predicate Holds(s: Scores, subs: seq<Subscores>, count0: int, maxScans: int)
  {
    && (forall j :: 0 <= j < |subs| ==> Shaped(subs[j]))
    && Listed(s) && Covers(s, subs) && Sourced(s, subs) && Attained(s, subs, count0, maxScans)
  }

  lemma EnrollListed(s: Scores, g: Region)
    requires Listed(s)
    ensures Listed(Enroll(s, g))
    ensures forall h :: h in s.best ==> h in Enroll(s, g).best && Enroll(s, g).best[h] == s.best[h]
    ensures g in Enroll(s, g).best && (g !in s.best ==> Enroll(s, g).best[g] == Unscored)
  {
  }

  lemma OfferListed(s: Scores, sub: Subscores, count0: int, maxScans: int)
    requires Listed(s) && Shaped(sub) && Offer(s, sub, count0, maxScans).Ok?
    ensures var s' := Offer(s, sub, count0, maxScans).value;
      && Listed(s')
      && sub.region in s'.best && Total(sub) <= TotalOf(s'.best[sub.region])
      && (forall h :: h in s'.best <==> h in s.best || h == sub.region)
      && (forall h :: h in s.best && h != sub.region ==> s'.best[h] == s.best[h])
      && TotalOf(s'.best[sub.region]) >= (if sub.region in s.best then TotalOf(s.best[sub.region]) else 0.0)
      && (s'.best[sub.region].Scored? ==>
            || (sub.region in s.best && s'.best[sub.region] == s.best[sub.region])
            || (maxScans != 0 && s'.best[sub.region] == Stored(sub, count0, maxScans)
                && Total(sub) > (if sub.region in s.best then TotalOf(s.best[sub.region]) else 0.0)))
  {
    EnrollListed(s, sub.region);
  }

  lemma OfferHolds(s: Scores, subs: seq<Subscores>, sub: Subscores, count0: int, maxScans: int)
    requires Holds(s, subs, count0, maxScans) && Shaped(sub) && Offer(s, sub, count0, maxScans).Ok?
    ensures Holds(Offer(s, sub, count0, maxScans).value, subs + [sub], count0, maxScans)
  {
    OfferListed(s, sub, count0, maxScans);
    var s' := Offer(s, sub, count0, maxScans).value;
    var all := subs + [sub];
    assert forall j :: 0 <= j < |subs| ==> all[j] == subs[j];
    assert all[|subs|] == sub;
    OfferCovers(s, subs, sub, s');
    OfferSourced(s, subs, sub, s');
    OfferAttained(s, subs, sub, s', count0, maxScans);
  }

  lemma OfferCovers(s: Scores, subs: seq<Subscores>, sub: Subscores, s': Scores)
    requires forall j :: 0 <= j < |subs| ==> Shaped(subs[j])
    requires Shaped(sub) && Covers(s, subs)
    requires sub.region in s'.best && Total(sub) <= TotalOf(s'.best[sub.region])
    requires forall h :: h in s.best ==> h in s'.best
    requires forall h :: h in s.best && h != sub.region ==> s'.best[h] == s.best[h]
    requires sub.region in s.best ==> TotalOf(s'.best[sub.region]) >= TotalOf(s.best[sub.region])
    ensures Covers(s', subs + [sub])
  {
    var all := subs + [sub];
    forall j | 0 <= j < |all| ensures all[j].region in s'.best && Total(all[j]) <= TotalOf(s'.best[all[j].region]) {
      if j < |subs| {
        assert all[j] == subs[j];
      }
    }
  }

  lemma OfferSourced(s: Scores, subs: seq<Subscores>, sub: Subscores, s': Scores)
    requires Sourced(s, subs)
    requires forall h :: h in s'.best ==> h in s.best || h == sub.region
    ensures Sourced(s', subs + [sub])
  {
    var all := subs + [sub];
    forall g | g in s'.best ensures exists j :: 0 <= j < |all| && all[j].region == g {
      if g == sub.region {
        assert all[|subs|].region == g;
      } else {
        var j :| 0 <= j < |subs| && subs[j].region == g;
        assert all[j].region == g;
      }
    }
  }

  lemma OfferAttained(s: Scores, subs: seq<Subscores>, sub: Subscores, s': Scores, count0: int, maxScans: int)
    requires forall j :: 0 <= j < |subs| ==> Shaped(subs[j])
    requires Shaped(sub) && Covers(s, subs) && Attained(s, subs, count0, maxScans)
    requires forall h :: h in s'.best ==> h in s.best || h == sub.region
    requires forall h :: h in s.best ==> h in s'.best
    requires forall h :: h in s.best && h != sub.region ==> s'.best[h] == s.best[h]
    requires sub.region in s'.best && s'.best[sub.region].Scored? ==>
      || (sub.region in s.best && s'.best[sub.region] == s.best[sub.region])
      || (maxScans != 0 && s'.best[sub.region] == Stored(sub, count0, maxScans)
          && Total(sub) > (if sub.region in s.best then TotalOf(s.best[sub.region]) else 0.0))
    ensures Attained(s', subs + [sub], count0, maxScans)
  {
    var all := subs + [sub];
    forall g | g in s'.best && s'.best[g].Scored?
      ensures s'.best[g].total > 0.0 && maxScans != 0
      ensures exists j :: 0 <= j < |all| && FirstBest(all, j, g) && s'.best[g] == Stored(all[j], count0, maxScans)
    {
      if g == sub.region && !(g in s.best && s'.best[g] == s.best[g]) {
        assert all[|subs|] == sub;
        forall i | 0 <= i < |subs| && all[i].region == g ensures Total(all[i]) < Total(sub) {
          assert all[i] == subs[i];
        }
        assert FirstBest(all, |subs|, g);
      } else {
        var j :| 0 <= j < |subs| && FirstBest(subs, j, g) && s.best[g] == Stored(subs[j], count0, maxScans);
        assert all[j] == subs[j];
        forall i | 0 <= i < j && all[i].region == g ensures Total(all[i]) < Total(all[j]) {
          assert all[i] == subs[i];
        }
        assert FirstBest(all, j, g);
      }
    }
  }

  /** The combination loop run over candidates already evaluated. */
  function Fold(subs: seq<Subscores>, count0: int, maxScans: int): Result<Scores>
    requires forall j :: 0 <= j < |subs| ==> Shaped(subs[j])
  {
    if |subs| == 0 then Ok(NoScores)
    else match Fold(subs[..|subs| - 1], count0, maxScans)
      case Err(e) => Err(e)
      case Ok(s) => Offer(s, subs[|subs| - 1], count0, maxScans)
  }

  lemma {:induction false} FoldHolds(subs: seq<Subscores>, count0: int, maxScans: int)
    requires forall j :: 0 <= j < |subs| ==> Shaped(subs[j])
    requires Fold(subs, count0, maxScans).Ok?
    ensures Holds(Fold(subs, count0, maxScans).value, subs, count0, maxScans)
  {
    if |subs| > 0 {
      var init := subs[..|subs| - 1];
      FoldHolds(init, count0, maxScans);
      OfferHolds(Fold(init, count0, maxScans).value, init, subs[|subs| - 1], count0, maxScans);
      assert init + [subs[|subs| - 1]] == subs;
    }
  }

  /** The candidates of all the combinations, when every one of them evaluated. */
  function Values(outs: seq<Result<Subscores>>): (subs: seq<Subscores>)
    requires forall j :: 0 <= j < |outs| ==> outs[j].Ok?
    ensures |subs| == |outs| && forall j :: 0 <= j < |outs| ==> outs[j] == Ok(subs[j])
  {
    seq(|outs|, j requires 0 <= j < |outs| => outs[j].value)
  }

  /** When the loop completes, every combination evaluated and the loop is the fold over their candidates. */
  lemma {:induction false} ScoreAllFold(outs: seq<Result<Subscores>>, count0: int, maxScans: int)
    requires AllShaped(outs) && ScoreAll(outs, count0, maxScans).Ok?
    ensures forall j :: 0 <= j < |outs| ==> outs[j].Ok?
    ensures ScoreAll(outs, count0, maxScans) == Fold(Values(outs), count0, maxScans)
  {
    if |outs| > 0 {
      var init := outs[..|outs| - 1];
      ScoreAllFold(init, count0, maxScans);
      var subs := Values(outs);
      assert subs[..|subs| - 1] == Values(init);
    }
  }

  /**
   * When the combination loop completes, every combination evaluated, and the
   * dict lists each region once, holds for every combination's region a total
   * at least that combination's, and stores in each scored region a positive
   * total with the window, frequency, integral and m/z of the first
   * combination of that region to reach it.
   */
  lemma ScoreAllSpec(outs: seq<Result<Subscores>>, count0: int, maxScans: int)
    requires AllShaped(outs) && ScoreAll(outs, count0, maxScans).Ok?
    ensures forall j :: 0 <= j < |outs| ==> outs[j].Ok?
    ensures Holds(ScoreAll(outs, count0, maxScans).value, Values(outs), count0, maxScans)
  {
    ScoreAllFold(outs, count0, maxScans);
    FoldHolds(Values(outs), count0, maxScans);
  }

  // ---------------------------------------------------------------------------
  // score_signature
  // ---------------------------------------------------------------------------

  lemma OutcomesShaped(layers: seq<Layer>, combos: seq<seq<seq<int>>>, maxScans: int, snrCutoff: real, spearman: Spearman)
    requires AllAligned(layers)
    ensures AllShaped(Outcomes(layers, combos, maxScans, snrCutoff, spearman))
  {
    var outs := Outcomes(layers, combos, maxScans, snrCutoff, spearman);
    forall j | 0 <= j < |outs| && outs[j].Ok? ensures Shaped(outs[j].value) {
      assert outs[j] == Evaluate(layers, combos[j], maxScans, snrCutoff, spearman);
    }
  }

  /**
   * `score_signature` for one ladder: the layers of its rungs, the leading
   * non-empty scan-set lists, and the combination loop over their cross
   * product; no scan sets on rung 0 give the empty dict.
   */
  function ScoreSignatureOf(signature: string, topo: Ladders, digested: map<string, Columns>,
                            maxScans: int, snrCutoff: real, spearman: Spearman): Result<Scores>
    requires forall s :: s in digested ==> Parallel(digested[s])
  {
    if signature !in topo.rungs then Err(KeyError)
    else match Layers(topo.rungs[signature], digested)
      case Err(e) => Err(e)
      case Ok(layers) =>
        var sets := Leading(SetsOf(layers));
        if |sets| == 0 then Ok(NoScores)
        else
          LayersAligned(topo.rungs[signature], digested);
          var combos := Grid.Cross(sets);
          OutcomesShaped(layers, combos, maxScans, snrCutoff, spearman);
          ScoreAll(Outcomes(layers, combos, maxScans, snrCutoff, spearman), layers[0].count, maxScans)
  }

  /** The first loop of `score_signature`: the three dicts of every rung. */
  method LayersFor(isos: seq<string>, digested: map<string, Columns>) returns (r: Result<seq<Layer>>)
    requires forall s :: s in digested ==> Parallel(digested[s])
    ensures r == Layers(isos, digested)
  {
    var layers: seq<Layer> := [];
    for n := 0 to |isos|
      invariant Digested(isos[..n], digested)
      invariant layers == LayerList(isos[..n], digested)
    {
      if isos[n] !in digested {
        return Err(KeyError);
      }
      LayerListSnoc(isos, n, digested);
      layers := layers + [LayerOf(digested[isos[n]])];
    }
    assert isos[..|isos|] == isos;
    r := Ok(layers);
  }

  /** The `filter_empty` loop: stop at the first rung without scan sets. */
  method FilterEmpty(layers: seq<Layer>) returns (sets: seq<seq<seq<int>>>)
    ensures sets == Leading(SetsOf(layers))
  {
    sets := [];
    var k := 0;
    while k < |layers|
      invariant 0 <= k <= |layers| && sets == SetsOf(layers)[..k]
      invariant forall i :: 0 <= i < k ==> |SetsOf(layers)[i]| > 0
    {
      if |layers[k].sets| == 0 {
        break;
      }
      sets := sets + [layers[k].sets];
      k := k + 1;
    }
    LeadingIs(SetsOf(layers), k);
  }

  /** One more combination: the loop so far, then its outcome offered. */
  lemma ScoreAllStep(outs: seq<Result<Subscores>>, n: nat, count0: int, maxScans: int)
    requires AllShaped(outs) && n < |outs|
    ensures ScoreAll(outs[..n], count0, maxScans).Err? ==> ScoreAll(outs[..n + 1], count0, maxScans) == ScoreAll(outs[..n], count0, maxScans)
    ensures ScoreAll(outs[..n], count0, maxScans).Ok? && outs[n].Err? ==> ScoreAll(outs[..n + 1], count0, maxScans) == Err(outs[n].error)
    ensures ScoreAll(outs[..n], count0, maxScans).Ok? && outs[n].Ok? ==>
      ScoreAll(outs[..n + 1], count0, maxScans) == Offer(ScoreAll(outs[..n], count0, maxScans).value, outs[n].value, count0, maxScans)
  {
    assert outs[..n + 1][..n] == outs[..n];
  }

  /** The body of the combination loop after the subscores: the region enrolled, then replaced when beaten. */
  method OfferCombination(scores: Scores, sub: Subscores, count0: int, maxScans: int) returns (r: Result<Scores>)
    requires Shaped(sub)
    ensures r == Offer(scores, sub, count0, maxScans)
  {
    var total, integral := Weigh(sub);
    var g := sub.region;
    var s := scores;
    if g !in s.best {
      s := Scores(s.order + [g], s.best[g := Unscored]);
    }
    if total > TotalOf(s.best[g]) {
      if maxScans == 0 {
        return Err(ZeroDivisionError);
      }
      s := Scores(s.order, s.best[g := Scored(total, sub.width, count0 as real / maxScans as real, integral, sub.mz)]);
    }
    r := Ok(s);
  }

  /** The combination loop of `score_signature`, in `np.ndindex` order. */
  method ScoreCombinations(layers: seq<Layer>, combos: seq<seq<seq<int>>>, count0: int,
                           maxScans: int, snrCutoff: real, spearman: Spearman) returns (r: Result<Scores>)
    requires AllAligned(layers)
    ensures AllShaped(Outcomes(layers, combos, maxScans, snrCutoff, spearman))
    ensures r == ScoreAll(Outcomes(layers, combos, maxScans, snrCutoff, spearman), count0, maxScans)
  {
    OutcomesShaped(layers, combos, maxScans, snrCutoff, spearman);
    ghost var outs := Outcomes(layers, combos, maxScans, snrCutoff, spearman);
    var scores := NoScores;
    for n := 0 to |combos|
      invariant ScoreAll(outs[..n], count0, maxScans) == Ok(scores)
    {
      var wss := combos[n];
      // the growth check: its `continue` only moves on to the next rung
      var i := 0;
      while i < |wss|
        invariant 0 <= i <= |wss|
      {
        if i > 0 && |wss[i]| > |wss[i - 1]| {
          i := i + 1;
          continue;
        }
        i := i + 1;
      }
      var sub := Evaluate(layers, wss, maxScans, snrCutoff, spearman);
      assert sub == outs[n];
      ScoreAllStep(outs, n, count0, maxScans);
      if sub.Err? {
        ScoreAllFailsOn(outs, n + 1, count0, maxScans);
        return Err(sub.error);
      }
      var next := OfferCombination(scores, sub.value, count0, maxScans);
      if next.Err? {
        ScoreAllFailsOn(outs, n + 1, count0, maxScans);
        return Err(next.error);
      }
      scores := next.value;
    }
    assert outs[..|combos|] == outs;
    r := Ok(scores);
  }

  method ScoreSignature(signature: string, topo: Ladders, digested: map<string, Columns>,
                        maxScans: int, snrCutoff: real, spearman: Spearman) returns (r: Result<Scores>)
    requires forall s :: s in digested ==> Parallel(digested[s])
    ensures r == ScoreSignatureOf(signature, topo, digested, maxScans, snrCutoff, spearman)
  {
    if signature !in topo.rungs {
      return Err(KeyError);
    }
    var layers := LayersFor(topo.rungs[signature], digested);
    if layers.Err? {
      return Err(layers.error);
    }
    LayersAligned(topo.rungs[signature], digested);
    var sets := FilterEmpty(layers.value);
    if |sets| == 0 {
      return Ok(NoScores);
    }
    r := ScoreCombinations(layers.value, Grid.Cross(sets), layers.value[0].count, maxScans, snrCutoff, spearman);
  }

  /**
   * Every combination of scan sets is evaluated and reflected in the result:
   * its region is present with a total at least its own. Every stored score is
   * positive.
   */
  lemma ScoreSignatureSpec(signature: string, topo: Ladders, digested: map<string, Columns>,
                           maxScans: int, snrCutoff: real, spearman: Spearman, wss: seq<seq<int>>)
    requires forall s :: s in digested ==> Parallel(digested[s])
    requires ScoreSignatureOf(signature, topo, digested, maxScans, snrCutoff, spearman).Ok?
    requires signature in topo.rungs && Layers(topo.rungs[signature], digested).Ok?
    requires |Leading(SetsOf(Layers(topo.rungs[signature], digested).value))| > 0
    requires wss in Grid.Cross(Leading(SetsOf(Layers(topo.rungs[signature], digested).value)))
    ensures var layers := Layers(topo.rungs[signature], digested).value;
      var s := ScoreSignatureOf(signature, topo, digested, maxScans, snrCutoff, spearman).value;
      && AllAligned(layers)
      && Evaluate(layers, wss, maxScans, snrCutoff, spearman).Ok?
      && var sub := Evaluate(layers, wss, maxScans, snrCutoff, spearman).value;
         sub.region in s.best && Total(sub) <= TotalOf(s.best[sub.region])
    ensures var s := ScoreSignatureOf(signature, topo, digested, maxScans, snrCutoff, spearman).value;
      Listed(s) && forall g :: g in s.best && s.best[g].Scored? ==> s.best[g].total > 0.0
  {
    var layers := Layers(topo.rungs[signature], digested).value;
    LayersAligned(topo.rungs[signature], digested);
    var sets := Leading(SetsOf(layers));
    var combos := Grid.Cross(sets);
    Grid.CrossMembers(sets, wss);
    OutcomesShaped(layers, combos, maxScans, snrCutoff, spearman);
    var outs := Outcomes(layers, combos, maxScans, snrCutoff, spearman);
    var j :| 0 <= j < |combos| && combos[j] == wss;
    assert outs[j] == Evaluate(layers, wss, maxScans, snrCutoff, spearman);
    ScoreAllCovers(outs, layers[0].count, maxScans, j);
  }

  /** The part of `ScoreAllSpec` about one combination: it evaluated, and its region holds at least its total. */
  lemma ScoreAllCovers(outs: seq<Result<Subscores>>, count0: int, maxScans: int, j: nat)
    requires AllShaped(outs) && ScoreAll(outs, count0, maxScans).Ok? && j < |outs|
    ensures outs[j].Ok?
    ensures var s := ScoreAll(outs, count0, maxScans).value;
      && outs[j].value.region in s.best && Total(outs[j].value) <= TotalOf(s.best[outs[j].value.region])
      && Listed(s) && forall g :: g in s.best && s.best[g].Scored? ==> s.best[g].total > 0.0
  {
    ScoreAllSpec(outs, count0, maxScans);
    assert Values(outs)[j] == outs[j].value;
  }

  /**
   * The growth check at scan_score.py:186-189 skips nothing: a combination
   * whose window on some rung is longer than on the rung before is scored like
   * any other.
   */
  lemma GrowthNotSkipped(signature: string, topo: Ladders, digested: map<string, Columns>,
                         maxScans: int, snrCutoff: real, spearman: Spearman, wss: seq<seq<int>>, i: int)
    requires forall s :: s in digested ==> Parallel(digested[s])
    requires ScoreSignatureOf(signature, topo, digested, maxScans, snrCutoff, spearman).Ok?
    requires signature in topo.rungs && Layers(topo.rungs[signature], digested).Ok?
    requires |Leading(SetsOf(Layers(topo.rungs[signature], digested).value))| > 0
    requires wss in Grid.Cross(Leading(SetsOf(Layers(topo.rungs[signature], digested).value)))
    requires 0 < i < |wss| && |wss[i]| > |wss[i - 1]|
    ensures var layers := Layers(topo.rungs[signature], digested).value;
      AllAligned(layers) && Evaluate(layers, wss, maxScans, snrCutoff, spearman).Ok? &&
      Evaluate(layers, wss, maxScans, snrCutoff, spearman).value.region in ScoreSignatureOf(signature, topo, digested, maxScans, snrCutoff, spearman).value.best
  {
    ScoreSignatureSpec(signature, topo, digested, maxScans, snrCutoff, spearman, wss);
  }

  // ---------------------------------------------------------------------------
  // score_signatures: the region filter and the ladder loop
  // ---------------------------------------------------------------------------

  /** One reported region: its bases, its apex and the five values stored for it. */
  datatype Feature = Feature(left: real, apex: real, right: real, score: real, scans: nat, freq: real, integral: int, mz: real)

  function FeatureOf(g: Region, v: Slot): Feature
    requires v.Scored?
  {
    Feature(g.left, g.apex, g.right, v.total, v.scans, v.freq, v.integral, v.mz)
  }

  predicate Reported(best: map<Region, Slot>, g: Region)
  {
    g in best && best[g].Scored? && best[g].total > 0.0
  }

  /** The region filter: the regions, in dict order, whose stored score is above 0. */
  function Emitted(order: seq<Region>, best: map<Region, Slot>): seq<Feature>
  {
    if |order| == 0 then []
    else
      var g := order[|order| - 1];
      Emitted(order[..|order| - 1], best) + (if Reported(best, g) then [FeatureOf(g, best[g])] else [])
  }

  /**
   * A region is reported exactly when its stored score is above 0, with its
   * stored values; the placeholders of regions never beaten are dropped.
   */
  lemma {:induction false} EmittedSpec(order: seq<Region>, best: map<Region, Slot>)
    ensures forall f :: f in Emitted(order, best) <==>
      exists g :: g in order && Reported(best, g) && f == FeatureOf(g, best[g])
    ensures |Emitted(order, best)| <= |order|
  {
    if |order| > 0 {
      var init := order[..|order| - 1];
      var g := order[|order| - 1];
      EmittedSpec(init, best);
      assert order == init + [g];
      forall f | f in Emitted(order, best) ensures exists h :: h in order && Reported(best, h) && f == FeatureOf(h, best[h]) {
        if f !in Emitted(init, best) {
          assert f == FeatureOf(g, best[g]);
        }
      }
    }
  }

  /** One ladder's entry of the `scores` dict written out. */
  datatype Ranked = Ranked(ladder: string, features: seq<Feature>)

  function Reports(s: Scores): seq<Feature>
  {
    Emitted(s.order, s.best)
  }

  /**
   * The ladder loop from ladder n on, given what scoring each ladder gives and
   * with `board` holding what the earlier ones produced: the first exception
   * ends the loop, and a ladder is entered only when some region passes the
   * filter.
   */
  function BoardFrom(keys: seq<string>, results: seq<Result<Scores>>, n: nat, board: seq<Ranked>): Result<seq<Ranked>>
    requires n <= |keys| == |results|
    decreases |keys| - n
  {
    if n == |keys| then Ok(board)
    else match results[n]
      case Err(e) => Err(e)
      case Ok(s) =>
        BoardFrom(keys, results, n + 1, if |Reports(s)| == 0 then board else board + [Ranked(keys[n], Reports(s))])
  }

  /** An exception while scoring ladder n is the outcome of the loop from n on. */
  lemma BoardFails(keys: seq<string>, results: seq<Result<Scores>>, n: nat, board: seq<Ranked>)
    requires n < |keys| == |results| && results[n].Err?
    ensures BoardFrom(keys, results, n, board) == Err(results[n].error)
  {
  }

  /**
   * When the loop completes, every ladder from n on was scored; the earlier
   * entries are kept; each new entry is a ladder with its non-empty reported
   * regions, and every ladder with reported regions is entered.
   */
  lemma {:induction false} BoardSpec(keys: seq<string>, results: seq<Result<Scores>>, n: nat, board: seq<Ranked>)
    requires n <= |keys| == |results|
    requires BoardFrom(keys, results, n, board).Ok?
    ensures forall j :: n <= j < |keys| ==> results[j].Ok?
    ensures var b := BoardFrom(keys, results, n, board).value;
      && |board| <= |b| && b[..|board|] == board
      && (forall i :: |board| <= i < |b| ==>
            exists j :: n <= j < |keys| && results[j].Ok? && b[i] == Ranked(keys[j], Reports(results[j].value)) && |b[i].features| > 0)
      && (forall j :: n <= j < |keys| && results[j].Ok? && |Reports(results[j].value)| > 0 ==>
            Ranked(keys[j], Reports(results[j].value)) in b)
    decreases |keys| - n
  {
    if n < |keys| {
      var s := results[n].value;
      var next := if |Reports(s)| == 0 then board else board + [Ranked(keys[n], Reports(s))];
      BoardSpec(keys, results, n + 1, next);
      var b := BoardFrom(keys, results, n, board).value;
      assert b == BoardFrom(keys, results, n + 1, next).value;
      assert b[..|board|] == next[..|board|];
      forall i | |board| <= i < |b|
        ensures exists j :: n <= j < |keys| && results[j].Ok? && b[i] == Ranked(keys[j], Reports(results[j].value)) && |b[i].features| > 0
      {
        if i < |next| {
          assert b[i] == next[i] == Ranked(keys[n], Reports(s));
        }
      }
      if |Reports(s)| > 0 {
        assert b[|board|] == next[|board|];
      }
    }
  }

  /** The region filter over one ladder's dict, in dict order. */
  method Filter(s: Scores) returns (fs: seq<Feature>)
    ensures fs == Reports(s)
  {
    fs := [];
    for i := 0 to |s.order|
      invariant fs == Emitted(s.order[..i], s.best)
    {
      var g := s.order[i];
      assert s.order[..i + 1][..i] == s.order[..i];
      if g in s.best && s.best[g].Scored? && s.best[g].total > 0.0 {
        fs := fs + [FeatureOf(g, s.best[g])];
      }
    }
    assert s.order[..|s.order|] == s.order;
  }

  // ---------------------------------------------------------------------------
  // consolidate_sig_scores
  // ---------------------------------------------------------------------------

  /** The signature-map key of a ladder: every `_M` becomes `$M`, then order 0 is appended. */
  function ConsolidatedKey(ladder: string): string
  {
    Replace(ladder, "_M", "$M") + ";0"
  }

  /** Each uuid of a signature credited with one region's score. */
  function Credit(acc: map<string, real>, uuids: set<string>, x: real): (r: map<string, real>)
    ensures r.Keys == acc.Keys + uuids
    ensures forall u :: u in r ==> r[u] == (if u in acc then acc[u] else 0.0) + (if u in uuids then x else 0.0)
  {
    map u | u in acc.Keys + uuids :: (if u in acc then acc[u] else 0.0) + (if u in uuids then x else 0.0)
  }

  /** The inner loops: every reported region of one ladder credited to its signature's uuids. */
  function CreditAll(acc: map<string, real>, uuids: set<string>, fs: seq<Feature>): map<string, real>
  {
    if |fs| == 0 then acc else Credit(CreditAll(acc, uuids, fs[..|fs| - 1]), uuids, fs[|fs| - 1].score)
  }

  function ScoreSum(fs: seq<Feature>): real
  {
    if |fs| == 0 then 0.0 else ScoreSum(fs[..|fs| - 1]) + fs[|fs| - 1].score
  }

  /** Every ladder with reported regions has its consolidated key in the signature map. */
  predicate Routable(board: seq<Ranked>, sigmap: map<string, set<string>>)
  {
    forall i :: 0 <= i < |board| && |board[i].features| > 0 ==> ConsolidatedKey(board[i].ladder) in sigmap
  }

  /** The `sigscores` loop: KeyError at the first ladder whose consolidated key is not in the signature map. */
  function SigScores(board: seq<Ranked>, sigmap: map<string, set<string>>): Result<map<string, real>>
  {
    if |board| == 0 then Ok(map[])
    else match SigScores(board[..|board| - 1], sigmap)
      case Err(e) => Err(e)
      case Ok(acc) =>
        var e := board[|board| - 1];
        if |e.features| == 0 then Ok(acc)
        else if ConsolidatedKey(e.ladder) !in sigmap then Err(KeyError)
        else Ok(CreditAll(acc, sigmap[ConsolidatedKey(e.ladder)], e.features))
  }

  /** A uuid is credited when some ladder with reported regions lists it. */
  predicate Credited(board: seq<Ranked>, sigmap: map<string, set<string>>, u: string)
  {
    exists i :: 0 <= i < |board| && |board[i].features| > 0 && ConsolidatedKey(board[i].ladder) in sigmap
      && u in sigmap[ConsolidatedKey(board[i].ladder)]
  }

  /** What a uuid is owed: the scores of all regions of all ladders listing it. */
  function Owed(board: seq<Ranked>, sigmap: map<string, set<string>>, u: string): real
  {
    if |board| == 0 then 0.0
    else
      var e := board[|board| - 1];
      Owed(board[..|board| - 1], sigmap, u) +
        (if |e.features| > 0 && ConsolidatedKey(e.ladder) in sigmap && u in sigmap[ConsolidatedKey(e.ladder)]
         then ScoreSum(e.features) else 0.0)
  }

  lemma {:induction false} CreditAllSpec(acc: map<string, real>, uuids: set<string>, fs: seq<Feature>)
    ensures CreditAll(acc, uuids, fs).Keys == acc.Keys + (if |fs| > 0 then uuids else {})
    ensures forall u :: u in CreditAll(acc, uuids, fs) ==>
      CreditAll(acc, uuids, fs)[u] == (if u in acc then acc[u] else 0.0) + (if u in uuids then ScoreSum(fs) else 0.0)
  {
    if |fs| > 0 {
      CreditAllSpec(acc, uuids, fs[..|fs| - 1]);
    }
  }

  /** A uuid no ladder credits is owed nothing. */
  lemma {:induction false} OwedUncredited(board: seq<Ranked>, sigmap: map<string, set<string>>, u: string)
    requires !Credited(board, sigmap, u)
    ensures Owed(board, sigmap, u) == 0.0
  {
    if |board| > 0 {
      var init := board[..|board| - 1];
      assert !Credited(init, sigmap, u) by {
        forall i | 0 <= i < |init| ensures !(|init[i].features| > 0 && ConsolidatedKey(init[i].ladder) in sigmap
            && u in sigmap[ConsolidatedKey(init[i].ladder)]) {
          assert init[i] == board[i];
        }
      }
      OwedUncredited(init, sigmap, u);
    }
  }

  /** The uuid scores fail, with KeyError, exactly when some ladder with reported regions has no entry in the signature map. */
  lemma {:induction false} SigScoresFails(board: seq<Ranked>, sigmap: map<string, set<string>>)
    ensures SigScores(board, sigmap).Ok? <==> Routable(board, sigmap)
    ensures SigScores(board, sigmap).Err? ==> SigScores(board, sigmap).error == KeyError
  {
    if |board| > 0 {
      var init := board[..|board| - 1];
      var e := board[|board| - 1];
      SigScoresFails(init, sigmap);
      if Routable(init, sigmap) && (|e.features| > 0 ==> ConsolidatedKey(e.ladder) in sigmap) {
        forall i | 0 <= i < |board| && |board[i].features| > 0 ensures ConsolidatedKey(board[i].ladder) in sigmap {
          if i < |init| {
            assert board[i] == init[i];
          }
        }
      }
      if Routable(board, sigmap) {
        forall i | 0 <= i < |init| && |init[i].features| > 0 ensures ConsolidatedKey(init[i].ladder) in sigmap {
          assert init[i] == board[i];
        }
      }
    }
  }

  /** Crediting grows one ladder at a time. */
  lemma CreditedSnoc(board: seq<Ranked>, sigmap: map<string, set<string>>, u: string)
    requires |board| > 0
    ensures var e := board[|board| - 1];
      Credited(board, sigmap, u) <==>
        Credited(board[..|board| - 1], sigmap, u) ||
        (|e.features| > 0 && ConsolidatedKey(e.ladder) in sigmap && u in sigmap[ConsolidatedKey(e.ladder)])
  {
    var init := board[..|board| - 1];
    if Credited(init, sigmap, u) {
      var i :| 0 <= i < |init| && |init[i].features| > 0 && ConsolidatedKey(init[i].ladder) in sigmap
        && u in sigmap[ConsolidatedKey(init[i].ladder)];
      assert board[i] == init[i];
    }
    if Credited(board, sigmap, u) {
      var i :| 0 <= i < |board| && |board[i].features| > 0 && ConsolidatedKey(board[i].ladder) in sigmap
        && u in sigmap[ConsolidatedKey(board[i].ladder)];
      if i < |init| {
        assert init[i] == board[i];
      }
    }
  }

  /**
   * When they are computed, the uuids credited are those listed by a ladder
   * with reported regions, each with the sum of what it is owed.
   */
  lemma {:induction false} SigScoresSpec(board: seq<Ranked>, sigmap: map<string, set<string>>)
    requires SigScores(board, sigmap).Ok?
    ensures forall u :: u in SigScores(board, sigmap).value <==> Credited(board, sigmap, u)
    ensures forall u :: u in SigScores(board, sigmap).value ==> SigScores(board, sigmap).value[u] == Owed(board, sigmap, u)
  {
    if |board| > 0 {
      var init := board[..|board| - 1];
      var e := board[|board| - 1];
      SigScoresSpec(init, sigmap);
      var acc := SigScores(init, sigmap).value;
      var r := SigScores(board, sigmap).value;
      if |e.features| > 0 {
        CreditAllSpec(acc, sigmap[ConsolidatedKey(e.ladder)], e.features);
      }
      forall u ensures u in r <==> Credited(board, sigmap, u) {
        CreditedSnoc(board, sigmap, u);
      }
      forall u | u in r ensures r[u] == Owed(board, sigmap, u) {
        if u !in acc {
          OwedUncredited(init, sigmap, u);
        }
      }
    }
  }

  /** What the signature-map loop does with one entry: its rescored copy, nothing, or the exception. */
  function Judge(e: Entry, m: map<string, real>): Result<seq<Record>>
  {
    match e
    case NonDict(_) => Err(TypeError)
    case Dict(f) =>
      if "uuid" !in f then Err(KeyError)
      else match f["uuid"]
        case List(_) => Err(TypeError)
        case Str(u) => if u in m then Ok([f["score" := Real(m[u])]]) else Ok([])
        case _ => Ok([])
  }

  /** The signature-map loop: the entries whose uuid has a score, rescored, in order. */
  function Keep(entries: seq<Entry>, m: map<string, real>): Result<seq<Record>>
  {
    if |entries| == 0 then Ok([])
    else match Keep(entries[..|entries| - 1], m)
      case Err(e) => Err(e)
      case Ok(kept) =>
        match Judge(entries[|entries| - 1], m)
        case Err(e) => Err(e)
        case Ok(one) => Ok(kept + one)
  }

  /** An entry the loop can read: an object with a hashable `uuid`. */
  predicate Readable(e: Entry)
  {
    e.Dict? && "uuid" in e.fields && !e.fields["uuid"].List?
  }

  /** An entry that is kept: its `uuid` is a string with a score. */
  predicate Scoring(e: Entry, m: map<string, real>)
  {
    e.Dict? && "uuid" in e.fields && e.fields["uuid"].Str? && e.fields["uuid"].s in m
  }

  /** The kept copy of an entry: its `score` field set to its uuid's score. */
  function Rescore(e: Entry, m: map<string, real>): Record
    requires Scoring(e, m)
  {
    e.fields["score" := Real(m[e.fields["uuid"].s])]
  }

  /**
   * The loop fails exactly when some entry is not readable; otherwise it keeps,
   * in order, exactly the entries whose uuid has a score, each with its
   * `score` field set to that score and nothing else changed.
   */
  lemma {:induction false} KeepSpec(entries: seq<Entry>, m: map<string, real>)
    ensures Keep(entries, m).Ok? <==> forall i :: 0 <= i < |entries| ==> Readable(entries[i])
    ensures Keep(entries, m).Ok? ==>
      var r := Keep(entries, m).value;
      && |r| <= |entries|
      && (forall f :: f in r <==> exists i :: 0 <= i < |entries| && Scoring(entries[i], m) && f == Rescore(entries[i], m))
  {
    if |entries| > 0 {
      var init := entries[..|entries| - 1];
      var e := entries[|entries| - 1];
      KeepSpec(init, m);
      assert (forall i :: 0 <= i < |entries| ==> Readable(entries[i])) <==>
        (forall i :: 0 <= i < |init| ==> Readable(init[i])) && Readable(e) by {
        if forall i :: 0 <= i < |init| ==> Readable(init[i]) {
          forall i | 0 <= i < |entries| - 1 ensures Readable(entries[i]) {
            assert entries[i] == init[i];
          }
        }
      }
      if Keep(entries, m).Ok? {
        var r := Keep(entries, m).value;
        var kept := Keep(init, m).value;
        forall f ensures f in r <==> exists i :: 0 <= i < |entries| && Scoring(entries[i], m) && f == Rescore(entries[i], m) {
          if f in kept {
            var i :| 0 <= i < |init| && Scoring(init[i], m) && f == Rescore(init[i], m);
            assert entries[i] == init[i];
          }
          if exists i :: 0 <= i < |entries| && Scoring(entries[i], m) && f == Rescore(entries[i], m) {
            var i :| 0 <= i < |entries| && Scoring(entries[i], m) && f == Rescore(entries[i], m);
            if i < |init| {
              assert init[i] == entries[i];
            }
          }
        }
      }
    }
  }

  /** `consolidate_sig_scores`: the new signature map, or the exception raised. */
  function Consolidated(board: seq<Ranked>, sigmap: map<string, set<string>>, entries: seq<Entry>): Result<seq<Record>>
  {
    match SigScores(board, sigmap)
    case Err(e) => Err(e)
    case Ok(m) => Keep(entries, m)
  }

  /** `for uuid in sigmap[sig]`: one region's score credited to each uuid. */
  method CreditUuids(acc: map<string, real>, uuids: set<string>, x: real) returns (r: map<string, real>)
    ensures r == Credit(acc, uuids, x)
  {
    r := acc;
    var left := uuids;
    while left != {}
      invariant left <= uuids
      invariant r == Credit(acc, uuids - left, x)
      decreases |left|
    {
      var u :| u in left;
      r := r[u := (if u in r then r[u] else 0.0) + x];
      left := left - {u};
    }
    assert uuids - left == uuids;
  }

  method ConsolidateSigScores(board: seq<Ranked>, sigmap: map<string, set<string>>, entries: seq<Entry>)
    returns (r: Result<seq<Record>>)
    ensures r == Consolidated(board, sigmap, entries)
  {
    var sigscores: map<string, real> := map[];
    for n := 0 to |board|
      invariant SigScores(board[..n], sigmap) == Ok(sigscores)
    {
      assert board[..n + 1][..n] == board[..n];
      var sig := ConsolidatedKey(board[n].ladder);
      var fs := board[n].features;
      if |fs| > 0 {
        // the lookup `sigmap[sig]` happens for the first region
        if sig !in sigmap {
          SigScoresFailsOn(board, sigmap, n + 1);
          return Err(KeyError);
        }
        var before := sigscores;
        for i := 0 to |fs|
          invariant sigscores == CreditAll(before, sigmap[sig], fs[..i])
        {
          assert fs[..i + 1][..i] == fs[..i];
          sigscores := CreditUuids(sigscores, sigmap[sig], fs[i].score);
        }
        assert fs[..|fs|] == fs;
      }
    }
    assert board[..|board|] == board;
    var kept: seq<Record> := [];
    for n := 0 to |entries|
      invariant Keep(entries[..n], sigscores) == Ok(kept)
    {
      assert entries[..n + 1][..n] == entries[..n];
      var j := Judge(entries[n], sigscores);
      if j.Err? {
        KeepFailsOn(entries, sigscores, n + 1);
        return Err(j.error);
      }
      kept := kept + j.value;
    }
    assert entries[..|entries|] == entries;
    r := Ok(kept);
  }

  lemma {:induction false} SigScoresFailsOn(board: seq<Ranked>, sigmap: map<string, set<string>>, n: nat)
    requires n <= |board| && SigScores(board[..n], sigmap).Err?
    ensures SigScores(board, sigmap) == SigScores(board[..n], sigmap)
  {
    if n < |board| {
      var init := board[..|board| - 1];
      assert init[..n] == board[..n];
      SigScoresFailsOn(init, sigmap, n);
    } else {
      assert board[..n] == board;
    }
  }

  lemma {:induction false} KeepFailsOn(entries: seq<Entry>, m: map<string, real>, n: nat)
    requires n <= |entries| && Keep(entries[..n], m).Err?
    ensures Keep(entries, m) == Keep(entries[..n], m)
  {
    if n < |entries| {
      var init := entries[..|entries| - 1];
      assert init[..n] == entries[..n];
      KeepFailsOn(init, m, n);
    } else {
      assert entries[..n] == entries;
    }
  }

  /** A string without the pattern has no occurrence starting at any position. */
  lemma {:induction false} AbsentAt(s: string, pat: string, i: nat)
    requires !Contains(s, pat) && i <= |s|
    ensures !StartsWith(s[i..], pat)
  {
    if i > 0 {
      assert s[i..] == s[1..][i - 1..];
      AbsentAt(s[1..], pat, i - 1);
    }
  }

  /** Replacing in `p + q` when no occurrence starts inside `p` replaces in `q` only. */
  lemma {:induction false} ReplaceAfter(p: string, q: string, pat: string, rep: string)
    requires |pat| > 0
    requires forall i :: 0 <= i < |p| ==> !StartsWith((p + q)[i..], pat)
    ensures Replace(p + q, pat, rep) == p + Replace(q, pat, rep)
  {
    var s := p + q;
    if |p| == 0 {
      assert s == q;
    } else {
      assert s[0..] == s;
      ReplaceStep(s, pat, rep);
      var p' := p[1..];
      assert s[1..] == p' + q;
      forall i | 0 <= i < |p'| ensures !StartsWith((p' + q)[i..], pat) {
        assert (p' + q)[i..] == s[i + 1..];
      }
      ReplaceAfter(p', q, pat, rep);
      assert [p[0]] + (p' + Replace(q, pat, rep)) == ([p[0]] + p') + Replace(q, pat, rep);
      assert [p[0]] + p' == p;
    }
  }

  /** A string that does not start with the pattern keeps its first character. */
  lemma ReplaceStep(s: string, pat: string, rep: string)
    requires |pat| > 0 && |s| > 0 && !StartsWith(s, pat)
    ensures Replace(s, pat, rep) == [s[0]] + Replace(s[1..], pat, rep)
  {
    if |s| < |pat| {
      assert Replace(s[1..], pat, rep) == s[1..];
      assert [s[0]] + s[1..] == s;
    }
  }

  /**
   * For a parent and an adduct without `_M`, the adduct starting with `M`, the
   * ladder `parent_adduct` maps back to the signature `parent$adduct;0`.
   */
  lemma ConsolidatedKeyRoundTrip(parent: string, adduct: string)
    requires !Contains(parent, "_M") && !Contains(adduct, "_M")
    requires |adduct| > 0 && adduct[0] == 'M'
    ensures ConsolidatedKey(parent + "_" + adduct) == parent + "$" + adduct + ";0"
  {
    var rest := adduct[1..];
    assert !Contains(rest, "_M");
    KeyReplace(parent, rest);
    Regroup(parent, adduct);
  }

  /** The ladder separator is the only `_M` rewritten. */
  lemma KeyReplace(parent: string, rest: string)
    requires !Contains(parent, "_M") && !Contains(rest, "_M")
    ensures Replace(parent + ("_M" + rest), "_M", "$M") == parent + ("$M" + rest)
  {
    NoOccurrenceAcross(parent, "_M" + rest);
    ReplaceAfter(parent, "_M" + rest, "_M", "$M");
    ReplaceHead(rest, "_M", "$M");
    ReplaceAbsent(rest, "_M", "$M");
  }

  lemma Regroup(parent: string, adduct: string)
    requires |adduct| > 0 && adduct[0] == 'M'
    ensures parent + "_" + adduct == parent + ("_M" + adduct[1..])
    ensures parent + ("$M" + adduct[1..]) + ";0" == parent + "$" + adduct + ";0"
  {
    assert adduct == "M" + adduct[1..];
  }

  /** No `_M` starts inside a string without one when what follows starts with `_`. */
  lemma NoOccurrenceAcross(p: string, q: string)
    requires !Contains(p, "_M") && |q| > 0 && q[0] == '_'
    ensures forall i :: 0 <= i < |p| ==> !StartsWith((p + q)[i..], "_M")
  {
    forall i | 0 <= i < |p| ensures !StartsWith((p + q)[i..], "_M") {
      if i + 1 < |p| {
        AbsentAt(p, "_M", i);
        assert (p + q)[i..][..2] == p[i..][..2];
      } else {
        assert (p + q)[i..][1] == '_';
      }
    }
  }

  /** A string that starts with the pattern has it replaced first. */
  lemma ReplaceHead(t: string, pat: string, rep: string)
    requires |pat| > 0
    ensures Replace(pat + t, pat, rep) == rep + Replace(t, pat, rep)
  {
    assert (pat + t)[..|pat|] == pat && (pat + t)[|pat|..] == t;
  }

  /**
   * The replacement rewrites every `_M`, the parent's included: the ladder of
   * signature `A_M1$M+H;0` is `A_M1_M+H`, which maps to `A$M1$M+H;0`, so its
   * regions cannot be credited and the file raises KeyError.
   */
  lemma ParentUnderscoreLost(f: Feature)
    ensures ConsolidatedKey("A_M1_M+H") == "A$M1$M+H;0"
    ensures SigScores([Ranked("A_M1_M+H", [f])], map["A_M1$M+H;0" := {"u"}]) == Err(KeyError)
  {
    ReplaceBoth();
    var board := [Ranked("A_M1_M+H", [f])];
    assert board[..0] == [];
  }

  lemma ReplaceBoth()
    ensures Replace("A_M1_M+H", "_M", "$M") == "A$M1$M+H"
  {
    var t2 := ['1'] + ("_M" + "+H");
    PlusHFree();
    calc {
      Replace("A_M1_M+H", "_M", "$M");
      { assert "A_M1_M+H" == ['A'] + ("_M" + t2); }
      Replace(['A'] + ("_M" + t2), "_M", "$M");
      { ReplaceSkip('A', "_M" + t2, "_M", "$M"); }
      ['A'] + Replace("_M" + t2, "_M", "$M");
      { ReplaceHead(t2, "_M", "$M"); }
      ['A'] + ("$M" + Replace(t2, "_M", "$M"));
      { ReplaceSkip('1', "_M" + "+H", "_M", "$M"); ReplaceHead("+H", "_M", "$M"); }
      ['A'] + ("$M" + (['1'] + ("$M" + "+H")));
      "A$M1$M+H";
    }
  }

  lemma PlusHFree()
    ensures Replace("+H", "_M", "$M") == "+H"
  {
    assert !StartsWith("+H", "_M") by {
      assert "+H"[..2][0] == '+';
    }
    assert !Contains("H", "_M") by {
      assert "H"[1..] == "";
      assert !Contains("", "_M");
    }
    assert "+H"[1..] == "H";
    assert !Contains("+H", "_M");
    ReplaceAbsent("+H", "_M", "$M");
  }

  /** A character that cannot start the pattern is kept. */
  lemma ReplaceSkip(c: char, t: string, pat: string, rep: string)
    requires |pat| > 0 && c != pat[0]
    ensures Replace([c] + t, pat, rep) == [c] + Replace(t, pat, rep)
  {
    var s := [c] + t;
    assert s[1..] == t;
    if |s| >= |pat| {
      assert s[..|pat|][0] != pat[0];
    }
  }

  // ---------------------------------------------------------------------------
  // score_signatures over one feature file
  // ---------------------------------------------------------------------------

  /** What scoring each ladder gives, in ladder order. */
  function Results(topo: Ladders, digested: map<string, Columns>, maxScans: int, snrCutoff: real, spearman: Spearman): (r: seq<Result<Scores>>)
    requires forall s :: s in digested ==> Parallel(digested[s])
    ensures |r| == |topo.keys|
  {
    seq(|topo.keys|, j requires 0 <= j < |topo.keys| => ScoreSignatureOf(topo.keys[j], topo, digested, maxScans, snrCutoff, spearman))
  }

  /** The scores file: the reported regions per ladder and the other fields of the feature file, the signature map consolidated. */
  datatype Report = Report(scores: seq<Ranked>, sample: string, maxScan: int, signatureMap: seq<Record>, mode: Option<string>)

  /** A kept signature-map entry: a uuid some reported ladder credits, scored with what it is owed. */
  predicate Settled(board: seq<Ranked>, sigmap: map<string, set<string>>, f: Record)
  {
    "uuid" in f && f["uuid"].Str? && Credited(board, sigmap, f["uuid"].s) && "score" in f && f["score"] == Real(Owed(board, sigmap, f["uuid"].s))
  }

  /** `score_signatures` on a decoded feature file. */
  function ScoreFileOf(file: FeatureFile, snrCutoff: real, scanCutoff: real, spearman: Spearman): Result<Report>
  {
    var digested := Digest(file.hits.points, scanCutoff);
    match TopoSort(file.hits.keys)
    case Err(e) => Err(e)
    case Ok(topo) =>
      match BoardFrom(topo.keys, Results(topo, digested, file.maxScan, snrCutoff, spearman), 0, [])
      case Err(e) => Err(e)
      case Ok(board) =>
        match Consolidated(board, file.sigmap, file.signatureMap)
        case Err(e) => Err(e)
        case Ok(sm) => Ok(Report(board, file.sample, file.maxScan, sm, file.mode))
  }

  method ScoreSignatures(file: FeatureFile, snrCutoff: real, scanCutoff: real, spearman: Spearman) returns (r: Result<Report>)
    ensures r == ScoreFileOf(file, snrCutoff, scanCutoff, spearman)
  {
    var digested := Digest(file.hits.points, scanCutoff);
    var topo := TopoSortSignatures(file.hits.keys);
    if topo.Err? {
      return Err(topo.error);
    }
    var keys := topo.value.keys;
    ghost var results := Results(topo.value, digested, file.maxScan, snrCutoff, spearman);
    var board: seq<Ranked> := [];
    for n := 0 to |keys|
      invariant BoardFrom(keys, results, 0, []) == BoardFrom(keys, results, n, board)
    {
      var s := ScoreSignature(keys[n], topo.value, digested, file.maxScan, snrCutoff, spearman);
      assert s == results[n];
      if s.Err? {
        return Err(s.error);
      }
      var fs := Filter(s.value);
      if |fs| > 0 {
        board := board + [Ranked(keys[n], fs)];
      }
    }
    var sm := ConsolidateSigScores(board, file.sigmap, file.signatureMap);
    if sm.Err? {
      return Err(sm.error);
    }
    r := Ok(Report(board, file.sample, file.maxScan, sm.value, file.mode));
  }

  /**
   * When every ladder's scoring completes, every ladder was scored, each entry
   * is a ladder with the regions its scoring reports, and every ladder with a
   * reported region is entered.
   */
  lemma BoardComplete(topo: Ladders, digested: map<string, Columns>, maxScans: int, snrCutoff: real, spearman: Spearman)
    requires forall s :: s in digested ==> Parallel(digested[s])
    requires BoardFrom(topo.keys, Results(topo, digested, maxScans, snrCutoff, spearman), 0, []).Ok?
    ensures var board := BoardFrom(topo.keys, Results(topo, digested, maxScans, snrCutoff, spearman), 0, []).value;
      && (forall k :: k in topo.keys ==> ScoreSignatureOf(k, topo, digested, maxScans, snrCutoff, spearman).Ok?)
      && (forall i :: 0 <= i < |board| ==>
            && board[i].ladder in topo.keys
            && board[i].features == Reports(ScoreSignatureOf(board[i].ladder, topo, digested, maxScans, snrCutoff, spearman).value)
            && |board[i].features| > 0)
      && (forall k :: k in topo.keys && |Reports(ScoreSignatureOf(k, topo, digested, maxScans, snrCutoff, spearman).value)| > 0 ==>
            Ranked(k, Reports(ScoreSignatureOf(k, topo, digested, maxScans, snrCutoff, spearman).value)) in board)
  {
    var results := Results(topo, digested, maxScans, snrCutoff, spearman);
    BoardSpec(topo.keys, results, 0, []);
    var board := BoardFrom(topo.keys, results, 0, []).value;
    forall k | k in topo.keys ensures ScoreSignatureOf(k, topo, digested, maxScans, snrCutoff, spearman).Ok? {
      var j :| 0 <= j < |topo.keys| && topo.keys[j] == k;
      assert results[j].Ok?;
    }
    forall i | 0 <= i < |board| ensures board[i].ladder in topo.keys
      && board[i].features == Reports(ScoreSignatureOf(board[i].ladder, topo, digested, maxScans, snrCutoff, spearman).value)
    {
      var j :| 0 <= j < |topo.keys| && results[j].Ok? && board[i] == Ranked(topo.keys[j], Reports(results[j].value)) && |board[i].features| > 0;
    }
    forall k | k in topo.keys && |Reports(ScoreSignatureOf(k, topo, digested, maxScans, snrCutoff, spearman).value)| > 0
      ensures Ranked(k, Reports(ScoreSignatureOf(k, topo, digested, maxScans, snrCutoff, spearman).value)) in board
    {
      var j :| 0 <= j < |topo.keys| && topo.keys[j] == k;
      assert results[j] == ScoreSignatureOf(k, topo, digested, maxScans, snrCutoff, spearman);
    }
  }

  /**
   * When consolidation completes, every ladder with reported regions has its
   * signature, and the new signature map keeps exactly the entries whose uuid
   * has a score, each scored with what that uuid is owed.
   */
  lemma ConsolidatedSpec(board: seq<Ranked>, sigmap: map<string, set<string>>, entries: seq<Entry>)
    requires Consolidated(board, sigmap, entries).Ok?
    ensures Routable(board, sigmap)
    ensures var m := SigScores(board, sigmap).value;
      var sm := Consolidated(board, sigmap, entries).value;
      && (forall f :: f in sm <==> (exists i :: 0 <= i < |entries| && Scoring(entries[i], m) && f == Rescore(entries[i], m)))
      && (forall f :: f in sm ==> Settled(board, sigmap, f))
  {
    SigScoresFails(board, sigmap);
    var m := SigScores(board, sigmap).value;
    SigScoresSpec(board, sigmap);
    KeepSpec(entries, m);
    var sm := Keep(entries, m).value;
    forall f | f in sm ensures Settled(board, sigmap, f) {
      var i :| 0 <= i < |entries| && Scoring(entries[i], m) && f == Rescore(entries[i], m);
    }
  }

  /**
   * A scores file holds only ladders of the feature file's hits, each with the
   * regions its scoring reports, all with a positive score; every ladder with
   * a reported region is present; and the consolidated signature map keeps
   * exactly the entries whose uuid a reported ladder credits, each scored
   * with what that uuid is owed.
   */
  lemma ScoreFileSpec(file: FeatureFile, snrCutoff: real, scanCutoff: real, spearman: Spearman)
    requires ScoreFileOf(file, snrCutoff, scanCutoff, spearman).Ok?
    ensures TopoSort(file.hits.keys).Ok?
    ensures var topo := TopoSort(file.hits.keys).value;
      var digested := Digest(file.hits.points, scanCutoff);
      var rep := ScoreFileOf(file, snrCutoff, scanCutoff, spearman).value;
      && rep.scores == BoardFrom(topo.keys, Results(topo, digested, file.maxScan, snrCutoff, spearman), 0, []).value
      && rep.signatureMap == Consolidated(rep.scores, file.sigmap, file.signatureMap).value
      && (rep.sample, rep.maxScan, rep.mode) == (file.sample, file.maxScan, file.mode)
      && (forall i, f :: 0 <= i < |rep.scores| && f in rep.scores[i].features ==> f.score > 0.0)
  {
    var topo := TopoSort(file.hits.keys).value;
    var digested := Digest(file.hits.points, scanCutoff);
    var board := BoardFrom(topo.keys, Results(topo, digested, file.maxScan, snrCutoff, spearman), 0, []).value;
    BoardComplete(topo, digested, file.maxScan, snrCutoff, spearman);
    forall i, f | 0 <= i < |board| && f in board[i].features ensures f.score > 0.0 {
      var s := ScoreSignatureOf(board[i].ladder, topo, digested, file.maxScan, snrCutoff, spearman).value;
      EmittedSpec(s.order, s.best);
    }
  }
}
