/** Signature generation from compounds and reactions (asarix/signature_generator.py). */
module SignatureGeneration {
  import opened Wrappers
  import opened Json
  import opened Text
  import Utils
  import Grid

  type Formula = Utils.Formula

  /** A reaction: its name and the element counts it adds (negative counts are losses). */
  datatype Reaction = Reaction(name: string, delta: Formula)

  /** An ordered tuple of reactions: the `+`-joined names and the summed delta. */
  datatype Combination = Combination(name: string, delta: Formula)

  /**
   * The chemistry library's calls: parse_chemformula_dict, calculate_mass and
   * dict_to_hill_formula.
   */
  datatype Chemistry = Chemistry(parse: Value -> Formula, mass: Formula -> real, hill: Formula -> string)

  /** `str(uuid.uuid4())`, modelled as the n-th identifier of a fresh-id supply. */
  function Uuid(n: nat): string
  {
    "uuid-" + NatToString(n)
  }

  lemma UuidInjective(a: nat, b: nat)
    requires Uuid(a) == Uuid(b)
    ensures a == b
  {
    assert Uuid(a)[5..] == NatToString(a);
    assert Uuid(b)[5..] == NatToString(b);
    NatToStringInjective(a, b);
  }

  // ---------------------------------------------------------------------------
  // Compound initialisation
  // ---------------------------------------------------------------------------

  predicate HasFormula(c: Record)
  {
    "neutral_formula" in c && Truthy(c["neutral_formula"])
  }

  /** The defaults given to a kept compound, overridden by every field of the input. */
  function Cleaned(c: Record, id: string): Record
  {
    map["parent" := Null, "reactions" := List([]), "uuid" := Str(id)] + c
  }

  function WithFormula(cs: seq<Record>): (r: seq<Record>)
    ensures forall c :: c in r ==> c in cs && HasFormula(c)
  {
    if |cs| == 0 then []
    else WithFormula(cs[..|cs| - 1]) + (if HasFormula(cs[|cs| - 1]) then [cs[|cs| - 1]] else [])
  }

  /** The cleaned compounds, numbering fresh ids from `next` in input order. */
  function KeptCompounds(cs: seq<Record>, next: nat): seq<Record>
  {
    if |cs| == 0 then []
    else
      var before := KeptCompounds(cs[..|cs| - 1], next);
      before + (if HasFormula(cs[|cs| - 1]) then [Cleaned(cs[|cs| - 1], Uuid(next + |before|))] else [])
  }

  predicate AllHaveUuid(rs: seq<Record>)
  {
    forall i :: 0 <= i < |rs| ==> "uuid" in rs[i]
  }

  /** A uuid-to-record map filled in list order, so a later record wins. */
  function IndexByUuid(rs: seq<Record>): map<Value, Record>
    requires AllHaveUuid(rs)
  {
    if |rs| == 0 then map[]
    else IndexByUuid(rs[..|rs| - 1])[rs[|rs| - 1]["uuid"] := rs[|rs| - 1]]
  }

  lemma KeptStep(cs: seq<Record>, i: nat, next: nat)
    requires i < |cs|
    ensures var before := KeptCompounds(cs[..i], next);
      KeptCompounds(cs[..i + 1], next) ==
        before + (if HasFormula(cs[i]) then [Cleaned(cs[i], Uuid(next + |before|))] else [])
  {
    assert cs[..i + 1][..i] == cs[..i];
  }

  lemma IndexStep(rs: seq<Record>, r: Record)
    requires AllHaveUuid(rs) && "uuid" in r
    ensures AllHaveUuid(rs + [r]) && IndexByUuid(rs + [r]) == IndexByUuid(rs)[r["uuid"] := r]
  {
    assert (rs + [r])[..|rs|] == rs;
  }

  /**
   * The kept compounds are the inputs with a truthy neutral formula, in input
   * order, each with the defaults underneath its own fields and the i-th fresh id.
   */
  lemma {:induction false} KeptCompoundsAre(cs: seq<Record>, next: nat)
    ensures |KeptCompounds(cs, next)| == |WithFormula(cs)|
    ensures forall i :: 0 <= i < |WithFormula(cs)| ==>
      KeptCompounds(cs, next)[i] == Cleaned(WithFormula(cs)[i], Uuid(next + i))
  {
    if |cs| > 0 {
      KeptCompoundsAre(cs[..|cs| - 1], next);
    }
  }

  lemma {:induction false} KeptHaveUuid(cs: seq<Record>, next: nat)
    ensures AllHaveUuid(KeptCompounds(cs, next))
    ensures forall i :: 0 <= i < |KeptCompounds(cs, next)| ==> HasFormula(KeptCompounds(cs, next)[i])
  {
    if |cs| > 0 {
      KeptHaveUuid(cs[..|cs| - 1], next);
    }
  }

  function UuidsOf(rs: seq<Record>): set<Value>
    requires AllHaveUuid(rs)
  {
    set i | 0 <= i < |rs| :: rs[i]["uuid"]
  }

  /** The uuid map holds exactly the uuids of the records. */
  lemma {:induction false} IndexByUuidKeys(rs: seq<Record>)
    requires AllHaveUuid(rs)
    ensures IndexByUuid(rs).Keys == UuidsOf(rs)
  {
    if |rs| > 0 {
      var prefix := rs[..|rs| - 1];
      IndexByUuidKeys(prefix);
      assert UuidsOf(rs) == UuidsOf(prefix) + {rs[|rs| - 1]["uuid"]} by {
        forall u | u in UuidsOf(rs) ensures u in UuidsOf(prefix) + {rs[|rs| - 1]["uuid"]} {
          var i :| 0 <= i < |rs| && rs[i]["uuid"] == u;
          if i < |prefix| { assert prefix[i]["uuid"] == u; }
        }
        forall u | u in UuidsOf(prefix) ensures u in UuidsOf(rs) {
          var i :| 0 <= i < |prefix| && prefix[i]["uuid"] == u;
          assert rs[i]["uuid"] == u;
        }
      }
    }
  }

  /** Each uuid is mapped to a record that carries it. */
  lemma {:induction false} IndexByUuidValues(rs: seq<Record>, u: Value)
    requires AllHaveUuid(rs) && u in IndexByUuid(rs)
    ensures IndexByUuid(rs)[u] in rs && IndexByUuid(rs)[u]["uuid"] == u
  {
    var prefix := rs[..|rs| - 1];
    if u != rs[|rs| - 1]["uuid"] {
      IndexByUuidValues(prefix, u);
    }
  }

  /** A record whose uuid no later record repeats is the one stored under it. */
  lemma {:induction false} IndexByUuidLastWins(rs: seq<Record>, i: nat)
    requires AllHaveUuid(rs) && i < |rs|
    requires forall j :: i < j < |rs| ==> rs[j]["uuid"] != rs[i]["uuid"]
    ensures rs[i]["uuid"] in IndexByUuid(rs) && IndexByUuid(rs)[rs[i]["uuid"]] == rs[i]
  {
    var prefix := rs[..|rs| - 1];
    if i < |rs| - 1 {
      IndexByUuidLastWins(prefix, i);
    }
  }

  // ---------------------------------------------------------------------------
  // Reaction combinations
  // ---------------------------------------------------------------------------

  /** The identity combination that every expansion starts with. */
  function Identity(): Combination
  {
    Combination("", map[])
  }

  function Names(t: seq<Reaction>): (ns: seq<string>)
    ensures |ns| == |t|
  {
    seq(|t|, i requires 0 <= i < |t| => t[i].name)
  }

  function Deltas(t: seq<Reaction>): (ds: seq<Formula>)
    ensures |ds| == |t|
  {
    seq(|t|, i requires 0 <= i < |t| => t[i].delta)
  }

  function Combine(t: seq<Reaction>): Combination
  {
    Combination(Join("+", Names(t)), Utils.FormulaSum(Deltas(t)))
  }

  /** `itertools.product(rs, repeat=n)`: the ordered n-tuples with repetition, in lexicographic order. */
  function Tuples(rs: seq<Reaction>, n: nat): seq<seq<Reaction>>
  {
    Grid.Cross(seq(n, _ => rs))
  }

  /** The combinations of the tuples `ts`, leaving out those whose joined name is empty. */
  function KeepNamed(ts: seq<seq<Reaction>>): seq<Combination>
  {
    if |ts| == 0 then []
    else
      var t := ts[|ts| - 1];
      KeepNamed(ts[..|ts| - 1]) + (if Join("+", Names(t)) != "" then [Combine(t)] else [])
  }

  /** Named combinations of lengths 0 .. n-1, by increasing length. */
  function Levels(rs: seq<Reaction>, n: nat): seq<Combination>
  {
    if n == 0 then [] else Levels(rs, n - 1) + KeepNamed(Tuples(rs, n - 1))
  }

  lemma LevelsStep(rs: seq<Reaction>, i: nat)
    ensures Levels(rs, i + 1) == Levels(rs, i) + KeepNamed(Tuples(rs, i))
  {
  }

  lemma AppendAssoc<T>(a: seq<T>, b: seq<T>, c: seq<T>)
    ensures (a + b) + c == a + (b + c)
  {
  }

  /** What `cartesian_product_reactions(depth)` returns. */
  function Combinations(rs: seq<Reaction>, depth: int): seq<Combination>
  {
    [Identity()] + Levels(rs, if depth > 0 then depth else 0)
  }

  function Pow(b: nat, e: nat): nat
  {
    if e == 0 then 1 else b * Pow(b, e - 1)
  }

  /** 1 + b + ... + b^(k-1). */
  function PowerSum(b: nat, k: nat): nat
  {
    if k == 0 then 0 else PowerSum(b, k - 1) + Pow(b, k - 1)
  }

  lemma {:induction false} ProductConst(m: nat, n: nat)
    ensures Grid.Product(seq(n, _ => m)) == Pow(m, n)
  {
    if n > 0 {
      assert seq(n, _ => m)[1..] == seq(n - 1, _ => m);
      ProductConst(m, n - 1);
    }
  }

  /** There are |rs|^n tuples of length n, and they are exactly the length-n sequences over rs. */
  lemma TuplesAre(rs: seq<Reaction>, n: nat, t: seq<Reaction>)
    ensures |Tuples(rs, n)| == Pow(|rs|, n)
    ensures t in Tuples(rs, n) <==> |t| == n && forall k :: 0 <= k < n ==> t[k] in rs
  {
    var lists := seq(n, _ => rs);
    assert Grid.Lengths(lists) == seq(n, _ => |rs|);
    Grid.NdIndexLength(Grid.Lengths(lists));
    ProductConst(|rs|, n);
    Grid.CrossMembers(lists, t);
  }

  lemma {:induction false} JoinNonEmpty(sep: string, parts: seq<string>)
    requires |sep| > 0 && |parts| >= 2
    ensures Join(sep, parts) != ""
  {
  }

  lemma {:induction false} KeepNamedAll(ts: seq<seq<Reaction>>)
    requires forall i :: 0 <= i < |ts| ==> Join("+", Names(ts[i])) != ""
    ensures |KeepNamed(ts)| == |ts|
  {
    if |ts| > 0 {
      KeepNamedAll(ts[..|ts| - 1]);
    }
  }

  /**
   * A tuple is only ever dropped for an empty name at length 0 or 1: from length
   * 2 on the joined name holds a `+`.
   */
  lemma LongTuplesAllKept(rs: seq<Reaction>, n: nat)
    requires n >= 2
    ensures |KeepNamed(Tuples(rs, n))| == Pow(|rs|, n)
  {
    var ts := Tuples(rs, n);
    forall i | 0 <= i < |ts| ensures Join("+", Names(ts[i])) != "" {
      TuplesAre(rs, n, ts[i]);
      JoinNonEmpty("+", Names(ts[i]));
    }
    KeepNamedAll(ts);
    TuplesAre(rs, n, []);
  }

  /**
   * With every reaction name non-empty, `cartesian_product_reactions(k)` lists
   * 1 + n + n^2 + ... + n^(k-1) combinations for k >= 1.
   */
  lemma {:induction false} CombinationCount(rs: seq<Reaction>, depth: nat)
    requires depth >= 1
    requires forall i :: 0 <= i < |rs| ==> rs[i].name != ""
    ensures |Combinations(rs, depth)| == PowerSum(|rs|, depth)
  {
    LevelsCount(rs, depth);
  }

  lemma {:induction false} LevelsCount(rs: seq<Reaction>, n: nat)
    requires n >= 1
    requires forall i :: 0 <= i < |rs| ==> rs[i].name != ""
    ensures |Levels(rs, n)| == PowerSum(|rs|, n) - 1
  {
    if n == 1 {
      assert Tuples(rs, 0) == [[]] by {
        TuplesAre(rs, 0, []);
        assert |Tuples(rs, 0)| == 1;
        assert [] in Tuples(rs, 0);
      }
      assert KeepNamed(Tuples(rs, 0)) == [] by {
        assert KeepNamed([[]]) == KeepNamed([]) + [];
      }
    } else {
      LevelsCount(rs, n - 1);
      var ts := Tuples(rs, n - 1);
      if n - 1 >= 2 {
        LongTuplesAllKept(rs, n - 1);
      } else {
        forall i | 0 <= i < |ts| ensures Join("+", Names(ts[i])) != "" {
          TuplesAre(rs, n - 1, ts[i]);
          assert ts[i][0] in rs;
        }
        KeepNamedAll(ts);
        TuplesAre(rs, n - 1, []);
      }
    }
  }

  /** Every listed combination is the identity or the combination of a tuple of 1 .. k-1 reactions. */
  lemma LevelsMembers(rs: seq<Reaction>, n: nat, c: Combination)
    requires c in Levels(rs, n)
    ensures exists t :: 0 < |t| < n && (forall k :: 0 <= k < |t| ==> t[k] in rs) && c == Combine(t)
  {
    var t := LevelsWitness(rs, n, c);
  }

  lemma {:induction false} LevelsWitness(rs: seq<Reaction>, n: nat, c: Combination) returns (t: seq<Reaction>)
    requires c in Levels(rs, n)
    ensures 0 < |t| < n && (forall k :: 0 <= k < |t| ==> t[k] in rs) && c == Combine(t)
  {
    if c in Levels(rs, n - 1) {
      t := LevelsWitness(rs, n - 1, c);
    } else {
      t := KeepNamedMember(Tuples(rs, n - 1), c);
      TuplesAre(rs, n - 1, t);
      assert |t| > 0;
    }
  }

  lemma {:induction false} KeepNamedMember(ts: seq<seq<Reaction>>, c: Combination) returns (t: seq<Reaction>)
    requires c in KeepNamed(ts)
    ensures t in ts && Join("+", Names(t)) != "" && c == Combine(t)
  {
    var last := ts[|ts| - 1];
    if c in KeepNamed(ts[..|ts| - 1]) {
      t := KeepNamedMember(ts[..|ts| - 1], c);
    } else {
      t := last;
    }
  }

  // ---------------------------------------------------------------------------
  // Products
  // ---------------------------------------------------------------------------

  /** A candidate product: its formula and the reaction label that produced it. */
  datatype Candidate = Candidate(formula: Formula, reactions: string)

  function ProductFormula(cpd: Record, combo: Combination, chem: Chemistry): Formula
    requires "neutral_formula" in cpd
  {
    Utils.FormulaSum([chem.parse(cpd["neutral_formula"]), combo.delta])
  }

  predicate AllWithFormula(cpds: seq<Record>)
  {
    forall i :: 0 <= i < |cpds| ==> "neutral_formula" in cpds[i]
  }

  function Row(cpd: Record, combos: seq<Combination>, chem: Chemistry): (r: seq<Candidate>)
    requires "neutral_formula" in cpd
    ensures |r| == |combos|
  {
    seq(|combos|, j requires 0 <= j < |combos| =>
      Candidate(ProductFormula(cpd, combos[j], chem), combos[j].name))
  }

  /** Every compound paired with every combination, compound-major. */
  function Candidates(cpds: seq<Record>, combos: seq<Combination>, chem: Chemistry): (r: seq<Candidate>)
    requires AllWithFormula(cpds)
    ensures |r| == |cpds| * |combos|
  {
    if |cpds| == 0 then []
    else Candidates(cpds[..|cpds| - 1], combos, chem) + Row(cpds[|cpds| - 1], combos, chem)
  }

  predicate Positive(f: Formula)
  {
    forall k :: k in f ==> f[k] > 0
  }

  predicate AnyEmpty(cs: seq<Candidate>)
  {
    exists i :: 0 <= i < |cs| && cs[i].formula == map[]
  }

  function KeepPositive(cs: seq<Candidate>): seq<Candidate>
  {
    if |cs| == 0 then []
    else KeepPositive(cs[..|cs| - 1]) + (if Positive(cs[|cs| - 1].formula) then [cs[|cs| - 1]] else [])
  }

  function ProductRecord(c: Candidate, id: nat, chem: Chemistry): Record
  {
    map[
      "neutral_formula_mass" := Real(chem.mass(c.formula)),
      "neutral_formula" := Str(chem.hill(c.formula)),
      "reactions" := Str(c.reactions),
      "uuid" := Str(Uuid(id))]
  }

  function ProductRecords(cs: seq<Candidate>, next: nat, chem: Chemistry): (rs: seq<Record>)
    ensures |rs| == |cs| && AllHaveUuid(rs)
  {
    seq(|cs|, i requires 0 <= i < |cs| => ProductRecord(cs[i], next + i, chem))
  }

  lemma MulMono(a: nat, b: nat, c: nat)
    requires a <= b
    ensures a * c <= b * c
  {
  }

  /** The i-th compound with the j-th combination is candidate i * |combos| + j. */
  lemma {:induction false} CandidateAt(cpds: seq<Record>, combos: seq<Combination>, chem: Chemistry, i: nat, j: nat)
    requires AllWithFormula(cpds) && i < |cpds| && j < |combos|
    ensures i * |combos| + j < |Candidates(cpds, combos, chem)|
    ensures Candidates(cpds, combos, chem)[i * |combos| + j]
         == Candidate(ProductFormula(cpds[i], combos[j], chem), combos[j].name)
  {
    var n := |cpds|;
    var c := |combos|;
    var prefix := cpds[..n - 1];
    var before := Candidates(prefix, combos, chem);
    assert |before| == (n - 1) * c;
    MulMono(i, n - 1, c);
    assert Candidates(cpds, combos, chem) == before + Row(cpds[n - 1], combos, chem);
    if i < n - 1 {
      MulMono(i + 1, n - 1, c);
      assert i * c + j < (i + 1) * c;
      CandidateAt(prefix, combos, chem, i, j);
      assert prefix[i] == cpds[i];
    } else {
      assert i * c + j == |before| + j;
    }
  }

  /**
   * A candidate survives iff every element count is strictly positive, so an
   * element cancelled to 0 is rejected; survivors keep their relative order.
   */
  lemma {:induction false} KeepPositiveIff(cs: seq<Candidate>, c: Candidate)
    ensures c in KeepPositive(cs) <==> c in cs && Positive(c.formula)
  {
    if |cs| > 0 {
      KeepPositiveIff(cs[..|cs| - 1], c);
      assert cs == cs[..|cs| - 1] + [cs[|cs| - 1]];
    }
  }

  /** The identity combination leaves the compound's parsed formula unchanged. */
  lemma IdentityProduct(cpd: Record, chem: Chemistry)
    requires "neutral_formula" in cpd
    ensures ProductFormula(cpd, Identity(), chem) == chem.parse(cpd["neutral_formula"])
  {
    Utils.SumWithEmpty(chem.parse(cpd["neutral_formula"]));
  }

  /** Freshly generated products never share a uuid. */
  lemma ProductUuidsDistinct(cs: seq<Candidate>, next: nat, chem: Chemistry, i: nat, j: nat)
    requires i < j < |cs|
    ensures ProductRecords(cs, next, chem)[i]["uuid"] != ProductRecords(cs, next, chem)[j]["uuid"]
  {
    if Uuid(next + i) == Uuid(next + j) {
      UuidInjective(next + i, next + j);
    }
  }

  function ReactionsOr(rs: Option<seq<Reaction>>): seq<Reaction>
  {
    if rs.Some? then rs.value else []
  }

  /** The signature generator: loaded compounds, reactions and the generated signatures. */
  class SignatureGenerator {
    var compounds: Option<seq<Record>>
    var uuidMap: Option<map<Value, Record>>
    var reactions: Option<seq<Reaction>>
    var signatures: Option<seq<Record>>
    /** The state of the fresh-id supply: the next `uuid4()` returns `Uuid(nextUuid)`. */
    var nextUuid: nat
    const chem: Chemistry

    ghost predicate Valid()
      reads this
    {
      && (compounds.Some? <==> uuidMap.Some?)
      && (compounds.Some? ==> AllWithFormula(compounds.value))
    }

    /**
     * Cleans the input compounds: keeps those with a truthy neutral formula, gives
     * each the defaults and a fresh uuid (its own fields override them) and maps
     * each final uuid to its compound. No compounds at all gives (None, None).
     */
    static method InitializeCompounds(cs: seq<Record>, next: nat)
      returns (cpds: Option<seq<Record>>, uuidMap: Option<map<Value, Record>>, used: nat)
      ensures cs == [] ==> cpds == None && uuidMap == None && used == 0
      ensures cs != [] ==> cpds == Some(KeptCompounds(cs, next)) && used == |cpds.value|
      ensures cs != [] ==> AllHaveUuid(cpds.value) && uuidMap == Some(IndexByUuid(cpds.value))
      ensures cs != [] ==> |cpds.value| == |WithFormula(cs)|
      ensures cs != [] ==> forall i :: 0 <= i < |cpds.value| ==> cpds.value[i] == Cleaned(WithFormula(cs)[i], Uuid(next + i))
    {
      if cs == [] {
        return None, None, 0;
      }
      var newCpds, index := CleanCompounds(cs, next);
      KeptCompoundsAre(cs, next);
      return Some(newCpds), Some(index), |newCpds|;
    }

    /** The loop of `initialize_compounds`: the kept compounds and their uuid index. */
    static method CleanCompounds(cs: seq<Record>, next: nat) returns (newCpds: seq<Record>, index: map<Value, Record>)
      ensures newCpds == KeptCompounds(cs, next)
      ensures AllHaveUuid(newCpds) && index == IndexByUuid(newCpds)
    {
      newCpds := [];
      index := map[];
      var i := 0;
      while i < |cs|
        invariant 0 <= i <= |cs|
        invariant newCpds == KeptCompounds(cs[..i], next)
        invariant AllHaveUuid(newCpds) && index == IndexByUuid(newCpds)
      {
        KeptStep(cs, i, next);
        var compound := cs[i];
        if "neutral_formula" in compound && Truthy(compound["neutral_formula"]) {
          var cpd := map["parent" := Null, "reactions" := List([]), "uuid" := Str(Uuid(next + |newCpds|))];
          cpd := cpd + compound;
          assert cpd == Cleaned(cs[i], Uuid(next + |newCpds|));
          IndexStep(newCpds, cpd);
          newCpds := newCpds + [cpd];
          index := index[cpd["uuid"] := cpd];
        }
        i := i + 1;
      }
      assert cs[..i] == cs;
    }

    /**
     * `from_compounds_reactions`: ready for de novo signature generation. A
     * missing compound list behaves as an empty one (both are falsy); the
     * reactions may be missing.
     */
    constructor FromCompoundsReactions(cs: seq<Record>, rs: Option<seq<Reaction>>, chem: Chemistry, firstUuid: nat)
      ensures Valid()
      ensures compounds == (if cs == [] then None else Some(KeptCompounds(cs, firstUuid)))
      ensures AllHaveUuid(KeptCompounds(cs, firstUuid))
      ensures uuidMap == (if cs == [] then None else Some(IndexByUuid(KeptCompounds(cs, firstUuid))))
      ensures reactions == rs && signatures == None && this.chem == chem
      ensures nextUuid == firstUuid + (if cs == [] then 0 else |KeptCompounds(cs, firstUuid)|)
    {
      var cpds, index, used := InitializeCompounds(cs, firstUuid);
      compounds, uuidMap := cpds, index;
      reactions := rs;
      signatures := None;
      nextUuid := firstUuid + used;
      this.chem := chem;
      new;
      KeptHaveUuid(cs, firstUuid);
    }

    /** `from_signatures`: no compounds or reactions, the signatures given. */
    constructor FromSignatures(sigs: seq<Record>, chem: Chemistry, firstUuid: nat)
      ensures Valid()
      ensures compounds == None && uuidMap == None && reactions == None
      ensures signatures == Some(sigs) && nextUuid == firstUuid && this.chem == chem
    {
      compounds, uuidMap := None, None;
      reactions := None;
      signatures := Some(sigs);
      nextUuid := firstUuid;
      this.chem := chem;
    }

    /**
     * The identity combination, then every ordered tuple of 1 .. depth-1 reactions
     * (with repetition, by increasing length) whose joined name is not empty.
     * Without reactions, `itertools.product(None, repeat=i)` raises TypeError once
     * `i` reaches 1; with `repeat=0` it yields the empty tuple without looking at
     * its argument.
     */
    method CartesianProductReactions(depth: int) returns (r: Result<seq<Combination>>)
      ensures reactions.None? && depth > 1 ==> r == Err(TypeError)
      ensures !(reactions.None? && depth > 1) ==> r == Ok(Combinations(ReactionsOr(reactions), depth))
    {
      r := ReactionProducts(reactions, depth);
    }

    /**
     * Replaces the signatures by every compound x combination product (with 0 .. depth
     * reactions) whose element counts are all strictly positive, compound-major;
     * each gets a fresh uuid and joins the uuid map. A product without any element
     * makes `min()` raise ValueError; on any error nothing is changed.
     */
    method GenerateSignatures(depth: int) returns (r: Outcome)
      requires Valid()
      modifies this
      ensures Valid()
      ensures compounds == old(compounds) && reactions == old(reactions)
      ensures r.Fail? ==> signatures == old(signatures) && uuidMap == old(uuidMap) && nextUuid == old(nextUuid)
      ensures (old(compounds).None? || (old(reactions).None? && depth > 0)) ==> r == Fail(TypeError)
      ensures old(compounds).Some? && !(old(reactions).None? && depth > 0) ==>
        var cands := Candidates(compounds.value, Combinations(ReactionsOr(reactions), depth + 1), chem);
        var products := ProductRecords(KeepPositive(cands), old(nextUuid), chem);
        && (r.Fail? <==> AnyEmpty(cands))
        && (r.Fail? ==> r.error == ValueError)
        && (r.Pass? ==>
          && signatures == Some(products)
          && uuidMap == Some(old(uuidMap).value + IndexByUuid(products))
          && nextUuid == old(nextUuid) + |products|)
    {
      var res := NewSignatures(compounds, reactions, depth, nextUuid, chem);
      if res.Err? {
        return Fail(res.error);
      }
      var records := res.value;
      signatures := Some(records);
      uuidMap := Some(uuidMap.value + IndexByUuid(records));
      nextUuid := nextUuid + |records|;
      return Pass;
    }
  }

  /**
   * The signatures `generate_signatures` computes from the compounds and
   * reactions it reads, numbering fresh ids from `next`, or the exception.
   */
  method NewSignatures(cpds: Option<seq<Record>>, rxns: Option<seq<Reaction>>, depth: int, next: nat, chem: Chemistry)
    returns (r: Result<seq<Record>>)
    requires cpds.Some? ==> AllWithFormula(cpds.value)
    ensures (cpds.None? || (rxns.None? && depth > 0)) ==> r == Err(TypeError)
    ensures cpds.Some? && !(rxns.None? && depth > 0) ==>
      var cands := Candidates(cpds.value, Combinations(ReactionsOr(rxns), depth + 1), chem);
      && (r.Err? <==> AnyEmpty(cands))
      && (r.Err? ==> r.error == ValueError)
      && (r.Ok? ==> r.value == ProductRecords(KeepPositive(cands), next, chem))
  {
    var allRxns := ReactionProducts(rxns, depth + 1);
    if allRxns.Err? {
      return Err(allRxns.error);
    }
    if cpds.None? {
      return Err(TypeError);
    }
    var prods := AllProducts(cpds.value, allRxns.value, chem);
    if prods.Err? {
      return Err(prods.error);
    }
    return Ok(ProductRecords(prods.value, next, chem));
  }

  /** The loop of `cartesian_product_reactions` over the reactions `rxns`. */
  method ReactionProducts(rxns: Option<seq<Reaction>>, depth: int) returns (r: Result<seq<Combination>>)
    ensures rxns.None? && depth > 1 ==> r == Err(TypeError)
    ensures !(rxns.None? && depth > 1) ==> r == Ok(Combinations(ReactionsOr(rxns), depth))
  {
    var rs := ReactionsOr(rxns);
    var all := [Identity()];
    ghost var levels := [];
    var i := 0;
    while i < depth
      invariant 0 <= i <= (if depth > 0 then depth else 0)
      invariant rxns.None? ==> i <= 1
      invariant levels == Levels(rs, i)
      invariant all == [Identity()] + levels
    {
      if rxns.None? && i > 0 {
        return Err(TypeError);
      }
      var level := NamedCombinations(Tuples(rs, i));
      LevelsStep(rs, i);
      AppendAssoc([Identity()], levels, level);
      all := all + level;
      levels := levels + level;
      i := i + 1;
    }
    return Ok(all);
  }

  /**
   * One length of `cartesian_product_reactions`: each tuple's names joined by '+'
   * and deltas summed, in tuple order, skipping tuples whose joined name is empty.
   */
  method NamedCombinations(combos: seq<seq<Reaction>>) returns (level: seq<Combination>)
    ensures level == KeepNamed(combos)
  {
    level := [];
    var j := 0;
    while j < |combos|
      invariant 0 <= j <= |combos|
      invariant level == KeepNamed(combos[..j])
    {
      var combo := combos[j];
      var deltas := Deltas(combo);
      var summed := Utils.SumFormulaDicts(Utils.ValuesOf(deltas));
      Utils.AsValuesInts(deltas);
      assert summed.value == Utils.FormulaSum(deltas);
      var name := Join("+", Names(combo));
      assert combos[..j + 1][..j] == combos[..j];
      if name != "" {
        level := level + [Combination(name, summed.value)];
      }
      j := j + 1;
    }
    assert combos[..j] == combos;
  }

  /**
   * The products of every compound with every combination, compound-major, keeping
   * those whose counts are all positive; the first product without any element
   * raises ValueError.
   */
  method AllProducts(cpds: seq<Record>, combos: seq<Combination>, chem: Chemistry) returns (r: Result<seq<Candidate>>)
    requires AllWithFormula(cpds)
    ensures r.Err? <==> AnyEmpty(Candidates(cpds, combos, chem))
    ensures r.Err? ==> r.error == ValueError
    ensures r.Ok? ==> r.value == KeepPositive(Candidates(cpds, combos, chem))
  {
    var products: seq<Candidate> := [];
    var i := 0;
    while i < |cpds|
      invariant 0 <= i <= |cpds|
      invariant !AnyEmpty(Candidates(cpds[..i], combos, chem))
      invariant products == KeepPositive(Candidates(cpds[..i], combos, chem))
    {
      var row := ProductsOfCompound(cpds[i], combos, chem);
      CandidatesSplit(cpds, i, combos, chem);
      if row.Err? {
        return Err(row.error);
      }
      KeepPositiveAppend(Candidates(cpds[..i], combos, chem), Row(cpds[i], combos, chem));
      products := products + row.value;
      i := i + 1;
    }
    assert cpds[..i] == cpds;
    return Ok(products);
  }

  /**
   * The products of one compound with every combination, in combination order:
   * those whose counts are all positive are kept, and an empty product formula
   * makes `min()` raise ValueError.
   */
  method ProductsOfCompound(cpd: Record, combos: seq<Combination>, chem: Chemistry) returns (r: Result<seq<Candidate>>)
    requires "neutral_formula" in cpd
    ensures r.Err? <==> AnyEmpty(Row(cpd, combos, chem))
    ensures r.Err? ==> r.error == ValueError
    ensures r.Ok? ==> r.value == KeepPositive(Row(cpd, combos, chem))
  {
    var row := Row(cpd, combos, chem);
    var products: seq<Candidate> := [];
    var j := 0;
    while j < |combos|
      invariant 0 <= j <= |combos|
      invariant !AnyEmpty(row[..j])
      invariant products == KeepPositive(row[..j])
    {
      var rxn := combos[j];
      var parts := [chem.parse(cpd["neutral_formula"]), rxn.delta];
      var summed := Utils.SumFormulaDicts(Utils.ValuesOf(parts));
      Utils.AsValuesInts(parts);
      var pFormula := summed.value;
      assert pFormula == ProductFormula(cpd, rxn, chem);
      assert row[..j + 1] == row[..j] + [row[j]];
      if pFormula == map[] {
        assert row[j].formula == map[];
        return Err(ValueError);
      }
      var smallest := MinCount(pFormula);
      if smallest > 0 {
        products := products + [Candidate(pFormula, rxn.name)];
      }
      assert !AnyEmpty(row[..j + 1]) by {
        var next := row[..j + 1];
        forall k | 0 <= k < j + 1 ensures next[k].formula != map[] {
          if k < j { assert next[k] == row[..j][k]; }
        }
      }
      j := j + 1;
    }
    assert row[..j] == row;
    return Ok(products);
  }

  lemma {:induction false} KeepPositiveAppend(a: seq<Candidate>, b: seq<Candidate>)
    ensures KeepPositive(a + b) == KeepPositive(a) + KeepPositive(b)
    decreases |b|
  {
    if |b| == 0 {
      assert a + b == a;
    } else {
      KeepPositiveAppend(a, b[..|b| - 1]);
      assert (a + b)[..|a + b| - 1] == a + b[..|b| - 1];
    }
  }

  lemma {:induction false} CandidatesAppend(a: seq<Record>, b: seq<Record>, combos: seq<Combination>, chem: Chemistry)
    requires AllWithFormula(a) && AllWithFormula(b)
    ensures AllWithFormula(a + b)
    ensures Candidates(a + b, combos, chem) == Candidates(a, combos, chem) + Candidates(b, combos, chem)
    decreases |b|
  {
    if |b| == 0 {
      assert a + b == a;
    } else {
      CandidatesAppend(a, b[..|b| - 1], combos, chem);
      assert (a + b)[..|a + b| - 1] == a + b[..|b| - 1];
    }
  }

  /** The candidates of the first i + 1 compounds extend those of the first i by one row, inside the whole list. */
  lemma CandidatesSplit(cpds: seq<Record>, i: nat, combos: seq<Combination>, chem: Chemistry)
    requires AllWithFormula(cpds) && i < |cpds|
    ensures Candidates(cpds[..i + 1], combos, chem) == Candidates(cpds[..i], combos, chem) + Row(cpds[i], combos, chem)
    ensures AnyEmpty(Row(cpds[i], combos, chem)) ==> AnyEmpty(Candidates(cpds, combos, chem))
  {
    assert cpds[..i + 1][..i] == cpds[..i];
    assert cpds == cpds[..i + 1] + cpds[i + 1..];
    CandidatesAppend(cpds[..i + 1], cpds[i + 1..], combos, chem);
    var row := Row(cpds[i], combos, chem);
    if AnyEmpty(row) {
      var k :| 0 <= k < |row| && row[k].formula == map[];
      var all := Candidates(cpds, combos, chem);
      var before := Candidates(cpds[..i], combos, chem);
      assert all[|before| + k] == row[k];
    }
  }

  /** `min(f.values())` of a non-empty formula. */
  method MinCount(f: Formula) returns (m: int)
    requires f != map[]
    ensures m in f.Values
    ensures forall k :: k in f ==> m <= f[k]
  {
    var k0 :| k0 in f;
    m := f[k0];
    var todo := f.Keys - {k0};
    while todo != {}
      invariant todo <= f.Keys
      invariant m in f.Values
      invariant forall k :: k in f.Keys - todo ==> m <= f[k]
      decreases todo
    {
      var k :| k in todo;
      if f[k] < m {
        m := f[k];
      }
      todo := todo - {k};
    }
  }
}
