# Asari-X core, modelled in Dafny

Asari-X searches mass-spectrometry scans for the isotopologue and adduct
"signatures" of known compounds and scores the chromatographic evidence it
finds. This project models the deterministic path from compounds to ranked
evidence and proves properties of it:

- `utils.dfy` (module `Utils`): summing element-count maps and splitting scan
  numbers into consecutive scan sets.
- `signature_generator.dfy` (module `SignatureGeneration`): compound cleaning
  with fresh ids, ordered reaction combinations, and the product filter that
  keeps strictly positive formulas. This is the `SignatureGenerator` class.
- `ions.dfy` (module `Ions`): the isotope table, neighbour coordinates,
  isotopologue hashes and delta strings, the best-first isotopologue search
  (a class over a heap and a `used` set), and the ion labels
  `adduct,delta;i`.
- `scan_search.dfy` (module `ScanSearch`): grouping hits by signature key,
  and the accumulation and polarity-mode logic of mining one file.
- `scan_score.dfy` (module `ScanScore`): the intensity filter, isotope
  ladders, `cluster_prob`, `cluster_snr`, the combination walk of
  `score_signature`, the region filter, and the routing of ladder scores
  back to compound uuids.
- `experiment.dfy` (module `Experiment`): splitting samples into blanks and
  study samples.
- Shared helpers:
  - `wrappers.dfy`: `Option`, `Result` and the Python exception kinds.
  - `json.dfy`: JSON-like values and Python truthiness.
  - `text.dfy`: `str(int)`, `join`, `split`, `replace`, `in`, `lower`, `basename`.
  - `grid.dfy`: `np.ndindex` and the cross product it drives.
  - `combinatorics.dfy`: `itertools.permutations` and a bounded vector space.

Python exceptions are results: a member that can raise returns
`Result`/`Outcome`, and `Err(KeyError)`, `Err(TypeError)` and so on name the
exception. Foreign code is a parameter:

- the chemical-formula parser and mass calculator
- the multinomial probability and Spearman correlation
- the mzML reader and the mass search
- `uuid4`, modelled as a counter of fresh ids `Uuid(n)`

Known defects of the code are modelled as written, and a lemma pins each one:

- `GrowthNotSkipped`: the length-growth `continue` in `score_signature` has no effect.
- `NeighborsStartWithSelf`: the unchanged coordinate is among its own neighbours.
- `GenerateIonSignature`: when the isotopologue generator runs dry before the cutoff, all isotopologues are discarded.
- `ParentUnderscoreLost` and `ReplaceBoth`: the `_M` rewrite changes every occurrence.
- `LabelLadder`: only the last comma segment of an adduct label is stripped.
- `FailureKeepsPartial`: hits gathered before an exception survive it.

Where a description of the system and the code differ, the model follows the
code. `Experiment.partition_samples` without samples tests a data frame for
truth, which pandas refuses with ValueError, so the feature-table branch
never partitions anything.

## Model

| member | source | states |
|---|---|---|
| Utils.SumFormulaDicts | asarix/utils.py:21-39 | Fails with AssertionError exactly when some value is not an int. Otherwise the keys are the union of all input keys, and each value is the total over all dicts, missing keys counting 0 and zero totals kept. |
| Utils.AddCounts | asarix/utils.py:36-38 | One dict's pass: AssertionError exactly when a value is not an int, otherwise the running sums plus that dict's counts on the union of keys. |
| Utils.FormulaSumSpec | asarix/utils.py:34-39 | An element is in the sum exactly when some input dict has it, and an element outside the sum totals 0 over the inputs. |
| Utils.FormulaSumOrderIndependent | asarix/utils.py:35-38 | Any rearrangement of the input dicts gives the same sum. |
| Utils.TotalPermutation | asarix/utils.py:35-38 | Per-key totals and the key union are invariant under rearrangement. |
| Utils.SumWithEmpty | asarix/utils.py:34-39 | Adding the empty map to a formula gives the formula back. |
| Utils.ConsecutiveScans | asarix/utils.py:42-75 | Returns the consecutive scan sets of the input ([] for no scans). Every group has at least `min_group_size` scans, and each step inside a group is between 1 and `max_gap`+1. |
| Utils.KeepLarge | asarix/utils.py:74 | A group is kept exactly when it is an input group with at least the minimum size, and the result is no longer than the input. |
| Utils.KeepLargeAppend | asarix/utils.py:74 | Filtering a concatenation is the concatenation of the filtered parts, so kept groups keep their input order. |
| Utils.RunsSteady | asarix/utils.py:59-71 | Before the size filter, each step inside a group is between 1 and `max_gap`+1. |
| Utils.RunsSeparated | asarix/utils.py:59-73 | A new group starts only when its first scan cannot extend the previous group: it is smaller or more than `max_gap`+1 above. |
| Utils.RunsCoverInput | asarix/utils.py:57-73 | Concatenating the groups gives the input with immediate repeats dropped, so order is kept and every scan comes from the input. |
| Utils.ScanSetsFromInput | asarix/utils.py:42-75 | Every scan of every returned scan set is a scan of the input. |
| Utils.Example1 | asarix/utils.py:42-75 | [1,2,3,10] gives [[1,2,3]] with the defaults. |
| Utils.Example2 | asarix/utils.py:42-75 | [1,2,4,5] gives [[1,2,4,5]] with the defaults. |
| Utils.Example3 | asarix/utils.py:42-75 | [5] gives [] with the defaults. |
| Utils.Example4 | asarix/utils.py:59-62 | A repeated scan is dropped: [7,7,8] gives [[7,8]]. |
| SignatureGeneration.UuidInjective | asarix/signature_generator.py:58 | Fresh ids drawn at different counter values differ. |
| SignatureGeneration.SignatureGenerator.InitializeCompounds | asarix/signature_generator.py:36-68 | No compounds gives (None, None). Otherwise the kept compounds are exactly those with a truthy neutral formula, in input order, each with the defaults under its own fields and the i-th fresh id, and the uuid map indexes them by final uuid. |
| SignatureGeneration.SignatureGenerator.CleanCompounds | asarix/signature_generator.py:52-62 | The loop builds the kept compounds and their index by uuid. |
| SignatureGeneration.KeptCompoundsAre | asarix/signature_generator.py:53-62 | The i-th kept compound is the i-th compound with a formula, cleaned with id i. |
| SignatureGeneration.KeptHaveUuid | asarix/signature_generator.py:53-62 | Every kept compound has a uuid and a truthy neutral formula. |
| SignatureGeneration.IndexByUuidKeys | asarix/signature_generator.py:62 | The uuid map's keys are exactly the compounds' uuids. |
| SignatureGeneration.IndexByUuidValues | asarix/signature_generator.py:62 | Each uuid maps to a compound carrying that uuid. |
| SignatureGeneration.IndexByUuidLastWins | asarix/signature_generator.py:62 | Of several compounds with one uuid, the last one wins. |
| SignatureGeneration.SignatureGenerator.FromCompoundsReactions | asarix/signature_generator.py:26-33 | Compounds are cleaned, or None when none are given. The uuid map indexes exactly the cleaned compounds. The reactions, possibly None, are stored as given, and there are no signatures yet. |
| SignatureGeneration.SignatureGenerator.FromSignatures | asarix/signature_generator.py:101-113 | No compounds, no uuid map and no reactions, and the given signatures. |
| SignatureGeneration.SignatureGenerator.CartesianProductReactions | asarix/signature_generator.py:132-158 | TypeError when there are no reactions and depth > 1 (a product of nothing repeated zero times is the single empty tuple). Otherwise the identity followed by the named ordered tuples of lengths 1 .. depth-1, by length. |
| SignatureGeneration.NamedCombinations | asarix/signature_generator.py:149-156 | Tuples whose `+`-joined name is empty are skipped, and the others become combinations in order. |
| SignatureGeneration.TuplesAre | asarix/signature_generator.py:149 | `product(rs, repeat=n)` has n-th-power many tuples, exactly the length-n sequences over the reactions. |
| SignatureGeneration.LongTuplesAllKept | asarix/signature_generator.py:151-152 | Every tuple of length at least two has a non-empty joined name, so none is skipped. |
| SignatureGeneration.CombinationCount | asarix/signature_generator.py:147-156 | With all names non-empty, depth k gives 1+n+...+n^(k-1) combinations. |
| SignatureGeneration.LevelsCount | asarix/signature_generator.py:148-156 | The levels after the identity have n+...+n^(k-1) entries. |
| SignatureGeneration.LevelsMembers | asarix/signature_generator.py:148-156 | Every combination after the identity combines a non-empty tuple of reactions shorter than the depth. |
| SignatureGeneration.ReactionProducts | asarix/signature_generator.py:147-158 | The loop over repeat counts 0 .. depth-1: TypeError once a count of 1 is reached without reactions, otherwise the identity followed by every level of named tuples. |
| SignatureGeneration.NewSignatures | asarix/signature_generator.py:172-184 | TypeError without compounds or with depth > 0 and no reactions; ValueError iff some candidate formula is empty; otherwise the strictly positive products, compound-major, numbered from the given id. |
| SignatureGeneration.SignatureGenerator.GenerateSignatures | asarix/signature_generator.py:160-187 | TypeError without compounds (or with depth > 0 and no reactions), and ValueError when some product formula is empty. Otherwise the signatures are replaced by the strictly positive products, compound-major, each with a fresh id, and the uuid map gains them all. |
| SignatureGeneration.AllProducts | asarix/signature_generator.py:175-184 | ValueError exactly when some compound × combination formula is empty, otherwise the strictly positive candidates in compound-major order. |
| SignatureGeneration.ProductsOfCompound | asarix/signature_generator.py:176-184 | The same for one compound's row. |
| SignatureGeneration.CandidateAt | asarix/signature_generator.py:175-177 | Candidate i·m+j is compound i with combination j. |
| SignatureGeneration.KeepPositiveIff | asarix/signature_generator.py:178 | A candidate is kept iff every element count is strictly positive, so an element cancelled to 0 is rejected. |
| SignatureGeneration.IdentityProduct | asarix/signature_generator.py:177 | The identity combination leaves the compound's formula unchanged. |
| SignatureGeneration.ProductUuidsDistinct | asarix/signature_generator.py:179-183 | Distinct products get distinct uuids. |
| SignatureGeneration.MinCount | asarix/signature_generator.py:178 | `min` of a non-empty formula is one of its counts and at most each of them. |
| Ions.ElementOf | asarix/jms_hack/ions.py:51-52 | Deuterium is filed under H and every other symbol is its own element, so no record's element is D. |
| Ions.BuildIsotopeTable | asarix/jms_hack/ions.py:49-70 | An element is in the table iff it has surviving isotopes, and its entry is its survivors sorted by descending abundance, cut to 2 for Sn and Os. |
| Ions.GroupByElement | asarix/jms_hack/ions.py:49-55 | Each element seen maps to its records in input order, and the order lists each element once. |
| Ions.GroupMembers | asarix/jms_hack/ions.py:53-55 | A record is in an element's group iff it is an input record of that element. |
| Ions.EntryOf | asarix/jms_hack/ions.py:58-68 | One element's entry is its survivors sorted by descending abundance and truncated for Sn/Os. |
| Ions.AbundantIsotopes | asarix/jms_hack/ions.py:60-65 | Keeps the isotopes with truthy abundance above 0.005, in order. |
| Ions.SortDescSpec | asarix/jms_hack/ions.py:66 | The sort is by descending abundance and is a permutation. |
| Ions.SurvivorsExist | asarix/jms_hack/ions.py:64-65 | Some isotope survives iff one is abundant. |
| Ions.TableKeys | asarix/jms_hack/ions.py:53-70 | An element has a non-empty entry iff some record of it is abundant. |
| Ions.EntrySpec | asarix/jms_hack/ions.py:64-68 | Entries are sorted descending and every abundance exceeds 0.005. Sn and Os have at most 2 entries, and other elements keep all their survivors. |
| Ions.BuiltTableWellFormed | asarix/jms_hack/ions.py:69-70 | The built table has no empty entry and no unnamed isotope. |
| Ions.GenNeighbors | asarix/jms_hack/ions.py:107-128 | The neighbours are every pick of one candidate per element, in `np.ndindex` order. |
| Ions.ElementLists | asarix/jms_hack/ions.py:109-120 | The candidate lists of the elements, in order. |
| Ions.ElementCandidates | asarix/jms_hack/ions.py:111-120 | One element's candidates: the vector, then each permutation step that leaves no count negative. |
| Ions.NeighborsStartWithSelf | asarix/jms_hack/ions.py:122-123 | The unchanged coordinate is the first neighbour, because the zero test never holds. |
| Ions.SingleIsotopeFixed | asarix/jms_hack/ions.py:113 | An element with one isotope has only itself as a candidate. |
| Ions.StepsCount | asarix/jms_hack/ions.py:115 | There are n! steps for n isotopes, repeats included. |
| Ions.CandidateVectorShape | asarix/jms_hack/ions.py:115-119 | A candidate keeps the vector's length and atom total, and a non-negative vector's candidates are non-negative. |
| Ions.NeighborShape | asarix/jms_hack/ions.py:115-127 | Every neighbour keeps each element's name, slot count and total atom count. |
| Ions.HashInjective | asarix/jms_hack/ions.py:130-131 | Two coordinates of the same elements with equal hashes are equal. |
| Ions.DeltaStringSpec | asarix/jms_hack/ions.py:135-158 | The delta string is '' iff no slot increases, and otherwise is a non-empty parenthesised string. |
| Ions.InnerEmpty | asarix/jms_hack/ions.py:145-154 | The joined slot deltas are empty iff no slot increases. |
| Ions.SlotDeltaEmpty | asarix/jms_hack/ions.py:145-152 | One element's delta is empty iff no paired slot increases. |
| Ions.BumpsEmpty | asarix/jms_hack/ions.py:145-151 | Decreases and equal slots emit nothing, and increases emit something. |
| Ions.DeltaOfReference | asarix/jms_hack/ions.py:135-158 | The reference's own delta string is ''. |
| Ions.Start | asarix/jms_hack/ions.py:162-166 | The start coordinate puts all of each element's atoms in slot 0. |
| Ions.ReferenceMostProbable | asarix/jms_hack/ions.py:168-170 | The reference is the most probable of the start and its neighbours. |
| Ions.PushAll | asarix/jms_hack/ions.py:172-177 | Pushing candidates in order keeps those above the cutoff whose hash is unused, and records their hashes. |
| Ions.PushSpec | asarix/jms_hack/ions.py:172-177 | Pushed entries come from the candidates, carry their probability above the cutoff, are new and have distinct hashes. |
| Ions.PushCount | asarix/jms_hack/ions.py:172-177 | Each push uses up exactly one hash of the finite space. |
| Ions.NeighborInSpace | asarix/jms_hack/ions.py:115-127 | Neighbours stay in the finite space of vectors with the start's totals. |
| Ions.IsotopologueSearch.constructor | asarix/jms_hack/ions.py:161-177 | Sets the start, the reference (the first of the start and its neighbours by descending probability), the initial heap and the used set. |
| Ions.IsotopologueSearch.Next | asarix/jms_hack/ions.py:178-187 | Pops the most probable entry, yields it with its mass and delta, pushes its new neighbours, never yields a hash twice, and shrinks the termination measure. |
| Ions.StepMeasure | asarix/jms_hack/ions.py:178-187 | Each pop-and-push step decreases unused hashes plus heap size, so the search ends. |
| Ions.SearchStartValid | asarix/jms_hack/ions.py:168-177 | The initial heap satisfies the search invariant. |
| Ions.StepKeepsHeapOk | asarix/jms_hack/ions.py:179-187 | The pop-and-push step preserves the search invariant. |
| Ions.YieldedDistinct | asarix/jms_hack/ions.py:175-187 | No coordinate is yielded twice, and every yield is above the cutoff. |
| Ions.Pull | asarix/jms_hack/ions.py:177-186 | One step of the generator: nothing exactly when the heap is empty. Otherwise a new isotopologue above the cutoff, at least as probable as every waiting entry, with its mass, delta string and mass shift against the reference. The new heap and used set are one `Advance` of the old ones, and the yield is the entry `Advance` pops. |
| Ions.DryStays | asarix/jms_hack/ions.py:178 | Once `while iso_heap` finds the heap empty, no later pass changes the state or yields anything: the generator is exhausted. |
| Ions.Consume | asarix/jms_hack/ions.py:215-234 | The yields taken are exactly the first passes of the generator from the search's state (`Popped`), and the search is left in the state after them (`After`). Each yield above the NAP cutoff is labelled; the loop stops at the first at or below it, or with `dry` once the heap is empty. Every yield carries its delta string and mass shift against the reference. |
| Ions.GenerateIonSignature | asarix/jms_hack/ions.py:198-243 | C13-only gives the C13 block. Otherwise, a formula element without isotopes raises KeyError. Else the yields consumed are exactly the first passes of `gen_isotopologues` from its initial heap (cutoff 0). The result is the blocks of the yields before the first at or below the NAP cutoff, or only `;0` labels when every yield is above it, which happens only when the heap is then empty. Yields are distinct, carry their probability, and carry the delta string and mass shift against the reference, so each label and m/z is fixed by its isotopologue. |
| Ions.C13Signature | asarix/jms_hack/ions.py:206-213 | Each adduct gets order 0 and a C13 copy of order 1. |
| Ions.LabelOrder | asarix/jms_hack/ions.py:219-232 | A label splits at ';' into two parts whose second is the isotopologue's index. |
| Ions.BlocksLength | asarix/jms_hack/ions.py:218-232 | Each yield contributes one label per adduct. |
| Combinatorics.PermutationsCount | asarix/jms_hack/ions.py:115 | `itertools.permutations` of n values gives n! tuples. |
| Combinatorics.PermutationShape | asarix/jms_hack/ions.py:115 | Every permutation has the list's length and sum, so a step sums to 0. |
| Combinatorics.CompositionsComplete | asarix/jms_hack/ions.py:178-187 | Every non-negative vector with the start's length and total is in the finite enumeration. |
| Grid.NdIndexMembers | asarix/jms_hack/ions.py:122 | `np.ndindex(dims)` lists exactly the in-bounds index vectors. |
| Grid.NdIndexLength | asarix/jms_hack/ions.py:122 | It lists product(dims) of them. |
| Grid.NdIndexFirst | asarix/jms_hack/ions.py:122-123 | With positive dims, the first index is all zeros. |
| Grid.CrossMembers | asarix/scan_score.py:184-185 | A pick is in the cross product iff it takes one member from each list. |
| Grid.CrossFirst | asarix/jms_hack/ions.py:122-126 | The first pick takes each list's first member. |
| ScanSearch.HitsToFeatureDict | asarix/scan_search.py:64-70 | The grouping of the hits by key: keys in first-appearance order, and per-key points in order. |
| ScanSearch.GroupedSnoc | asarix/scan_search.py:66-69 | One more hit appends its point under its key, and adds the key if it is new. |
| ScanSearch.KeysMembers | asarix/scan_search.py:66-68 | Keys are distinct and are exactly the hits' keys. |
| ScanSearch.PointsOfCount | asarix/scan_search.py:69 | A key holds as many points as there are hits with that key. |
| ScanSearch.GroupedCount | asarix/scan_search.py:66-69 | The number of stored points equals the number of hits. |
| ScanSearch.Ms1 | asarix/scan_search.py:30 | MS1 spectra become scans whose polarity is "pos" or "neg". |
| ScanSearch.Trunc | asarix/scan_search.py:36 | `int()` truncates toward zero. |
| ScanSearch.ScanLevelSearcher.constructor | asarix/scan_search.py:8-12 | The fields before any load: no signatures, with the blanks and samples stored. |
| ScanSearch.ScanLevelSearcher.Create | asarix/scan_search.py:7-12 | `__init__` in full. An empty signature list raises IndexError. Otherwise the searcher is new, holds the blanks and samples, and its signatures are the payload when it is a list headed by a dict, else empty. |
| ScanSearch.ScanLevelSearcher.LoadSignatures | asarix/scan_search.py:14-19 | An empty list raises IndexError. Only a list whose first element is a dict replaces the signatures. |
| ScanSearch.ScanLevelSearcher.MineFile | asarix/scan_search.py:21-52 | The feature file holds the accumulated sigmap, the sample, the last scan number, the grouped hits, the signatures and the mode. |
| ScanSearch.MineScan | asarix/scan_search.py:32-38 | One scan's peaks are searched in order, stopping at the first failure. |
| ScanSearch.RecordMatches | asarix/scan_search.py:35-38 | One peak's matches append hits and add their compound uuids to the sigmap. |
| ScanSearch.RecordAllSpec | asarix/scan_search.py:35-38 | Each match adds the hit `(key, scan, int(i), m, time)`, and every uuid of it lands under its key. Nothing recorded before is lost. |
| ScanSearch.AddUuidsSpec | asarix/scan_search.py:37-38 | A key's set gains the uuids, and other keys are unchanged. |
| ScanSearch.PeaksFromSpec | asarix/scan_search.py:33-38 | The peak loop only extends what was collected, and a failure is sticky. |
| ScanSearch.EnterModes | asarix/scan_search.py:31-32 | Entering a scan adds its polarity to the modes seen. |
| ScanSearch.ScansFromSpec | asarix/scan_search.py:31-38 | The scan loop extends the state and enters every scan unless one fails. The scan number is the index of the last scan entered. |
| ScanSearch.ModeRule | asarix/scan_search.py:48-51 | The mode is None iff no scan was seen, "multiple" iff two polarities were seen, and otherwise the one polarity. |
| ScanSearch.MineSpec | asarix/scan_search.py:25-43 | `max_scan` is the last entered index or 0. Without failure every MS1 scan is entered, and the modes are those of the entered scans. |
| ScanSearch.FailureKeepsPartial | asarix/scan_search.py:28-40 | A search failure keeps every hit and uuid collected before it. |
| ScanScore.Digest | asarix/scan_score.py:92-100 | Every key is kept, with parallel columns of exactly the points above the intensity cutoff, in order. |
| ScanScore.KeptSpec | asarix/scan_score.py:95-98 | A point survives iff its intensity exceeds the cutoff. |
| ScanScore.TopoSortSignatures | asarix/scan_score.py:102-129 | Computes the ladders of the signature keys, or the error the first malformed key raises. |
| ScanScore.CollectOrders | asarix/scan_score.py:104-116 | The first loop: every key parsed and filed under its ladder name by order, or the error of the first malformed key. |
| ScanScore.AssembleLadders | asarix/scan_score.py:117-129 | The second loop: the ladders in first-seen order, each with its run of consecutive orders from 0, and empty runs dropped. |
| ScanScore.TopoSortSpec | asarix/scan_score.py:102-129 | Fails iff some key is malformed. Otherwise the ladders are exactly the keys with an order-0 rung, each listing orders 0, 1, ... up to the first missing order, using the last key given for each order. |
| ScanScore.CollectFails | asarix/scan_score.py:105-116 | Collecting fails iff some key fails to parse. |
| ScanScore.LastWithSpec | asarix/scan_score.py:114-116 | A (ladder, order) pair is filed iff some key parses to it, and the filed key is such a key: a repeat overwrites. |
| ScanScore.LadderRun | asarix/scan_score.py:119-126 | The while loop collects the consecutive orders from 0. |
| ScanScore.RunOfSpec | asarix/scan_score.py:117-128 | A run is non-empty iff order 0 exists, lists the filed keys for orders 0..n-1, and stops at the first missing order. |
| ScanScore.LaddersSpec | asarix/scan_score.py:117-128 | Ladders lacking order 0 are removed, and the others list their runs. |
| ScanScore.LadderKeysFromInput | asarix/scan_score.py:116-123 | Every key in a ladder is an input key. |
| ScanScore.LabelLadder | asarix/scan_score.py:106-113 | A label built by the ion generator parses with its order. Its ladder name drops only the last comma segment, giving the adduct back iff the delta has no comma. |
| ScanScore.LabelAdduct | asarix/scan_score.py:108-111 | Stripping gives the adduct back iff the rest has no comma. |
| ScanScore.ClusterProb | asarix/scan_score.py:261-269 | Computes the product of the ratios, or ZeroDivisionError. |
| ScanScore.ClusterProbSingle | asarix/scan_score.py:264-268 | A cluster of length at most 1 gives 1. |
| ScanScore.ClusterProbFails | asarix/scan_score.py:265-267 | Division by zero happens iff 1 ≤ `max_scans` ≤ length-1. |
| ScanScore.ClusterProbBounds | asarix/scan_score.py:262-269 | With 0 < length ≤ total ≤ `max_scans`, the rarity is in (0, 1]. |
| ScanScore.ClusterSnr | asarix/scan_score.py:271-279 | Empty intensities raise, and otherwise the result is max > min × cutoff. |
| ScanScore.ClusterSnrSpec | asarix/scan_score.py:279 | True iff some intensity exceeds min × cutoff. |
| ScanScore.ZipSpec | asarix/scan_score.py:168-170 | `dict(zip)` keeps every scan as a key and the last value for a repeated scan. |
| ScanScore.LookupAll | asarix/scan_score.py:202 | Looking up scans succeeds iff all are keys, giving their values in order. |
| ScanScore.Layers | asarix/scan_score.py:166-172 | The per-isotope maps exist iff every isotope key was digested. |
| ScanScore.LayersFor | asarix/scan_score.py:166-172 | The loop builds those maps. |
| ScanScore.LayersAligned | asarix/scan_score.py:166-174 | The three maps of an isotope are well formed and share their keys, and every scan of its scan sets is one of those keys, since `consecutive_scans` runs over the dict's own keys. |
| ScanScore.FilterEmpty | asarix/scan_score.py:174-181 | The scan-set lists up to the first empty one. |
| ScanScore.Leading | asarix/scan_score.py:175-181 | It is a prefix whose members are non-empty, followed by an empty list or the end. |
| ScanScore.ApexSpec | asarix/scan_score.py:193-198 | The apex is the first strictly highest intensity among the set's scans, with none when all are 0. |
| ScanScore.Intensities | asarix/scan_score.py:202 | The intensities of each working set, looked up per rung. |
| ScanScore.Probs | asarix/scan_score.py:204 | One rarity per rung, failing iff one divides by zero. |
| ScanScore.Snrs | asarix/scan_score.py:205 | One SNR test per rung, failing iff a rung is empty. |
| ScanScore.CorrInputSelf | asarix/scan_score.py:208-211 | The correlation input of rung 0 is its own intensities. |
| ScanScore.Correlations | asarix/scan_score.py:207-214 | One correlation per rung. |
| ScanScore.Evaluate | asarix/scan_score.py:191-214 | The subscores of one combination, with the region key of rung 0's width. |
| ScanScore.Weigh | asarix/scan_score.py:216-226 | The total is 0 unless rung 0 passes SNR, and otherwise Σ(1-prob)×corr with corr zeroed unless > 0.5. The integral sums the rungs with non-zero corr. |
| ScanScore.TotalPositive | asarix/scan_score.py:218-226 | A positive total needs rung 0 to pass SNR and a rung with corr > 0.5 and prob < 1. |
| ScanScore.WeightedNonNegative | asarix/scan_score.py:222-223 | Each rarity term is non-negative. |
| ScanScore.OfferCombination | asarix/scan_score.py:199-200 | Offers one combination to the best-per-region table. |
| ScanScore.OfferListed | asarix/scan_score.py:199-232 | A region starts at (0,0) and is replaced only by a strictly greater total. Other regions are unchanged. |
| ScanScore.ScoreCombinations | asarix/scan_score.py:184-232 | The combination walk over `np.ndindex`. |
| ScanScore.ScoreAllSpec | asarix/scan_score.py:184-232 | When the loop completes, each region is listed once and holds at least every one of its combinations' totals. A scored region holds a positive total together with the window, frequency, integral and m/z of the first combination of that region to reach the highest total (replacement needs a strictly larger total). |
| ScanScore.ScoreSignature | asarix/scan_score.py:160-233 | Computes a ladder's best-per-region table, or the exception. |
| ScanScore.ScoreSignatureSpec | asarix/scan_score.py:183-232 | Every evaluated combination's region is listed with at least its total, and every scored region has a positive total. |
| ScanScore.GrowthNotSkipped | asarix/scan_score.py:186-189 | A combination whose sets grow in length is still scored: the skip has no effect. |
| ScanScore.Filter | asarix/scan_score.py:139-152 | Only regions with score > 0 are reported. |
| ScanScore.EmittedSpec | asarix/scan_score.py:139-152 | The reports are exactly the regions with positive scores. |
| ScanScore.BoardSpec | asarix/scan_score.py:137-152 | Each ladder with a reported region appears with its reports, and nothing else appears. |
| ScanScore.BoardComplete | asarix/scan_score.py:137-152 | Every ladder scores, and the board lists exactly the ladders with reported regions. |
| ScanScore.Credit | asarix/scan_score.py:245-248 | A uuid gains a score, starting from 0. |
| ScanScore.CreditUuids | asarix/scan_score.py:245-248 | The loop over one key's uuids. |
| ScanScore.CreditAllSpec | asarix/scan_score.py:244-248 | A ladder's uuids each gain the sum of its region scores. |
| ScanScore.SigScoresFails | asarix/scan_score.py:241-248 | KeyError iff some ladder with reported regions has no sigmap entry. |
| ScanScore.CreditedSnoc | asarix/scan_score.py:241-248 | A uuid is credited by a longer board iff an earlier ladder or the new one lists it. |
| ScanScore.SigScoresSpec | asarix/scan_score.py:241-248 | The uuids scored are those listed by a ladder with reports, each with the sum it is owed. |
| ScanScore.KeepSpec | asarix/scan_score.py:249-256 | The signature map keeps exactly the entries whose uuid got a score, with that score. |
| ScanScore.ConsolidateSigScores | asarix/scan_score.py:235-258 | Routes the ladder scores to uuids and keeps the scored signatures. |
| ScanScore.ConsolidatedSpec | asarix/scan_score.py:235-258 | Every kept entry is an input entry rescored with the total owed to its uuid. |
| ScanScore.ConsolidatedKeyRoundTrip | asarix/scan_score.py:242 | Without `_M` elsewhere, the rewrite turns a ladder name back into its order-0 key. |
| ScanScore.ParentUnderscoreLost | asarix/scan_score.py:242 | A parent id containing `_M` is rewritten too, so its key is not found. |
| ScanScore.ReplaceBoth | asarix/scan_score.py:242 | `replace` rewrites every occurrence. |
| ScanScore.ScoreSignatures | asarix/scan_score.py:131-158 | Computes the scores file from the feature file, or the exception. |
| ScanScore.ScoreFileSpec | asarix/scan_score.py:131-158 | The report lists the ladders' positive regions and the consolidated signature map, and copies the sample, max scan and mode. |
| Experiment.Experiment.constructor | asarix/experiment.py:10-15 | Starts with no samples, blanks, study samples or feature table. |
| Experiment.Experiment.PartitionSamples | asarix/experiment.py:43-55 | With samples, each is appended to blanks or study samples, never reset. Without samples, a feature table raises ValueError. |
| Experiment.PartitionSpec | asarix/experiment.py:44-49 | Every sample is placed exactly once: blanks are the samples whose lower-cased file name contains the substring, and the study samples are the rest. |
| Experiment.PartitionAppend | asarix/experiment.py:44-49 | Splitting a concatenation of samples gives the split of each part, one after the other, for both lists: the sample order is kept. |
| Experiment.UpperNeverBlank | asarix/experiment.py:46 | A substring with an upper-case letter never matches, so every sample is a study sample. |

## Left out

- File and JSON I/O are left out: signature files, the scans JSON, the scores JSON, `save_signatures`, `export_feature_dict`, `save_scan_data`, `filter_inputs`, sample registration and the NIST isotope file. The model takes and returns the values instead, and output file names are not modelled.
- Multiprocessing pools, tqdm progress bars and logging are left out; they do not change results.
- Floating-point arithmetic is not modelled. Masses, probabilities, the multinomial pmf and Spearman correlation are parameters, and reals stand for floats. Spearman's NaN-to-0 step is assumed inside the parameter, and numpy's mean of an empty list is not modelled.
- `calc_mass` appends a cached element mass twice on a cache hit. Masses are a parameter, so this defect is not reproduced.
- Equal probabilities in the heap would make Python compare dicts (TypeError). The model breaks ties by heap position instead.
- The memo caches in ions.py are modelled as plain functions, since they only affect speed. The `int16` arrays are unbounded integers, so overflow for huge atom counts is not modelled.
- `int()` on an order string accepts an optional sign and decimal digits only. Python's whitespace and underscore forms are not modelled.
- ScanScore.ClusterSnr: only the default max/min modes are modelled.
- ScanScore.Evaluate requires the per-isotope maps to be aligned with their scan sets, which `LayersAligned` proves for every digested ladder.
- In `consolidate_sig_scores`, the `score = 0` written onto dropped entries is not modelled: those entries are discarded and never observed again.
- Sigmap uuid lists are modelled as sets, so their order is not modelled.
- Dict iteration order inside `sum_formula_dicts` does not affect the sums, so the model visits keys in an unspecified order.
- The constructor asserts of `SignatureGenerator` check list-or-None types. Lists and `Option`s are what the model takes, so these asserts cannot fail, and a compound list of `None` is taken as the empty list (both are falsy). `__initialize_reactions` and `__initialize_signatures` only log, so they are not modelled.
- Reactions are records with a name and a formula of integer counts. A reaction dict without `reaction_name` or `formula_dict` (KeyError), or with a non-integer count (AssertionError from `sum_formula_dicts`), is not modelled.
- The default `reaction_depth=3` of `generate_signatures` is not modelled; the depth is always passed.
- Ions.GenerateIonSignature: the order of the generated isotopologues is stated one step at a time (each is at least as probable as every entry waiting in the heap, in `Ions.Pull`). It is not stated as a global descending order, since the probability is an arbitrary parameter and a neighbour pushed later may be more probable.
- The `KCD` mass-search object of `ScanLevelSearcher` is the `search` parameter of `MineFile`, not a field.
- Experiment.PartitionSamples: the default `blank_substring="blank"` is not modelled; the substring is always passed.
- Experiment.PartitionSamples: the feature-table branch (`columns[11:]`) is not modelled beyond its ValueError, because testing a data frame for truth always raises.
- Lower-casing covers ASCII letters only.
- `generate_ion_signature2` and the adduct computation are left out. Adducts are inputs.
