/**
 * Scan-level searching of one mzML file: every MS1 peak is looked up in the
 * signature mass index, each match becomes a hit keyed by its signature, hits
 * are grouped by key, and the signature-to-compound map and polarity mode are
 * collected alongside. The mzML reader and the mass search are parameters.
 */
module ScanSearch {
  import opened Wrappers
  import opened Json

  /** A hit without its key: scan index, truncated intensity, m/z, scan time in seconds. */
  datatype Point = Point(scan: int, intensity: int, mz: real, time: real)

  /** `(key, scan_no, int(i), m, scan_time)`. */
  datatype Hit = Hit(key: string, point: Point)

  /** A dict from signature key to the hits under it, with its keys in insertion order. */
  datatype Grouping = Grouping(keys: seq<string>, points: map<string, seq<Point>>)

  // ---------------------------------------------------------------------------
  // hits_to_feature_dict
  // ---------------------------------------------------------------------------

  /** The keys of `hits` in order of first appearance. */
  function Keys(hits: seq<Hit>): seq<string>
  {
    if |hits| == 0 then []
    else
      var ks := Keys(hits[..|hits| - 1]);
      if hits[|hits| - 1].key in ks then ks else ks + [hits[|hits| - 1].key]
  }

  /** The hits under key `k`, in order, without their key. */
  function PointsOf(hits: seq<Hit>, k: string): seq<Point>
  {
    if |hits| == 0 then []
    else PointsOf(hits[..|hits| - 1], k) + (if hits[|hits| - 1].key == k then [hits[|hits| - 1].point] else [])
  }

  function Grouped(hits: seq<Hit>): Grouping
  {
    var ks := Keys(hits);
    Grouping(ks, map k | k in ks :: PointsOf(hits, k))
  }

  predicate Distinct<T(==)>(s: seq<T>)
  {
    forall i, j :: 0 <= i < j < |s| ==> s[i] != s[j]
  }

  /** Groups hits by key: keys in order of first appearance, each key's hits in input order. */
  method HitsToFeatureDict(hits: seq<Hit>) returns (fd: Grouping)
    ensures fd == Grouped(hits)
  {
    fd := Grouping([], map[]);
    var n := 0;
    while n < |hits|
      invariant 0 <= n <= |hits|
      invariant fd == Grouped(hits[..n])
    {
      var hit := hits[n];
      assert hits[..n + 1] == hits[..n] + [hit];
      GroupedSnoc(hits[..n], hit);
      if hit.key !in fd.points {
        fd := Grouping(fd.keys + [hit.key], fd.points[hit.key := []]);
      }
      fd := fd.(points := fd.points[hit.key := fd.points[hit.key] + [hit.point]]);
      n := n + 1;
    }
    assert hits[..n] == hits;
  }

  /** One more hit: its key is appended if new, and its point appended under its key. */
  lemma GroupedSnoc(hits: seq<Hit>, h: Hit)
    ensures var g := Grouped(hits);
      Grouped(hits + [h]) ==
        Grouping(if h.key in g.points then g.keys else g.keys + [h.key],
                 g.points[h.key := (if h.key in g.points then g.points[h.key] else []) + [h.point]])
  {
    var all := hits + [h];
    assert all[..|all| - 1] == hits;
    var g := Grouped(hits);
    var r := Grouped(all);
    if h.key !in Keys(hits) {
      KeysMembers(hits);
      CountKeyAbsent(hits, h.key);
      PointsOfCount(hits, h.key);
    }
    var m := g.points[h.key := (if h.key in g.points then g.points[h.key] else []) + [h.point]];
    assert r.keys == (if h.key in g.points then g.keys else g.keys + [h.key]);
    forall k | k in r.points ensures k in m && r.points[k] == m[k] {
      assert r.points[k] == PointsOf(all, k);
    }
    assert r.points.Keys == m.Keys;
  }

  /** Every key of the input occurs once among the grouped keys, and nothing else does. */
  lemma KeysMembers(hits: seq<Hit>)
    ensures Distinct(Keys(hits))
    ensures forall k :: k in Keys(hits) <==> exists i :: 0 <= i < |hits| && hits[i].key == k
  {
    KeysDistinct(hits);
    forall k | k in Keys(hits) ensures exists i :: 0 <= i < |hits| && hits[i].key == k {
      var i := KeysWitness(hits, k);
    }
    forall k | exists i :: 0 <= i < |hits| && hits[i].key == k ensures k in Keys(hits) {
      var i :| 0 <= i < |hits| && hits[i].key == k;
      KeysHit(hits, i);
    }
  }

  lemma {:induction false} KeysDistinct(hits: seq<Hit>)
    ensures Distinct(Keys(hits))
  {
    if |hits| > 0 {
      KeysDistinct(hits[..|hits| - 1]);
    }
  }

  lemma {:induction false} KeysHit(hits: seq<Hit>, i: nat)
    requires i < |hits|
    ensures hits[i].key in Keys(hits)
  {
    var n := |hits| - 1;
    if i < n {
      var init := hits[..n];
      assert init[i] == hits[i];
      KeysHit(init, i);
    }
  }

  lemma {:induction false} KeysWitness(hits: seq<Hit>, k: string) returns (i: nat)
    requires k in Keys(hits)
    ensures i < |hits| && hits[i].key == k
  {
    var n := |hits| - 1;
    var init := hits[..n];
    if k in Keys(init) {
      i := KeysWitness(init, k);
      assert init[i] == hits[i];
    } else {
      i := n;
    }
  }

  /** The number of hits under `k`. */
  function CountKey(hits: seq<Hit>, k: string): nat
  {
    if |hits| == 0 then 0 else CountKey(hits[..|hits| - 1], k) + (if hits[|hits| - 1].key == k then 1 else 0)
  }

  /** The hits stored under a key are exactly as many as the input hits with that key. */
  lemma {:induction false} PointsOfCount(hits: seq<Hit>, k: string)
    ensures |PointsOf(hits, k)| == CountKey(hits, k)
  {
    if |hits| > 0 {
      PointsOfCount(hits[..|hits| - 1], k);
    }
  }

  /** The total of the counts under the keys `ks`. */
  function Stored(hits: seq<Hit>, ks: seq<string>): nat
  {
    if |ks| == 0 then 0 else Stored(hits, ks[..|ks| - 1]) + CountKey(hits, ks[|ks| - 1])
  }

  /** Adding a hit under a key of `ks` raises the total for `ks` by one; under another key, not at all. */
  lemma {:induction false} StoredSnoc(hits: seq<Hit>, h: Hit, ks: seq<string>)
    requires Distinct(ks)
    ensures Stored(hits + [h], ks) == Stored(hits, ks) + (if h.key in ks then 1 else 0)
  {
    var all := hits + [h];
    assert all[..|all| - 1] == hits;
    if |ks| > 0 {
      var init := ks[..|ks| - 1];
      assert Distinct(init);
      StoredSnoc(hits, h, init);
      assert h.key in ks <==> h.key in init || h.key == ks[|ks| - 1];
      assert h.key == ks[|ks| - 1] ==> h.key !in init;
    }
  }

  /** A key absent from `hits` adds nothing to the total. */
  lemma {:induction false} CountKeyAbsent(hits: seq<Hit>, k: string)
    requires forall i :: 0 <= i < |hits| ==> hits[i].key != k
    ensures CountKey(hits, k) == 0
  {
    if |hits| > 0 {
      CountKeyAbsent(hits[..|hits| - 1], k);
    }
  }

  /** No hit is lost or duplicated: the stored entries number exactly the input hits. */
  lemma {:induction false} GroupedCount(hits: seq<Hit>)
    ensures Stored(hits, Keys(hits)) == |hits|
  {
    if |hits| > 0 {
      var init := hits[..|hits| - 1];
      var h := hits[|hits| - 1];
      assert hits == init + [h];
      GroupedCount(init);
      KeysMembers(init);
      KeysMembers(hits);
      StoredSnoc(init, h, Keys(hits));
      if h.key !in Keys(init) {
        CountKeyAbsent(init, h.key);
        assert Keys(hits) == Keys(init) + [h.key];
        assert Keys(hits)[..|Keys(hits)| - 1] == Keys(init);
      }
    }
  }

  // ---------------------------------------------------------------------------
  // mine_file
  // ---------------------------------------------------------------------------

  /** A spectrum as the mzML reader yields it. */
  datatype Spectrum = Spectrum(msLevel: int, positive: bool, minutes: real, mzs: seq<real>, intensities: seq<real>)

  /** An MS1 scan: polarity mode, time in seconds, peak m/z values and intensities. */
  datatype Scan = Scan(mode: string, time: real, mzs: seq<real>, intensities: seq<real>)

  /** One result of the mass search: the signature it belongs to and the compounds listed under it. */
  datatype Match = Match(interimId: string, ionRelation: string, uuids: seq<string>)

  /** The MS1 spectra, in order, with polarity as "pos"/"neg" and time in seconds. */
  function Ms1(spectra: seq<Spectrum>): (r: seq<Scan>)
    ensures forall j :: 0 <= j < |r| ==> r[j].mode == "pos" || r[j].mode == "neg"
  {
    if |spectra| == 0 then []
    else
      var s := spectra[|spectra| - 1];
      Ms1(spectra[..|spectra| - 1]) +
        (if s.msLevel == 1 then [Scan(if s.positive then "pos" else "neg", s.minutes * 60.0, s.mzs, s.intensities)] else [])
  }

  /** `int(x)` on a float: truncation toward zero. */
  function Trunc(x: real): (r: int)
    ensures x >= 0.0 ==> r as real <= x < r as real + 1.0
    ensures x < 0.0 ==> r as real - 1.0 < x <= r as real
  {
    if x >= 0.0 then x.Floor else -((-x).Floor)
  }

  /** `zip(mzs, intensities)` stops at the shorter list. */
  function PeakCount(s: Scan): nat
  {
    if |s.mzs| <= |s.intensities| then |s.mzs| else |s.intensities|
  }

  /**
   * The loop state: hits so far, signature key to compound uuids, the index of
   * the last scan entered, how many scans were entered, the modes seen (no
   * repeats), and whether an exception ended the loop.
   */
  datatype Mined = Mined(hits: seq<Hit>, sigmap: map<string, set<string>>, scanNo: int, entered: nat,
                         modes: seq<string>, failed: bool)

  const Fresh := Mined([], map[], 0, 0, [], false)

  function SigKey(t: Match): string
  {
    t.interimId + "$" + t.ionRelation
  }

  function Get(sm: map<string, set<string>>, k: string): set<string>
  {
    if k in sm then sm[k] else {}
  }

  /** Each uuid added to the set under `k`, one at a time. */
  function AddUuids(sm: map<string, set<string>>, k: string, uuids: seq<string>): map<string, set<string>>
  {
    if |uuids| == 0 then sm
    else
      var s := AddUuids(sm, k, uuids[..|uuids| - 1]);
      s[k := Get(s, k) + {uuids[|uuids| - 1]}]
  }

  /** The search results of one peak: a hit for each, and each one's compounds under its key. */
  function RecordAll(st: Mined, ts: seq<Match>, scanNo: int, m: real, i: real, time: real): Mined
  {
    if |ts| == 0 then st
    else
      var s := RecordAll(st, ts[..|ts| - 1], scanNo, m, i, time);
      var t := ts[|ts| - 1];
      s.(hits := s.hits + [Hit(SigKey(t), Point(scanNo, Trunc(i), m, time))],
         sigmap := AddUuids(s.sigmap, SigKey(t), t.uuids))
  }

  /** The peaks of scan `scanNo` from peak `p` on; a failing search ends everything. */
  function PeaksFrom(st: Mined, scan: Scan, scanNo: int, search: (real, string) -> Result<seq<Match>>, p: nat): Mined
    requires p <= PeakCount(scan)
    decreases PeakCount(scan) - p
  {
    if p == PeakCount(scan) then st
    else match search(scan.mzs[p], scan.mode)
      case Err(_) => st.(failed := true)
      case Ok(ts) => PeaksFrom(RecordAll(st, ts, scanNo, scan.mzs[p], scan.intensities[p], scan.time), scan, scanNo, search, p + 1)
  }

  function AddMode(modes: seq<string>, m: string): seq<string>
  {
    if m in modes then modes else modes + [m]
  }

  /** Entering scan `n`: its index becomes the scan number and its mode is added. */
  function Enter(st: Mined, scans: seq<Scan>, n: nat): Mined
    requires n < |scans|
  {
    st.(scanNo := n, entered := n + 1, modes := AddMode(st.modes, scans[n].mode))
  }

  /** The scans from `n` on, stopping at the first failure. */
  function ScansFrom(st: Mined, scans: seq<Scan>, search: (real, string) -> Result<seq<Match>>, n: nat): Mined
    requires n <= |scans|
    decreases |scans| - n
  {
    if n == |scans| then st
    else
      var s := PeaksFrom(Enter(st, scans, n), scans[n], n, search, 0);
      if s.failed then s else ScansFrom(s, scans, search, n + 1)
  }

  /** The whole loop; a reader that fails before the first scan leaves the fresh state. */
  function Mine(reader: Result<seq<Spectrum>>, search: (real, string) -> Result<seq<Match>>): Mined
  {
    match reader
    case Err(_) => Fresh.(failed := true)
    case Ok(spectra) => ScansFrom(Fresh, Ms1(spectra), search, 0)
  }

  /** `list(modes)[0]` when one mode was seen, "multiple" for more, None for none. */
  function ModeOf(modes: seq<string>): Option<string>
  {
    if |modes| == 0 then None else if |modes| == 1 then Some(modes[0]) else Some("multiple")
  }

  /** The result of `mine_file`. */
  datatype FeatureFile = FeatureFile(sigmap: map<string, set<string>>, sample: string, maxScan: int,
                                     hits: Grouping, signatureMap: seq<Entry>, mode: Option<string>)

  /** What `load_signatures` is handed once any `.json` path has been read: a list, or anything else. */
  datatype Payload = Items(entries: seq<Entry>) | Scalar

  class ScanLevelSearcher {
    var signatures: seq<Entry>
    const blanks: seq<string>
    const samples: seq<string>

    /** The fields of a new searcher before its signatures are loaded. */
    constructor (blanks: seq<string>, samples: seq<string>)
      ensures signatures == [] && this.blanks == blanks && this.samples == samples
    {
      signatures := [];
      this.blanks := blanks;
      this.samples := samples;
    }

    /**
     * Building a searcher: no signatures, then the payload loaded, then the
     * blanks and samples stored. An empty list makes the construction raise
     * IndexError; a list headed by a dict becomes the signatures.
     */
    static method Create(payload: Payload, blanks: seq<string>, samples: seq<string>) returns (r: Result<ScanLevelSearcher>)
      ensures r.Err? <==> payload.Items? && payload.entries == []
      ensures r.Err? ==> r.error == IndexError
      ensures r.Ok? ==> fresh(r.value) && r.value.blanks == blanks && r.value.samples == samples
      ensures r.Ok? ==> r.value.signatures == (if payload.Items? && payload.entries[0].Dict? then payload.entries else [])
    {
      var searcher := new ScanLevelSearcher(blanks, samples);
      var o := searcher.LoadSignatures(payload);
      if o.Fail? {
        return Err(o.error);
      }
      return Ok(searcher);
    }

    /**
     * A list whose first element is a dict replaces the signatures; an empty
     * list raises IndexError; anything else is ignored.
     */
    method LoadSignatures(payload: Payload) returns (o: Outcome)
      modifies this
      ensures payload.Items? && payload.entries == [] ==> o == Fail(IndexError)
      ensures !(payload.Items? && payload.entries == []) ==> o == Pass
      ensures payload.Items? && payload.entries != [] && payload.entries[0].Dict? ==> signatures == payload.entries
      ensures !(payload.Items? && payload.entries != [] && payload.entries[0].Dict?) ==> signatures == old(signatures)
    {
      match payload
      case Scalar =>
        return Pass;
      case Items(entries) =>
        if |entries| == 0 {
          return Fail(IndexError);
        }
        if entries[0].Dict? {
          signatures := entries;
        }
        return Pass;
    }

    /**
     * Mines one file: every peak of every MS1 scan is searched and each match
     * recorded; any exception ends the loop but keeps what was collected.
     */
    method MineFile(infile: string, reader: Result<seq<Spectrum>>, search: (real, string) -> Result<seq<Match>>)
      returns (fd: FeatureFile)
      ensures var st := Mine(reader, search);
        fd == FeatureFile(st.sigmap, infile, st.scanNo, Grouped(st.hits), signatures, ModeOf(st.modes))
    {
      var st := Fresh;
      if reader.Ok? {
        var scans := Ms1(reader.value);
        var n := 0;
        while n < |scans|
          invariant 0 <= n <= |scans|
          invariant !st.failed
          invariant ScansFrom(Fresh, scans, search, 0) == ScansFrom(st, scans, search, n)
          decreases |scans| - n
        {
          st := Enter(st, scans, n);
          st := MineScan(st, scans[n], n, search);
          if st.failed {
            break;
          }
          n := n + 1;
        }
      } else {
        st := st.(failed := true);
      }
      var grouped := HitsToFeatureDict(st.hits);
      fd := FeatureFile(st.sigmap, infile, st.scanNo, grouped, signatures, ModeOf(st.modes));
    }
  }

  /** The peaks of one scan. */
  method MineScan(st: Mined, scan: Scan, scanNo: int, search: (real, string) -> Result<seq<Match>>) returns (r: Mined)
    ensures r == PeaksFrom(st, scan, scanNo, search, 0)
  {
    r := st;
    var p := 0;
    while p < PeakCount(scan)
      invariant 0 <= p <= PeakCount(scan)
      invariant PeaksFrom(st, scan, scanNo, search, 0) == PeaksFrom(r, scan, scanNo, search, p)
      decreases PeakCount(scan) - p
    {
      var m := scan.mzs[p];
      var result := search(m, scan.mode);
      if result.Err? {
        return r.(failed := true);
      }
      r := RecordMatches(r, result.value, scanNo, m, scan.intensities[p], scan.time);
      p := p + 1;
    }
  }

  /** The matches of one peak. */
  method RecordMatches(st: Mined, ts: seq<Match>, scanNo: int, m: real, i: real, time: real) returns (r: Mined)
    ensures r == RecordAll(st, ts, scanNo, m, i, time)
  {
    r := st;
    var k := 0;
    while k < |ts|
      invariant 0 <= k <= |ts|
      invariant r == RecordAll(st, ts[..k], scanNo, m, i, time)
    {
      var t := ts[k];
      assert ts[..k + 1][..k] == ts[..k];
      var key := t.interimId + "$" + t.ionRelation;
      var hits := r.hits + [Hit(key, Point(scanNo, Trunc(i), m, time))];
      var sm := r.sigmap;
      var u := 0;
      while u < |t.uuids|
        invariant 0 <= u <= |t.uuids|
        invariant sm == AddUuids(r.sigmap, key, t.uuids[..u])
      {
        assert t.uuids[..u + 1][..u] == t.uuids[..u];
        sm := sm[key := Get(sm, key) + {t.uuids[u]}];
        u := u + 1;
      }
      assert t.uuids[..u] == t.uuids;
      r := r.(hits := hits, sigmap := sm);
      k := k + 1;
    }
    assert ts[..k] == ts;
  }

  // ---------------------------------------------------------------------------
  // Properties of the mining loop
  // ---------------------------------------------------------------------------

  /** A later state keeps every hit of an earlier one, in place, and every uuid under every key. */
  predicate Extends(a: Mined, b: Mined)
  {
    && |a.hits| <= |b.hits| && b.hits[..|a.hits|] == a.hits
    && (forall k :: k in a.sigmap ==> k in b.sigmap && a.sigmap[k] <= b.sigmap[k])
  }

  lemma ExtendsTrans(a: Mined, b: Mined, c: Mined)
    requires Extends(a, b) && Extends(b, c)
    ensures Extends(a, c)
  {
    assert c.hits[..|b.hits|][..|a.hits|] == c.hits[..|a.hits|];
  }

  lemma AddUuidsSpec(sm: map<string, set<string>>, k: string, uuids: seq<string>)
    ensures var r := AddUuids(sm, k, uuids);
      && (|uuids| > 0 ==> k in r && r[k] == Get(sm, k) + set u | u in uuids)
      && (forall j :: j != k ==> (j in r <==> j in sm) && (j in sm ==> r[j] == sm[j]))
      && (|uuids| == 0 ==> r == sm)
  {
    AddUuidsKey(sm, k, uuids);
    AddUuidsOthers(sm, k, uuids);
  }

  lemma {:induction false} AddUuidsKey(sm: map<string, set<string>>, k: string, uuids: seq<string>)
    ensures |uuids| > 0 ==> k in AddUuids(sm, k, uuids)
    ensures |uuids| == 0 ==> AddUuids(sm, k, uuids) == sm
    ensures forall u :: u in Get(AddUuids(sm, k, uuids), k) <==> u in Get(sm, k) || u in uuids
  {
    if |uuids| > 0 {
      var init := uuids[..|uuids| - 1];
      AddUuidsKey(sm, k, init);
      assert uuids == init + [uuids[|uuids| - 1]];
    }
  }

  lemma {:induction false} AddUuidsOthers(sm: map<string, set<string>>, k: string, uuids: seq<string>)
    ensures forall j :: j != k ==> (j in AddUuids(sm, k, uuids) <==> j in sm) && (j in sm ==> AddUuids(sm, k, uuids)[j] == sm[j])
  {
    if |uuids| > 0 {
      AddUuidsOthers(sm, k, uuids[..|uuids| - 1]);
    }
  }

  /**
   * One peak's matches append a hit per match, in order, each with its
   * signature key and the peak's scan, truncated intensity, m/z and time; the
   * compounds of each match join the set under its key.
   */
  lemma RecordAllSpec(st: Mined, ts: seq<Match>, scanNo: int, m: real, i: real, time: real)
    ensures var r := RecordAll(st, ts, scanNo, m, i, time);
      && r.hits == st.hits + seq(|ts|, j requires 0 <= j < |ts| => Hit(SigKey(ts[j]), Point(scanNo, Trunc(i), m, time)))
      && Extends(st, r)
      && (forall j :: 0 <= j < |ts| && |ts[j].uuids| > 0 ==> SigKey(ts[j]) in r.sigmap && (set u | u in ts[j].uuids) <= r.sigmap[SigKey(ts[j])])
      && r.scanNo == st.scanNo && r.entered == st.entered && r.modes == st.modes && r.failed == st.failed
  {
    RecordAllHits(st, ts, scanNo, m, i, time);
    RecordAllExtends(st, ts, scanNo, m, i, time);
    var r := RecordAll(st, ts, scanNo, m, i, time);
    forall j | 0 <= j < |ts| && |ts[j].uuids| > 0
      ensures SigKey(ts[j]) in r.sigmap && (set u | u in ts[j].uuids) <= r.sigmap[SigKey(ts[j])]
    {
      RecordAllUuids(st, ts, scanNo, m, i, time, j);
    }
  }

  lemma {:induction false} RecordAllHits(st: Mined, ts: seq<Match>, scanNo: int, m: real, i: real, time: real)
    ensures var r := RecordAll(st, ts, scanNo, m, i, time);
      && r.hits == st.hits + seq(|ts|, j requires 0 <= j < |ts| => Hit(SigKey(ts[j]), Point(scanNo, Trunc(i), m, time)))
      && r.scanNo == st.scanNo && r.entered == st.entered && r.modes == st.modes && r.failed == st.failed
  {
    if |ts| > 0 {
      RecordAllHits(st, ts[..|ts| - 1], scanNo, m, i, time);
    }
  }

  /** One match more keeps every hit and every uuid. */
  lemma RecordOneExtends(s: Mined, t: Match, scanNo: int, m: real, i: real, time: real)
    ensures Extends(s, s.(hits := s.hits + [Hit(SigKey(t), Point(scanNo, Trunc(i), m, time))],
                          sigmap := AddUuids(s.sigmap, SigKey(t), t.uuids)))
  {
    var key := SigKey(t);
    AddUuidsKey(s.sigmap, key, t.uuids);
    AddUuidsOthers(s.sigmap, key, t.uuids);
    var sm := AddUuids(s.sigmap, key, t.uuids);
    if key in s.sigmap && |t.uuids| > 0 {
      assert Get(s.sigmap, key) == s.sigmap[key] && Get(sm, key) == sm[key];
    }
    var hits := s.hits + [Hit(key, Point(scanNo, Trunc(i), m, time))];
    assert hits[..|s.hits|] == s.hits;
  }

  lemma {:induction false} RecordAllExtends(st: Mined, ts: seq<Match>, scanNo: int, m: real, i: real, time: real)
    ensures Extends(st, RecordAll(st, ts, scanNo, m, i, time))
  {
    if |ts| > 0 {
      var init := ts[..|ts| - 1];
      RecordAllExtends(st, init, scanNo, m, i, time);
      var s := RecordAll(st, init, scanNo, m, i, time);
      RecordOneExtends(s, ts[|ts| - 1], scanNo, m, i, time);
      ExtendsTrans(st, s, RecordAll(st, ts, scanNo, m, i, time));
    }
  }

  lemma {:induction false} RecordAllUuids(st: Mined, ts: seq<Match>, scanNo: int, m: real, i: real, time: real, j: nat)
    requires j < |ts| && |ts[j].uuids| > 0
    ensures var r := RecordAll(st, ts, scanNo, m, i, time);
      SigKey(ts[j]) in r.sigmap && forall u :: u in ts[j].uuids ==> u in r.sigmap[SigKey(ts[j])]
  {
    var n := |ts| - 1;
    var init := ts[..n];
    var t := ts[n];
    var s := RecordAll(st, init, scanNo, m, i, time);
    AddUuidsKey(s.sigmap, SigKey(t), t.uuids);
    if j < n {
      assert init[j] == ts[j];
      RecordAllUuids(st, init, scanNo, m, i, time, j);
      RecordOneExtends(s, t, scanNo, m, i, time);
    }
  }

  /** Every key in the compound map is the key of some hit. */
  predicate Consistent(st: Mined)
  {
    forall k :: k in st.sigmap ==> exists h :: h in st.hits && h.key == k
  }

  lemma {:induction false} RecordAllConsistent(st: Mined, ts: seq<Match>, scanNo: int, m: real, i: real, time: real)
    requires Consistent(st)
    ensures Consistent(RecordAll(st, ts, scanNo, m, i, time))
  {
    if |ts| > 0 {
      var init := ts[..|ts| - 1];
      var t := ts[|ts| - 1];
      RecordAllConsistent(st, init, scanNo, m, i, time);
      var s := RecordAll(st, init, scanNo, m, i, time);
      AddUuidsSpec(s.sigmap, SigKey(t), t.uuids);
      var r := RecordAll(st, ts, scanNo, m, i, time);
      var h := Hit(SigKey(t), Point(scanNo, Trunc(i), m, time));
      assert h in r.hits;
      forall k | k in r.sigmap ensures exists x :: x in r.hits && x.key == k {
        if k != SigKey(t) {
          var x :| x in s.hits && x.key == k;
          assert x in r.hits;
        }
      }
    }
  }

  lemma {:induction false} PeaksFromSpec(st: Mined, scan: Scan, scanNo: int, search: (real, string) -> Result<seq<Match>>, p: nat)
    requires p <= PeakCount(scan)
    ensures var r := PeaksFrom(st, scan, scanNo, search, p);
      && Extends(st, r) && (Consistent(st) ==> Consistent(r))
      && r.scanNo == st.scanNo && r.entered == st.entered && r.modes == st.modes
      && (st.failed ==> r.failed)
    decreases PeakCount(scan) - p
  {
    if p < PeakCount(scan) {
      var r := PeaksFrom(st, scan, scanNo, search, p);
      match search(scan.mzs[p], scan.mode)
      case Err(_) =>
        assert r.hits == st.hits;
      case Ok(ts) =>
        var s := RecordAll(st, ts, scanNo, scan.mzs[p], scan.intensities[p], scan.time);
        RecordAllSpec(st, ts, scanNo, scan.mzs[p], scan.intensities[p], scan.time);
        if Consistent(st) {
          RecordAllConsistent(st, ts, scanNo, scan.mzs[p], scan.intensities[p], scan.time);
        }
        PeaksFromSpec(s, scan, scanNo, search, p + 1);
        ExtendsTrans(st, s, r);
    }
  }

  /** The modes of the first `n` scans, without repeats. */
  ghost predicate ModesOf(modes: seq<string>, scans: seq<Scan>, n: nat)
    requires n <= |scans|
  {
    && Distinct(modes)
    && forall x :: x in modes <==> exists j :: 0 <= j < n && scans[j].mode == x
  }

  lemma EnterModes(st: Mined, scans: seq<Scan>, n: nat)
    requires n < |scans| && ModesOf(st.modes, scans, n)
    ensures ModesOf(Enter(st, scans, n).modes, scans, n + 1)
  {
    var ms := Enter(st, scans, n).modes;
    forall x | x in ms ensures exists j :: 0 <= j < n + 1 && scans[j].mode == x {
      if x != scans[n].mode {
        var j :| 0 <= j < n && scans[j].mode == x;
      }
    }
  }

  /**
   * The scans from `n` on: the result extends the state (hits and compounds
   * gathered before a failure are kept), every key of the compound map is a hit
   * key, the modes are those of the entered scans, and the scan number is the
   * index of the last scan entered. Without a failure every scan is entered.
   */
  lemma {:induction false} ScansFromSpec(st: Mined, scans: seq<Scan>, search: (real, string) -> Result<seq<Match>>, n: nat)
    requires n <= |scans| && st.entered == n && (n > 0 ==> st.scanNo == n - 1)
    requires ModesOf(st.modes, scans, n)
    ensures var r := ScansFrom(st, scans, search, n);
      && Extends(st, r) && (Consistent(st) ==> Consistent(r))
      && n <= r.entered <= |scans| && (r.entered > 0 ==> r.scanNo == r.entered - 1) && (r.entered == 0 ==> r.scanNo == st.scanNo)
      && ModesOf(r.modes, scans, r.entered)
      && (!r.failed ==> r.entered == |scans|)
      && (n < |scans| ==> r.entered > n)
    decreases |scans| - n
  {
    if n < |scans| {
      var e := Enter(st, scans, n);
      EnterModes(st, scans, n);
      assert Extends(st, e) by {
        assert e.hits == st.hits;
      }
      var s := PeaksFrom(e, scans[n], n, search, 0);
      PeaksFromSpec(e, scans[n], n, search, 0);
      ExtendsTrans(st, e, s);
      if !s.failed {
        ScansFromSpec(s, scans, search, n + 1);
        ExtendsTrans(st, s, ScansFrom(s, scans, search, n + 1));
      }
    }
  }

  /**
   * The mode rule: None exactly when no scan was entered, "multiple" exactly
   * when two entered scans differ in polarity, otherwise the polarity of the
   * first (and every) entered scan.
   */
  lemma ModeRule(modes: seq<string>, scans: seq<Scan>, n: nat)
    requires n <= |scans| && ModesOf(modes, scans, n)
    requires forall j :: 0 <= j < n ==> scans[j].mode != "multiple"
    ensures ModeOf(modes) == None <==> n == 0
    ensures ModeOf(modes) == Some("multiple") <==> exists i, j :: 0 <= i < j < n && scans[i].mode != scans[j].mode
    ensures n > 0 && ModeOf(modes) != Some("multiple") ==> ModeOf(modes) == Some(scans[0].mode)
  {
    if n > 0 {
      assert scans[0].mode in modes;
    }
    if exists i, j :: 0 <= i < j < n && scans[i].mode != scans[j].mode {
      var i, j :| 0 <= i < j < n && scans[i].mode != scans[j].mode;
      assert scans[i].mode in modes && scans[j].mode in modes;
    }
    if |modes| > 1 {
      var x, y := modes[0], modes[1];
      assert x in modes && y in modes;
      var i :| 0 <= i < n && scans[i].mode == x;
      var j :| 0 <= j < n && scans[j].mode == y;
      if j < i {
        assert scans[j].mode != scans[i].mode;
      } else {
        assert i < j;
      }
    }
    if |modes| == 1 {
      assert modes[0] in modes;
    }
  }

  /**
   * What `mine_file` reports: `max_scan` is the index of the last scan entered
   * (0 when none was), every scan is entered unless an exception stopped the
   * loop, the modes are those of the entered scans, and every key of the
   * compound map is the key of some hit.
   */
  lemma MineSpec(reader: Result<seq<Spectrum>>, search: (real, string) -> Result<seq<Match>>)
    ensures var st := Mine(reader, search);
      && Consistent(st)
      && (st.entered == 0 ==> st.scanNo == 0 && st.modes == [])
      && (st.entered > 0 ==> st.scanNo == st.entered - 1)
      && (reader.Ok? ==>
            var scans := Ms1(reader.value);
            && st.entered <= |scans|
            && (!st.failed ==> st.entered == |scans|)
            && ModesOf(st.modes, scans, st.entered))
  {
    if reader.Ok? {
      ScansFromSpec(Fresh, Ms1(reader.value), search, 0);
    }
  }

  /**
   * An exception keeps what came before it: a search that fails at peak `p` of
   * scan `n` still returns every hit and compound gathered up to that peak.
   */
  lemma FailureKeepsPartial(st: Mined, scan: Scan, scanNo: int, search: (real, string) -> Result<seq<Match>>, p: nat)
    requires p < PeakCount(scan) && search(scan.mzs[p], scan.mode).Err?
    ensures PeaksFrom(st, scan, scanNo, search, p) == st.(failed := true)
  {
  }
}
