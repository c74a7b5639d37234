/** `numpy.ndindex` and the cross product of candidate lists it is used to walk. */
module Grid {
  import opened Combinatorics

  function Product(dims: seq<nat>): nat
  {
    if |dims| == 0 then 1 else dims[0] * Product(dims[1..])
  }

  predicate InBounds(idx: seq<nat>, dims: seq<nat>)
  {
    |idx| == |dims| && forall k :: 0 <= k < |idx| ==> idx[k] < dims[k]
  }

  function Rows(from: nat, n: nat, tails: seq<seq<nat>>): seq<seq<nat>>
    decreases n - from
  {
    if from >= n then [] else PrependEach(from, tails) + Rows(from + 1, n, tails)
  }

  /** `np.ndindex(*dims)`: every index vector below `dims`, the last position varying fastest. */
  function NdIndex(dims: seq<nat>): seq<seq<nat>>
  {
    if |dims| == 0 then [[]] else Rows(0, dims[0], NdIndex(dims[1..]))
  }

  lemma {:induction false} RowsMembers(from: nat, n: nat, tails: seq<seq<nat>>, t: seq<nat>)
    ensures t in Rows(from, n, tails) <==> |t| > 0 && from <= t[0] < n && t[1..] in tails
    decreases n - from
  {
    if from < n {
      RowsMembers(from + 1, n, tails, t);
      var r := Rows(from, n, tails);
      assert r == PrependEach(from, tails) + Rows(from + 1, n, tails);
      if t in PrependEach(from, tails) {
        var k :| 0 <= k < |tails| && PrependEach(from, tails)[k] == t;
        assert t[1..] == tails[k];
      }
      if |t| > 0 && t[0] == from && t[1..] in tails {
        var k :| 0 <= k < |tails| && tails[k] == t[1..];
        assert PrependEach(from, tails)[k] == t;
      }
    }
  }

  lemma {:induction false} RowsLength(from: nat, n: nat, tails: seq<seq<nat>>)
    ensures |Rows(from, n, tails)| == (if from >= n then 0 else (n - from) * |tails|)
    decreases n - from
  {
    if from < n {
      RowsLength(from + 1, n, tails);
    }
  }

  /** `np.ndindex` lists exactly the in-bounds index vectors. */
  lemma {:induction false} NdIndexMembers(dims: seq<nat>, t: seq<nat>)
    ensures t in NdIndex(dims) <==> InBounds(t, dims)
  {
    if |dims| > 0 {
      RowsMembers(0, dims[0], NdIndex(dims[1..]), t);
      if |t| > 0 {
        NdIndexMembers(dims[1..], t[1..]);
        if InBounds(t[1..], dims[1..]) && t[0] < dims[0] {
          assert InBounds(t, dims) by {
            forall k | 0 <= k < |t| ensures t[k] < dims[k] {
              if k > 0 { assert t[k] == t[1..][k - 1]; }
            }
          }
        }
        if InBounds(t, dims) {
          assert InBounds(t[1..], dims[1..]) by {
            forall k | 0 <= k < |t[1..]| ensures t[1..][k] < dims[1..][k] {
              assert t[1..][k] == t[k + 1];
            }
          }
        }
      }
    } else {
      assert InBounds(t, dims) <==> t == [];
    }
  }

  /** `np.ndindex` yields as many vectors as the product of the dimensions. */
  lemma {:induction false} NdIndexLength(dims: seq<nat>)
    ensures |NdIndex(dims)| == Product(dims)
  {
    if |dims| > 0 {
      NdIndexLength(dims[1..]);
      RowsLength(0, dims[0], NdIndex(dims[1..]));
    }
  }

  /** When no dimension is empty, the first index vector is all zeros. */
  lemma {:induction false} NdIndexFirst(dims: seq<nat>)
    requires forall k :: 0 <= k < |dims| ==> dims[k] > 0
    ensures |NdIndex(dims)| > 0 && NdIndex(dims)[0] == seq(|dims|, _ => 0)
  {
    if |dims| > 0 {
      NdIndexFirst(dims[1..]);
      assert NdIndex(dims)[0] == [0] + NdIndex(dims[1..])[0];
    }
  }

  function Lengths<T>(lists: seq<seq<T>>): (dims: seq<nat>)
    ensures |dims| == |lists| && forall k :: 0 <= k < |lists| ==> dims[k] == |lists[k]|
  {
    seq(|lists|, k requires 0 <= k < |lists| => |lists[k]|)
  }

  /** The element chosen from each list by an index vector. */
  function Pick<T>(lists: seq<seq<T>>, idx: seq<nat>): (c: seq<T>)
    requires InBounds(idx, Lengths(lists))
    ensures |c| == |lists| && forall k :: 0 <= k < |c| ==> c[k] == lists[k][idx[k]]
  {
    seq(|lists|, k requires 0 <= k < |lists| => lists[k][idx[k]])
  }

  /** One choice from every list, for every index vector in `np.ndindex` order. */
  function Cross<T>(lists: seq<seq<T>>): (r: seq<seq<T>>)
    ensures |r| == |NdIndex(Lengths(lists))|
  {
    var idx := NdIndex(Lengths(lists));
    NdIndexInBounds(Lengths(lists));
    seq(|idx|, i requires 0 <= i < |idx| => Pick(lists, idx[i]))
  }

  lemma NdIndexInBounds(dims: seq<nat>)
    ensures forall t :: t in NdIndex(dims) ==> InBounds(t, dims)
  {
    forall t | t in NdIndex(dims) ensures InBounds(t, dims) {
      NdIndexMembers(dims, t);
    }
  }

  /** Every combination takes its k-th element from the k-th list, and every such choice occurs. */
  lemma CrossMembers<T>(lists: seq<seq<T>>, c: seq<T>)
    ensures c in Cross(lists) <==> |c| == |lists| && forall k :: 0 <= k < |c| ==> c[k] in lists[k]
  {
    var dims := Lengths(lists);
    var idx := NdIndex(dims);
    if c in Cross(lists) {
      var i :| 0 <= i < |idx| && Cross(lists)[i] == c;
      NdIndexMembers(dims, idx[i]);
    }
    if |c| == |lists| && forall k :: 0 <= k < |c| ==> c[k] in lists[k] {
      var t := seq(|c|, k requires 0 <= k < |c| => var j :| 0 <= j < |lists[k]| && lists[k][j] == c[k]; j as nat);
      NdIndexMembers(dims, t);
      var i :| 0 <= i < |idx| && idx[i] == t;
      assert Cross(lists)[i] == c;
    }
  }

  /** When no list is empty, the first combination takes the first element of every list. */
  lemma CrossFirst<T>(lists: seq<seq<T>>)
    requires forall k :: 0 <= k < |lists| ==> |lists[k]| > 0
    ensures |Cross(lists)| > 0
    ensures Cross(lists)[0] == seq(|lists|, k requires 0 <= k < |lists| => lists[k][0])
  {
    NdIndexFirst(Lengths(lists));
  }
}
