/**
 * `Experiment.partition_samples`: the registered sample paths split into
 * blanks and study samples by a substring test on the lower-cased file name.
 */
module Experiment {
  import opened Wrappers
  import opened Text

  /** A sample is a blank when the substring occurs in its lower-cased file name. */
  predicate IsBlank(sample: string, blankSubstring: string)
  {
    Contains(Lower(Basename(sample)), blankSubstring)
  }

  /** The samples that are blanks, in order. */
  function Blanks(samples: seq<string>, blankSubstring: string): seq<string>
  {
    if |samples| == 0 then []
    else
      var last := samples[|samples| - 1];
      Blanks(samples[..|samples| - 1], blankSubstring) + (if IsBlank(last, blankSubstring) then [last] else [])
  }

  /** The samples that are not blanks, in order. */
  function Studies(samples: seq<string>, blankSubstring: string): seq<string>
  {
    if |samples| == 0 then []
    else
      var last := samples[|samples| - 1];
      Studies(samples[..|samples| - 1], blankSubstring) + (if IsBlank(last, blankSubstring) then [] else [last])
  }

  /** One more sample joins the list its test picks. */
  lemma PartitionSnoc(init: seq<string>, last: string, blankSubstring: string)
    ensures Blanks(init + [last], blankSubstring) == Blanks(init, blankSubstring) + (if IsBlank(last, blankSubstring) then [last] else [])
    ensures Studies(init + [last], blankSubstring) == Studies(init, blankSubstring) + (if IsBlank(last, blankSubstring) then [] else [last])
  {
    assert (init + [last])[..|init|] == init;
  }

  /**
   * Every sample lands in exactly one of the two lists: together they are a
   * rearrangement of the samples, the blanks pass the test and the study
   * samples fail it.
   */
  lemma PartitionSpec(samples: seq<string>, blankSubstring: string)
    ensures multiset(Blanks(samples, blankSubstring)) + multiset(Studies(samples, blankSubstring)) == multiset(samples)
    ensures forall s :: s in Blanks(samples, blankSubstring) <==> s in samples && IsBlank(s, blankSubstring)
    ensures forall s :: s in Studies(samples, blankSubstring) <==> s in samples && !IsBlank(s, blankSubstring)
  {
    PartitionCounts(samples, blankSubstring);
    PartitionMembers(samples, blankSubstring);
  }

  lemma {:induction false} PartitionCounts(samples: seq<string>, blankSubstring: string)
    ensures multiset(Blanks(samples, blankSubstring)) + multiset(Studies(samples, blankSubstring)) == multiset(samples)
  {
    if |samples| > 0 {
      var init, last := samples[..|samples| - 1], samples[|samples| - 1];
      PartitionCounts(init, blankSubstring);
      SeqSnoc(samples);
      CountsStep(samples, init, last, Blanks(init, blankSubstring), Studies(init, blankSubstring),
                 Blanks(samples, blankSubstring), Studies(samples, blankSubstring), IsBlank(last, blankSubstring));
    }
  }

  lemma {:induction false} PartitionMembers(samples: seq<string>, blankSubstring: string)
    ensures forall s :: s in Blanks(samples, blankSubstring) <==> s in samples && IsBlank(s, blankSubstring)
    ensures forall s :: s in Studies(samples, blankSubstring) <==> s in samples && !IsBlank(s, blankSubstring)
  {
    if |samples| > 0 {
      var init := samples[..|samples| - 1];
      PartitionMembers(init, blankSubstring);
      SeqSnoc(samples);
    }
  }

  lemma SeqSnoc<T>(xs: seq<T>)
    requires |xs| > 0
    ensures xs == xs[..|xs| - 1] + [xs[|xs| - 1]]
  {
  }

  lemma PrefixIn<T>(xs: seq<T>)
    requires |xs| > 0
    ensures xs[|xs| - 1] in xs && forall x :: x in xs[..|xs| - 1] ==> x in xs
  {
  }

  lemma SnocSplit<T>(a: seq<T>, b: seq<T>)
    requires |b| > 0
    ensures a + b == (a + b[..|b| - 1]) + [b[|b| - 1]]
  {
  }

  /** A split of `init` extended by `last` on one side is a split of `init + [last]`. */
  lemma CountsStep<T>(xs: seq<T>, init: seq<T>, last: T, b: seq<T>, s: seq<T>, b': seq<T>, s': seq<T>, left: bool)
    requires xs == init + [last] && multiset(b) + multiset(s) == multiset(init)
    requires b' == b + (if left then [last] else []) && s' == s + (if left then [] else [last])
    ensures multiset(b') + multiset(s') == multiset(xs)
  {
    assert multiset(xs) == multiset(init) + multiset{last};
    if left {
      assert multiset(b') == multiset(b) + multiset{last};
    } else {
      assert multiset(s') == multiset(s) + multiset{last};
    }
  }

  lemma Assoc<T>(x: seq<T>, y: seq<T>, z: seq<T>)
    ensures x + y + z == x + (y + z)
  {
  }

  /** Splitting a concatenation splits each part in turn: both lists keep the samples' order. */
  lemma {:induction false} PartitionAppend(a: seq<string>, b: seq<string>, blankSubstring: string)
    ensures Blanks(a + b, blankSubstring) == Blanks(a, blankSubstring) + Blanks(b, blankSubstring)
    ensures Studies(a + b, blankSubstring) == Studies(a, blankSubstring) + Studies(b, blankSubstring)
    decreases |b|
  {
    if |b| == 0 {
      assert a + b == a;
    } else {
      var init, last := b[..|b| - 1], b[|b| - 1];
      PartitionAppend(a, init, blankSubstring);
      PartitionSnoc(a + init, last, blankSubstring);
      PartitionSnoc(init, last, blankSubstring);
      SnocSplit(a, b);
      Assoc(Blanks(a, blankSubstring), Blanks(init, blankSubstring), if IsBlank(last, blankSubstring) then [last] else []);
      Assoc(Studies(a, blankSubstring), Studies(init, blankSubstring), if IsBlank(last, blankSubstring) then [] else [last]);
    }
  }

  /** A substring occurring in a string without upper-case letters has none either. */
  lemma {:induction false} ContainsLower(s: string, sub: string)
    requires Contains(s, sub) && forall i :: 0 <= i < |s| ==> !IsUpper(s[i])
    ensures forall k :: 0 <= k < |sub| ==> !IsUpper(sub[k])
  {
    if StartsWith(s, sub) {
      forall k | 0 <= k < |sub| ensures !IsUpper(sub[k]) {
        assert sub[k] == s[k];
      }
    } else {
      ContainsLower(s[1..], sub);
    }
  }

  /** A blank substring with an upper-case letter never matches: every sample is a study sample. */
  lemma UpperNeverBlank(samples: seq<string>, blankSubstring: string, k: nat)
    requires k < |blankSubstring| && IsUpper(blankSubstring[k])
    ensures Blanks(samples, blankSubstring) == []
    ensures Studies(samples, blankSubstring) == samples
  {
    forall s | s in samples ensures !IsBlank(s, blankSubstring) {
      if IsBlank(s, blankSubstring) {
        ContainsLower(Lower(Basename(s)), blankSubstring);
        assert false;
      }
    }
    NoBlanks(samples, blankSubstring);
  }

  lemma {:induction false} NoBlanks(samples: seq<string>, blankSubstring: string)
    requires forall s :: s in samples ==> !IsBlank(s, blankSubstring)
    ensures Blanks(samples, blankSubstring) == [] && Studies(samples, blankSubstring) == samples
  {
    if |samples| > 0 {
      var init := samples[..|samples| - 1];
      PrefixIn(samples);
      NoBlanks(init, blankSubstring);
      SeqSnoc(samples);
    }
  }

  /** The experiment's registered samples and the two lists they are split into. */
  class Experiment {
    var allSamples: seq<string>
    var blanks: seq<string>
    var studySamples: seq<string>
    /** The column names of the registered feature table, when there is one. */
    var featureTable: Option<seq<string>>

    constructor ()
      ensures allSamples == [] && blanks == [] && studySamples == [] && featureTable == None
    {
      allSamples := [];
      blanks := [];
      studySamples := [];
      featureTable := None;
    }

    /**
     * With registered samples, appends each to the blanks or the study samples
     * (a second call appends them all again). Without samples, a registered
     * feature table is tested for truth, which a data frame refuses with
     * ValueError; with neither, nothing happens.
     */
    method PartitionSamples(blankSubstring: string) returns (r: Outcome)
      modifies this
      ensures allSamples == old(allSamples) && featureTable == old(featureTable)
      ensures |allSamples| > 0 ==>
        && r == Pass
        && blanks == old(blanks) + Blanks(allSamples, blankSubstring)
        && studySamples == old(studySamples) + Studies(allSamples, blankSubstring)
      ensures |allSamples| == 0 ==>
        && r == (if featureTable.Some? then Fail(ValueError) else Pass)
        && blanks == old(blanks) && studySamples == old(studySamples)
    {
      if |allSamples| > 0 {
        ghost var blanks0 := blanks;
        ghost var studies0 := studySamples;
        var samples := allSamples;
        for n := 0 to |samples|
          invariant allSamples == samples && featureTable == old(featureTable)
          invariant blanks == blanks0 + Blanks(samples[..n], blankSubstring)
          invariant studySamples == studies0 + Studies(samples[..n], blankSubstring)
        {
          var sample := samples[n];
          assert samples[..n + 1][..n] == samples[..n];
          if Contains(Lower(Basename(sample)), blankSubstring) {
            blanks := blanks + [sample];
          } else {
            studySamples := studySamples + [sample];
          }
        }
        assert samples[..|samples|] == samples;
        r := Pass;
      } else if featureTable.Some? {
        r := Fail(ValueError);
      } else {
        r := Pass;
      }
    }
  }
}
