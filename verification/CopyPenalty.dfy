/** The penalty that makes transcribing the input into the summary unprofitable. Texts
    are given as their words, and token counts and the marker test as parameters. */
module CopyPenalty {
  import opened Counts
  import opened Reals

  type Words = seq<string>

  function Grams(words: Words, n: nat): (grams: seq<Words>)
    requires n <= |words|
    ensures |grams| == |words| - n + 1
    ensures forall i :: 0 <= i < |grams| ==> grams[i] == words[i..i + n]
  {
    seq(|words| - n + 1, i requires 0 <= i < |words| - n + 1 => words[i..i + n])
  }

  function CountIn(grams: seq<Words>, known: set<Words>): (k: nat)
    ensures k <= |grams|
  {
    if grams == [] then 0 else (if grams[0] in known then 1 else 0) + CountIn(grams[1..], known)
  }

  function Fraction(k: nat, total: nat): (r: real)
    requires total > 0 && k <= total
    ensures 0.0 <= r <= 1.0
  {
    Shrink(0.0, k as real, total as real);
    Shrink(k as real, total as real, total as real);
    k as real / total as real
  }

  /** `ngram_overlap`. */
  function Overlap(summary: Words, source: Words, n: nat): (r: real)
    ensures 0.0 <= r <= 1.0
  {
    if |summary| < n || |source| < n then 0.0
    else
      var known := set g | g in Grams(source, n);
      var grams := Grams(summary, n);
      Fraction(CountIn(grams, known), |grams|)
  }

  lemma {:induction false} CountInLast(grams: seq<Words>, last: Words, known: set<Words>)
    ensures CountIn(grams + [last], known) == CountIn(grams, known) + One(last in known)
  {
    if grams == [] {
      assert grams + [last] == [last] && [last][1..] == [];
    } else {
      assert (grams + [last])[1..] == grams[1..] + [last];
      CountInLast(grams[1..], last, known);
    }
  }

  /** The places before `k` whose gram is known. */
  function KnownPlaces(grams: seq<Words>, known: set<Words>, k: nat): set<nat>
    requires k <= |grams|
  {
    set i: nat | i < k && grams[i] in known
  }

  lemma {:induction false} CountInIs(grams: seq<Words>, known: set<Words>, k: nat)
    requires k <= |grams|
    ensures CountIn(grams[..k], known) == |KnownPlaces(grams, known, k)|
  {
    if k == 0 {
      assert KnownPlaces(grams, known, 0) == {};
    } else {
      CountInIs(grams, known, k - 1);
      CountInLast(grams[..k - 1], grams[k - 1], known);
      assert grams[..k] == grams[..k - 1] + [grams[k - 1]];
      var before := KnownPlaces(grams, known, k - 1);
      assert KnownPlaces(grams, known, k) == if grams[k - 1] in known then before + {k - 1} else before;
    }
  }

  /** The n words from place `i` of the summary stand somewhere in the source. */
  ghost predicate Occurs(summary: Words, source: Words, n: nat, i: nat)
    requires i + n <= |summary|
  {
    var gram := summary[i..i + n];
    exists j: nat :: StandsAt(source, gram, j)
  }

  predicate StandsAt(source: Words, gram: Words, j: nat) {
    j + |gram| <= |source| && source[j..j + |gram|] == gram
  }

  /** The overlap is the number of places of the summary whose n words stand in the source,
      over the number of all such places; it is 0 where either text has fewer words. */
  lemma OverlapIs(summary: Words, source: Words, n: nat)
    ensures |summary| < n || |source| < n ==> Overlap(summary, source, n) == 0.0
    ensures |summary| >= n && |source| >= n ==>
      Overlap(summary, source, n)
      == |set i: nat | i + n <= |summary| && Occurs(summary, source, n, i)| as real / (|summary| - n + 1) as real
  {
    if |summary| >= n && |source| >= n {
      var known := set g | g in Grams(source, n);
      var grams := Grams(summary, n);
      forall i: nat | i + n <= |summary|
        ensures grams[i] in known <==> Occurs(summary, source, n, i)
      {
        GramKnown(summary, source, n, i);
      }
      CountInIs(grams, known, |grams|);
      assert grams[..|grams|] == grams;
      assert KnownPlaces(grams, known, |grams|) == set i: nat | i + n <= |summary| && Occurs(summary, source, n, i);
    }
  }

  lemma GramKnown(summary: Words, source: Words, n: nat, i: nat)
    requires i + n <= |summary| && n <= |source|
    ensures Grams(summary, n)[i] in Grams(source, n) <==> Occurs(summary, source, n, i)
  {
    if Occurs(summary, source, n, i) {
      var j: nat :| StandsAt(source, summary[i..i + n], j);
      assert Grams(source, n)[j] == summary[i..i + n];
    }
    if Grams(summary, n)[i] in Grams(source, n) {
      var j :| 0 <= j < |Grams(source, n)| && Grams(source, n)[j] == Grams(summary, n)[i];
      assert StandsAt(source, summary[i..i + n], j);
    }
  }

  lemma {:induction false} CountAll(grams: seq<Words>, known: set<Words>)
    ensures CountIn(grams, known) == |grams| <==> forall g :: g in grams ==> g in known
  {
    if grams != [] {
      CountAll(grams[1..], known);
    }
  }

  /** The overlap is full exactly when every n-gram of the summary occurs in the source. */
  lemma FullOverlap(summary: Words, source: Words, n: nat)
    requires |summary| >= n && |source| >= n
    ensures Overlap(summary, source, n) == 1.0
       <==> forall g :: g in Grams(summary, n) ==> g in Grams(source, n)
  {
    var known := set g | g in Grams(source, n);
    var grams := Grams(summary, n);
    CountAll(grams, known);
    WholeShare(CountIn(grams, known), |grams|);
  }

  lemma WholeShare(k: nat, total: nat)
    requires total > 0
    ensures k as real / total as real == 1.0 <==> k == total
  {
    assert k as real == (k as real / total as real) * total as real;
  }

  lemma Inside<T>(s: seq<T>, from: nat, to: nat, i: nat, j: nat)
    requires from <= to <= |s| && i <= j <= to - from
    ensures s[from..to][i..j] == s[from + i..from + j]
  {
    var a, b := s[from..to][i..j], s[from + i..from + j];
    assert |a| == |b|;
    forall k | 0 <= k < |a| ensures a[k] == b[k] {
      assert a[k] == s[from..to][i + k];
    }
  }

  /** A contiguous excerpt of at least n words overlaps in full. */
  lemma ExcerptOverlapsFully(source: Words, from: nat, to: nat, n: nat)
    requires from <= to <= |source| && to - from >= n
    ensures Overlap(source[from..to], source, n) == 1.0
  {
    var summary := source[from..to];
    forall g | g in Grams(summary, n) ensures g in Grams(source, n) {
      var i :| 0 <= i < |Grams(summary, n)| && Grams(summary, n)[i] == g;
      Inside(source, from, to, i, i + n);
      assert Grams(source, n)[from + i] == g;
    }
    FullOverlap(summary, source, n);
  }

  datatype Weights = Weights(len: real, copy: real, threshold: real, marker: real)

  function CopyTerm(w: Weights, overlap: real): real {
    var excess := if overlap - w.threshold > 0.0 then overlap - w.threshold else 0.0;
    var denom := 1.0 - w.threshold;
    w.copy * (if denom > 0.0 then excess / denom else 0.0)
  }

  /** `copy_penalty`, for `nZ` tokens of summary and `nX` of source. */
  function Penalty(w: Weights, overlap: real, nZ: nat, nX: nat, marked: bool): real {
    w.len * (if nX != 0 then nZ as real / nX as real else 0.0)
    + CopyTerm(w, overlap)
    + (if marked then w.marker else 0.0)
  }

  /** The copy term is nothing up to the threshold, or when that is 1 or more, and above it
      the weight times the share of the way from the threshold to full overlap. */
  lemma CopyTermIs(w: Weights, overlap: real)
    ensures overlap <= w.threshold || w.threshold >= 1.0 ==> CopyTerm(w, overlap) == 0.0
    ensures w.threshold < 1.0 && overlap >= w.threshold ==>
      CopyTerm(w, overlap) * (1.0 - w.threshold) == w.copy * (overlap - w.threshold)
  {
    var part, all := overlap - w.threshold, 1.0 - w.threshold;
    if w.threshold < 1.0 {
      if overlap > w.threshold {
        ShareOf(w.copy, part, all);
      } else {
        assert 0.0 / all == 0.0;
      }
    }
  }

  lemma ShareOf(weight: real, part: real, all: real)
    requires all != 0.0
    ensures weight * (part / all) * all == weight * part
  {
    var share := part / all;
    assert share * all == part;
    assert weight * share * all == weight * (share * all);
  }

  /** The three terms: beside the copy term, the length weight for each time the summary is
      as long as the source, and the flat weight for markers. */
  lemma PenaltyIs(w: Weights, overlap: real, nZ: nat, nX: nat, marked: bool)
    ensures var lengthTerm := Penalty(w, overlap, nZ, nX, marked) - CopyTerm(w, overlap)
                              - (if marked then w.marker else 0.0);
      lengthTerm * nX as real == if nX == 0 then 0.0 else w.len * nZ as real
    ensures nX == 0 ==> Penalty(w, overlap, nZ, nX, marked)
                        == CopyTerm(w, overlap) + if marked then w.marker else 0.0
  {
    hide CopyTerm;
    if nX != 0 {
      ShareOf(w.len, nZ as real, nX as real);
    }
  }

  /** The copy term does not fall when the overlap rises, and full overlap is charged the
      whole weight exactly when the threshold is below 1 or there is no weight. */
  lemma CopyTermIsMonotone(w: Weights, a: real, b: real)
    requires w.copy >= 0.0 && a <= b
    ensures CopyTerm(w, a) <= CopyTerm(w, b)
    ensures CopyTerm(w, 1.0) == w.copy <==> w.threshold < 1.0 || w.copy == 0.0
  {
    var denom := 1.0 - w.threshold;
    if denom > 0.0 {
      var ea := if a - w.threshold > 0.0 then a - w.threshold else 0.0;
      var eb := if b - w.threshold > 0.0 then b - w.threshold else 0.0;
      Shrink(ea, eb, denom);
      Scale(ea / denom, eb / denom, w.copy, CopyTerm(w, a), CopyTerm(w, b));
      assert denom / denom == 1.0;
    }
  }

  /** With weights that are not negative the penalty is not negative, and a verbatim
      excerpt costs at least the whole copy weight. */
  lemma CopyingIsChargedInFull(w: Weights, source: Words, from: nat, to: nat, n: nat, nZ: nat, nX: nat, marked: bool)
    requires w.len >= 0.0 && w.copy >= 0.0 && w.marker >= 0.0 && w.threshold < 1.0
    requires from <= to <= |source| && to - from >= n
    ensures Penalty(w, Overlap(source[from..to], source, n), nZ, nX, marked) >= w.copy
  {
    ExcerptOverlapsFully(source, from, to, n);
    CopyTermIsMonotone(w, 1.0, 1.0);
    if nX != 0 {
      Shrink(0.0, nZ as real, nX as real);
      var ratio := nZ as real / nX as real;
      Scale(0.0, ratio, w.len, 0.0, w.len * ratio);
    }
  }

  lemma PenaltyIsNonNegative(w: Weights, overlap: real, nZ: nat, nX: nat, marked: bool)
    requires w.len >= 0.0 && w.copy >= 0.0 && w.marker >= 0.0 && overlap >= 0.0
    ensures Penalty(w, overlap, nZ, nX, marked) >= 0.0
  {
    if nX != 0 {
      Shrink(0.0, nZ as real, nX as real);
      var ratio := nZ as real / nX as real;
      Scale(0.0, ratio, w.len, 0.0, w.len * ratio);
    }
    var denom := 1.0 - w.threshold;
    if denom > 0.0 {
      var excess := if overlap - w.threshold > 0.0 then overlap - w.threshold else 0.0;
      Shrink(0.0, excess, denom);
      Scale(0.0, excess / denom, w.copy, 0.0, CopyTerm(w, overlap));
    }
  }
}
