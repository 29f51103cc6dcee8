/** Past-injury normalisation of lib/utils/injuries.ts. */
module Injuries {
  import opened Text

  /** The sentinel tag "なし" (none). */
  const NONE: string := "なし"

  /** The position of the first occurrence of `x` in `xs`. */
  function FirstIndex(xs: seq<string>, x: string): (i: nat)
    requires x in xs
    ensures i < |xs| && xs[i] == x
  {
    if xs[0] == x then 0 else 1 + FirstIndex(xs[1..], x)
  }

  /** No occurrence of `x` comes before its first occurrence. */
  lemma {:induction false} FirstIndexMinimal(xs: seq<string>, x: string, k: nat)
    requires x in xs && k < FirstIndex(xs, x)
    ensures xs[k] != x
  {
    if k > 0 {
      FirstIndexMinimal(xs[1..], x, k - 1);
    }
  }

  /** The first occurrence is the only occurrence with none before it. */
  lemma {:induction false} FirstIndexUnique(xs: seq<string>, x: string, i: nat)
    requires i < |xs| && xs[i] == x
    requires forall k :: 0 <= k < i ==> xs[k] != x
    ensures FirstIndex(xs, x) == i
  {
    if i > 0 {
      assert xs[0] != x;
      FirstIndexUnique(xs[1..], x, i - 1);
    }
  }

  /** `s` lists elements of `xs` in the order of their first occurrence in `xs`. */
  predicate InFirstOccurrenceOrder(xs: seq<string>, s: seq<string>) {
    && (forall i :: 0 <= i < |s| ==> s[i] in xs)
    && (forall i, j :: 0 <= i < j < |s| ==> FirstIndex(xs, s[i]) < FirstIndex(xs, s[j]))
  }

  /** `Array.from(new Set(xs))`: each distinct element once, in the order in
      which a `Set` first receives it. */
  function Dedup(xs: seq<string>): (r: seq<string>)
    ensures NoDuplicates(r)
    ensures forall x :: x in r <==> x in xs
    ensures |r| <= |xs|
  {
    if |xs| == 0 then []
    else
      var init, last := xs[..|xs| - 1], xs[|xs| - 1];
      assert xs == init + [last];
      var d := Dedup(init);
      if last in d then d else d + [last]
  }

  /** A prefix's first occurrences are first occurrences of the whole list. */
  lemma FirstIndexPrefix(xs: seq<string>, n: nat, y: string)
    requires n <= |xs| && y in xs[..n]
    ensures FirstIndex(xs, y) == FirstIndex(xs[..n], y)
  {
    var j := FirstIndex(xs[..n], y);
    forall k | 0 <= k < j ensures xs[k] != y {
      FirstIndexMinimal(xs[..n], y, k);
    }
    FirstIndexUnique(xs, y, j);
  }

  /** The `Set` image keeps first-occurrence order. */
  lemma {:induction false} DedupOrder(xs: seq<string>)
    ensures InFirstOccurrenceOrder(xs, Dedup(xs))
  {
    if |xs| > 0 {
      var init, last := xs[..|xs| - 1], xs[|xs| - 1];
      var d := Dedup(init);
      DedupOrder(init);
      forall i | 0 <= i < |d| ensures FirstIndex(xs, d[i]) == FirstIndex(init, d[i]) {
        FirstIndexPrefix(xs, |xs| - 1, d[i]);
      }
      if last !in d {
        FirstIndexUnique(xs, last, |xs| - 1);
        var r := d + [last];
        assert forall i :: 0 <= i < |d| ==> r[i] == d[i];
      }
    }
  }

  /** A list without duplicates is its own `Set` image. */
  lemma {:induction false} DedupDistinct(xs: seq<string>)
    requires NoDuplicates(xs)
    ensures Dedup(xs) == xs
  {
    if |xs| > 0 {
      DedupDistinct(xs[..|xs| - 1]);
    }
  }

  lemma TailOrder(xs: seq<string>, s: seq<string>)
    requires |s| > 0 && InFirstOccurrenceOrder(xs, s)
    ensures InFirstOccurrenceOrder(xs, s[1..])
  {
    var t := s[1..];
    forall i | 0 <= i < |t| ensures t[i] in xs {
      assert t[i] == s[i + 1];
    }
    forall i, j | 0 <= i < j < |t| ensures FirstIndex(xs, t[i]) < FirstIndex(xs, t[j]) {
      assert t[i] == s[i + 1] && t[j] == s[j + 1];
    }
  }

  lemma ConsOrder(xs: seq<string>, a: string, w: seq<string>)
    requires a in xs && InFirstOccurrenceOrder(xs, w)
    requires forall j :: 0 <= j < |w| ==> FirstIndex(xs, a) < FirstIndex(xs, w[j])
    ensures InFirstOccurrenceOrder(xs, [a] + w)
  {
    var r := [a] + w;
    forall i | 0 <= i < |r| ensures r[i] in xs {
      if i > 0 {
        assert r[i] == w[i - 1];
      }
    }
    forall i, j | 0 <= i < j < |r| ensures FirstIndex(xs, r[i]) < FirstIndex(xs, r[j]) {
      ConsPair(xs, a, w, i, j);
    }
  }

  /** One pair of positions of `[a] + w`. */
  lemma ConsPair(xs: seq<string>, a: string, w: seq<string>, i: int, j: int)
    requires a in xs && InFirstOccurrenceOrder(xs, w)
    requires forall j :: 0 <= j < |w| ==> FirstIndex(xs, a) < FirstIndex(xs, w[j])
    requires 0 <= i < j <= |w|
    ensures ([a] + w)[i] in xs && ([a] + w)[j] in xs
    ensures FirstIndex(xs, ([a] + w)[i]) < FirstIndex(xs, ([a] + w)[j])
  {
    var r := [a] + w;
    assert r[j] == w[j - 1];
    if i > 0 {
      assert r[i] == w[i - 1];
    }
  }

  /** Removing elements keeps the remaining ones in first-occurrence order. */
  lemma {:induction false} WithoutKeepsOrder(xs: seq<string>, s: seq<string>, v: string)
    requires InFirstOccurrenceOrder(xs, s)
    ensures InFirstOccurrenceOrder(xs, Without(s, v))
  {
    if |s| > 0 {
      var t := s[1..];
      TailOrder(xs, s);
      WithoutKeepsOrder(xs, t, v);
      var w := Without(t, v);
      if s[0] != v {
        assert Without(s, v) == [s[0]] + w;
        forall j | 0 <= j < |w| ensures FirstIndex(xs, s[0]) < FirstIndex(xs, w[j]) {
          assert w[j] in w;
          assert w[j] in t;
          var k :| 0 <= k < |t| && t[k] == w[j];
          assert s[k + 1] == w[j];
        }
        ConsOrder(xs, s[0], w);
      }
    }
  }

  /** `normalizePastInjuries`: drop duplicates, drop "なし" when anything
      else is chosen, and give ["なし"] for an empty choice. */
  function NormalizePastInjuries(injuries: seq<string>): (r: seq<string>)
    ensures |r| > 0
    ensures NoDuplicates(r)
    ensures NONE in r ==> r == [NONE]
    ensures forall x :: x in injuries && x != NONE ==> x in r
    ensures forall x :: x in r ==> x in injuries || x == NONE
    ensures r != [NONE] ==> InFirstOccurrenceOrder(injuries, r)
  {
    var distinct := Dedup(injuries);
    DedupOrder(injuries);
    var kept :=
      if NONE in distinct && |distinct| > 1 then
        WithoutKeepsOrder(injuries, distinct, NONE);
        Without(distinct, NONE)
      else distinct;
    if |kept| > 0 then kept else [NONE]
  }

  /** "なし" survives exactly when nothing else was chosen. */
  lemma NoneOnlyAlone(injuries: seq<string>)
    ensures NONE in NormalizePastInjuries(injuries)
            <==> forall x :: x in injuries ==> x == NONE
  {
    var r := NormalizePastInjuries(injuries);
    if forall x :: x in injuries ==> x == NONE {
      assert r[0] == NONE;
    }
  }

  /** Normalising twice is normalising once. */
  lemma NormalizeIdempotent(injuries: seq<string>)
    ensures NormalizePastInjuries(NormalizePastInjuries(injuries))
            == NormalizePastInjuries(injuries)
  {
    var r := NormalizePastInjuries(injuries);
    DedupDistinct(r);
  }

  /** `isValidPastInjuries`: at least one tag is chosen. The source also
      rejects a non-array value; here the argument is always a list. */
  function IsValidPastInjuries(injuries: seq<string>): (ok: bool)
    ensures ok <==> injuries != []
  {
    |injuries| > 0
  }

  /** Every normalised list is valid. */
  lemma NormalizedIsValid(injuries: seq<string>)
    ensures IsValidPastInjuries(NormalizePastInjuries(injuries))
  {
  }

  /** Unit test: "なし" chosen together with 膝 is dropped. */
  lemma NoneWithOtherDropped()
    ensures NormalizePastInjuries([NONE, "膝"]) == ["膝"]
  {
    var xs := [NONE, "膝"];
    assert xs[..1] == [NONE];
    assert Dedup([NONE]) == [NONE];
    assert Dedup(xs) == [NONE, "膝"];
    assert Without([NONE, "膝"], NONE) == ["膝"];
  }

  /** Unit tests: ["なし"] and [] both give ["なし"]. */
  lemma NoneAndEmpty()
    ensures NormalizePastInjuries([NONE]) == [NONE]
    ensures NormalizePastInjuries([]) == [NONE]
  {
    assert Dedup([NONE]) == [NONE];
  }

  /** Unit test: the duplicate 膝 is kept once. */
  lemma DuplicateDropped()
    ensures NormalizePastInjuries(["膝", "膝", "足首"]) == ["膝", "足首"]
  {
    var xs := ["膝", "膝", "足首"];
    assert xs[..2] == ["膝", "膝"];
    assert ["膝", "膝"][..1] == ["膝"];
    assert Dedup(["膝"]) == ["膝"];
    assert Dedup(["膝", "膝"]) == ["膝"];
    assert Dedup(xs) == ["膝", "足首"];
  }

  /** Unit test: three distinct tags are kept as chosen. */
  lemma DistinctKept()
    ensures NormalizePastInjuries(["膝", "足首", "ハム"]) == ["膝", "足首", "ハム"]
  {
    var xs := ["膝", "足首", "ハム"];
    assert NoDuplicates(xs);
    DedupDistinct(xs);
  }
}
