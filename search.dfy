/**
 * The search step: a keyword selects catalog rows through a fuzzy match on
 * DESCRIPTION and a case-insensitive substring match on EAN; the two lists of
 * row positions are concatenated and duplicates removed, first occurrence
 * kept. The fuzzy scorer is a library call, so its output (the matched
 * description texts, best first) is an input here.
 */
module Search {
  import opened Text
  import opened Catalog

  predicate NoDuplicates(s: seq<nat>)
  {
    forall a, b :: 0 <= a < b < |s| ==> s[a] != s[b]
  }

  predicate Increasing(s: seq<nat>)
  {
    forall a, b :: 0 <= a < b < |s| ==> s[a] < s[b]
  }

  /** Some row of the catalog carries exactly this description. */
  predicate Described(catalog: seq<Row>, text: string)
  {
    exists k :: 0 <= k < |catalog| && catalog[k].description == text
  }

  /** The position of the first row whose description is exactly `text`. */
  function FirstWithDescription(catalog: seq<Row>, text: string): (i: nat)
    requires Described(catalog, text)
    ensures i < |catalog| && catalog[i].description == text
    ensures forall j :: 0 <= j < i ==> catalog[j].description != text
  {
    if catalog[0].description == text then 0
    else
      assert Described(catalog[1..], text) by {
        var k :| 0 <= k < |catalog| && catalog[k].description == text;
        assert catalog[1..][k - 1].description == text;
      }
      1 + FirstWithDescription(catalog[1..], text)
  }

  /**
   * The fuzzy branch mapped back to rows: each matched text becomes the
   * first row carrying that description.
   */
  function FuzzyIndices(catalog: seq<Row>, matches: seq<string>): (idx: seq<nat>)
    requires forall m :: m in matches ==> Described(catalog, m)
    ensures |idx| == |matches|
    ensures forall k :: 0 <= k < |idx| ==>
      idx[k] < |catalog| && catalog[idx[k]].description == matches[k]
    ensures forall k, j :: 0 <= k < |idx| && 0 <= j < idx[k] ==> catalog[j].description != matches[k]
  {
    seq(|matches|, k requires 0 <= k < |matches| => FirstWithDescription(catalog, matches[k]))
  }

  /** Matched texts that are equal collapse onto one row, whatever rows they came from. */
  lemma EqualTextsSameRow(catalog: seq<Row>, matches: seq<string>, a: nat, b: nat)
    requires forall m :: m in matches ==> Described(catalog, m)
    requires a < |matches| && b < |matches| && matches[a] == matches[b]
    ensures FuzzyIndices(catalog, matches)[a] == FuzzyIndices(catalog, matches)[b]
  {
    var idx := FuzzyIndices(catalog, matches);
    if idx[a] < idx[b] {
      assert catalog[idx[a]].description == matches[b];
    } else if idx[b] < idx[a] {
      assert catalog[idx[b]].description == matches[a];
    }
  }

  /** The row's EAN contains the keyword, ignoring case. */
  predicate EanHit(row: Row, keyword: string)
  {
    ContainsIgnoringCase(row.ean, keyword)
  }

  /** Row positions from `lo` on whose EAN contains the keyword, ignoring case, ascending. */
  function EanIndicesFrom(catalog: seq<Row>, keyword: string, lo: nat): (idx: seq<nat>)
    requires lo <= |catalog|
    decreases |catalog| - lo
    ensures Increasing(idx)
    ensures forall k :: 0 <= k < |idx| ==>
      lo <= idx[k] < |catalog| && EanHit(catalog[idx[k]], keyword)
    ensures forall i :: lo <= i < |catalog| && EanHit(catalog[i], keyword) ==> i in idx
  {
    if lo == |catalog| then []
    else
      var rest := EanIndicesFrom(catalog, keyword, lo + 1);
      if EanHit(catalog[lo], keyword) then
        var idx := [lo] + rest;
        assert forall k :: 0 < k < |idx| ==> idx[k] == rest[k - 1] && lo < idx[k];
        idx
      else rest
  }

  /** The EAN branch: every row whose EAN contains the keyword, in row order. */
  function EanIndices(catalog: seq<Row>, keyword: string): seq<nat>
  {
    EanIndicesFrom(catalog, keyword, 0)
  }

  /** `s` with duplicates removed, each value kept where it first occurs. */
  function Dedup(s: seq<nat>): seq<nat>
  {
    if s == [] then []
    else
      var r := Dedup(s[..|s| - 1]);
      if s[|s| - 1] in r then r else r + [s[|s| - 1]]
  }

  /** Deduplication keeps every value and adds none. */
  lemma {:induction false} DedupMembers(s: seq<nat>)
    ensures forall x :: x in Dedup(s) <==> x in s
  {
    if s != [] {
      var init := s[..|s| - 1];
      DedupMembers(init);
      assert s == init + [s[|s| - 1]];
    }
  }

  /** Deduplication leaves no value twice. */
  lemma {:induction false} DedupHasNoDuplicates(s: seq<nat>)
    ensures NoDuplicates(Dedup(s))
  {
    if s != [] {
      var init, x := s[..|s| - 1], s[|s| - 1];
      DedupHasNoDuplicates(init);
      var r := Dedup(init);
      if x !in r {
        forall i, j | 0 <= i < j < |r + [x]| ensures (r + [x])[i] != (r + [x])[j] {
          if j == |r| {
            assert (r + [x])[i] == r[i] && r[i] in r;
          }
        }
      }
    }
  }

  /** The elements of `s` that do not occur in `drop`, in the order of `s`. */
  function Except(s: seq<nat>, drop: seq<nat>): seq<nat>
  {
    if s == [] then []
    else Except(s[..|s| - 1], drop) + (if s[|s| - 1] in drop then [] else [s[|s| - 1]])
  }

  /** What survives: exactly the elements of `s` not in `drop`. */
  lemma {:induction false} ExceptMembers(s: seq<nat>, drop: seq<nat>)
    ensures forall x :: x in Except(s, drop) <==> x in s && x !in drop
  {
    if s != [] {
      var init := s[..|s| - 1];
      ExceptMembers(init, drop);
      assert s == init + [s[|s| - 1]];
    }
  }

  /** Removing elements keeps an ascending sequence ascending. */
  lemma {:induction false} ExceptKeepsIncreasing(s: seq<nat>, drop: seq<nat>)
    requires Increasing(s)
    ensures Increasing(Except(s, drop))
  {
    if s != [] {
      var init := s[..|s| - 1];
      ExceptKeepsIncreasing(init, drop);
      ExceptMembers(init, drop);
      var e := Except(init, drop);
      forall x | x in e ensures x < s[|s| - 1] {
        assert x in init;
      }
      var last := if s[|s| - 1] in drop then [] else [s[|s| - 1]];
      forall i, j | 0 <= i < j < |e + last| ensures (e + last)[i] < (e + last)[j] {
        if j >= |e| {
          assert (e + last)[i] == e[i] && e[i] in e;
        }
      }
    }
  }

  /** Duplicate removal leaves a sequence without duplicates unchanged. */
  lemma {:induction false} DedupOfDistinct(s: seq<nat>)
    requires NoDuplicates(s)
    ensures Dedup(s) == s
  {
    if s != [] {
      var init := s[..|s| - 1];
      DedupOfDistinct(init);
      assert s[|s| - 1] !in init;
      assert init + [s[|s| - 1]] == s;
    }
  }

  /** One more element at the end is dropped when it is already present. */
  lemma DedupSnocPresent(s: seq<nat>, x: nat)
    requires x in s
    ensures Dedup(s + [x]) == Dedup(s)
  {
    assert (s + [x])[..|s|] == s;
    DedupMembers(s);
  }

  /** One more element at the end is kept when it is new. */
  lemma DedupSnocNew(s: seq<nat>, x: nat)
    requires x !in s
    ensures Dedup(s + [x]) == Dedup(s) + [x]
  {
    assert (s + [x])[..|s|] == s;
    DedupMembers(s);
  }

  /** One more element at the end survives exactly when it is not dropped. */
  lemma ExceptSnoc(s: seq<nat>, x: nat, drop: seq<nat>)
    ensures x in drop ==> Except(s + [x], drop) == Except(s, drop)
    ensures x !in drop ==> Except(s + [x], drop) == Except(s, drop) + [x]
  {
    assert (s + [x])[..|s|] == s;
  }

  /**
   * Deduplicating a concatenation whose second part has no repeats gives
   * the first part deduplicated, then the second part less what the first
   * part holds.
   */
  lemma {:induction false} DedupOfAppend(a: seq<nat>, b: seq<nat>)
    requires NoDuplicates(b)
    ensures Dedup(a + b) == Dedup(a) + Except(b, a)
  {
    if b == [] {
      assert a + b == a;
    } else {
      var init, x := b[..|b| - 1], b[|b| - 1];
      assert b == init + [x];
      DedupOfAppend(a, init);
      DedupAppendStep(a, init, x);
    }
  }

  /** The inductive step of DedupOfAppend: one more new element at the end. */
  lemma DedupAppendStep(a: seq<nat>, init: seq<nat>, x: nat)
    requires Dedup(a + init) == Dedup(a) + Except(init, a)
    requires x !in init
    ensures Dedup(a + (init + [x])) == Dedup(a) + Except(init + [x], a)
  {
    var t := a + init;
    assert a + (init + [x]) == t + [x];
    ExceptSnoc(init, x, a);
    if x in a {
      assert x in t by {
        var k :| 0 <= k < |a| && a[k] == x;
        assert t[k] == x;
      }
      DedupSnocPresent(t, x);
    } else {
      assert x !in t;
      DedupSnocNew(t, x);
      var d, e := Dedup(a), Except(init, a);
      assert (d + e) + [x] == d + (e + [x]);
    }
  }

  /**
   * The positions a keyword selects. An empty keyword selects nothing;
   * otherwise a position is selected exactly when the fuzzy branch or the
   * EAN branch yields it, and no position is selected twice.
   */
  function SearchIndices(catalog: seq<Row>, keyword: string, matches: seq<string>): (idx: seq<nat>)
    requires forall m :: m in matches ==> Described(catalog, m)
    ensures keyword == [] ==> idx == []
    ensures NoDuplicates(idx)
    ensures forall i :: i in idx ==> i < |catalog|
    ensures forall i :: i in idx <==>
      keyword != [] &&
      (i in FuzzyIndices(catalog, matches) || (0 <= i < |catalog| && EanHit(catalog[i], keyword)))
  {
    if keyword == [] then []
    else
      var fuzzy := FuzzyIndices(catalog, matches);
      var byEan := EanIndices(catalog, keyword);
      assert forall i :: i in fuzzy ==> i < |catalog| by {
        forall i | i in fuzzy ensures i < |catalog| {
          var k :| 0 <= k < |fuzzy| && fuzzy[k] == i;
        }
      }
      DedupMembers(fuzzy + byEan);
      DedupHasNoDuplicates(fuzzy + byEan);
      Dedup(fuzzy + byEan)
  }

  /**
   * The order of a search result: the fuzzy rows first, in the scorer's order
   * with repeats dropped, then the EAN rows not already listed, ascending.
   */
  lemma SearchOrder(catalog: seq<Row>, keyword: string, matches: seq<string>)
    requires forall m :: m in matches ==> Described(catalog, m)
    requires keyword != []
    ensures var fuzzy := FuzzyIndices(catalog, matches);
      var rest := Except(EanIndices(catalog, keyword), fuzzy);
      SearchIndices(catalog, keyword, matches) == Dedup(fuzzy) + rest && Increasing(rest)
  {
    var fuzzy := FuzzyIndices(catalog, matches);
    var byEan := EanIndices(catalog, keyword);
    assert NoDuplicates(byEan);
    DedupOfAppend(fuzzy, byEan);
    ExceptKeepsIncreasing(byEan, fuzzy);
  }
}
