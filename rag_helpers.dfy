/**
 * The retrieval helpers of worker/rag-helpers.js: cosine similarity with its
 * guards, ranking of stored chunk embeddings against a query, and the
 * prompt context built from the ranked chunks. Scores are reals; Math.sqrt
 * and Number.prototype.toFixed(3) are parameters.
 */
module RagHelpers {
  import opened Wrappers
  import opened Text
  import opened Sorting
  import opened Numeric

  /** The square root is positive on positive arguments; nothing else about it is used. */
  ghost predicate PositiveRoot(sqrt: real -> real) {
    forall x :: 0.0 < x ==> 0.0 < sqrt(x)
  }

  /** The dot product, summed left to right. */
  function Dot(a: Vector, b: Vector): real
    requires |a| == |b|
  {
    if a == [] then 0.0
    else Dot(a[..|a| - 1], b[..|b| - 1]) + a[|a| - 1] * b[|b| - 1]
  }

  /** The squared norm. */
  function SumSq(a: Vector): real {
    Dot(a, a)
  }

  /** dot / (Math.sqrt(normA) * Math.sqrt(normB)) for positive squared norms. */
  function Normalized(dot: real, normA: real, normB: real, sqrt: real -> real): real
    requires PositiveRoot(sqrt) && normA > 0.0 && normB > 0.0
  {
    assert sqrt(normA) * sqrt(normB) > 0.0;
    dot / (sqrt(normA) * sqrt(normB))
  }

  /** cosineSimilarity: 0 for a missing vector, a length mismatch or a zero norm. */
  function Cosine(a: Option<Vector>, b: Option<Vector>, sqrt: real -> real): (r: real)
    requires PositiveRoot(sqrt)
    ensures r != 0.0 ==> a.Some? && b.Some? && |a.value| == |b.value| && SumSq(a.value) > 0.0 && SumSq(b.value) > 0.0
  {
    if a.None? || b.None? || |a.value| != |b.value| then 0.0
    else if SumSq(a.value) == 0.0 || SumSq(b.value) == 0.0 then 0.0
    else
      SumSqNonNegative(a.value);
      SumSqNonNegative(b.value);
      Normalized(Dot(a.value, b.value), SumSq(a.value), SumSq(b.value), sqrt)
  }

  lemma {:induction false} SumSqNonNegative(a: Vector)
    ensures SumSq(a) >= 0.0
  {
    if a != [] {
      SumSqNonNegative(a[..|a| - 1]);
      var x := a[|a| - 1];
      assert x * x >= 0.0;
    }
  }

  /** The zero vector has squared norm 0. */
  lemma {:induction false} SumSqOfZero(a: Vector)
    requires forall i :: 0 <= i < |a| ==> a[i] == 0.0
    ensures SumSq(a) == 0.0
  {
    if a != [] {
      SumSqOfZero(a[..|a| - 1]);
      assert a[|a| - 1] == 0.0;
    }
  }

  lemma {:induction false} DotSymmetric(a: Vector, b: Vector)
    requires |a| == |b|
    ensures Dot(a, b) == Dot(b, a)
  {
    if a != [] {
      DotSymmetric(a[..|a| - 1], b[..|b| - 1]);
    }
  }

  /**
   * The guards: a missing vector, different lengths or a zero vector score 0;
   * vectors with a zero dot product (orthogonal ones) score 0; the score is
   * symmetric.
   */
  lemma {:induction false} CosineGuards(a: Option<Vector>, b: Option<Vector>, sqrt: real -> real)
    requires PositiveRoot(sqrt)
    ensures a.None? || b.None? ==> Cosine(a, b, sqrt) == 0.0
    ensures a.Some? && b.Some? && |a.value| != |b.value| ==> Cosine(a, b, sqrt) == 0.0
    ensures a.Some? && (forall i :: 0 <= i < |a.value| ==> a.value[i] == 0.0) ==> Cosine(a, b, sqrt) == 0.0
    ensures b.Some? && (forall i :: 0 <= i < |b.value| ==> b.value[i] == 0.0) ==> Cosine(a, b, sqrt) == 0.0
    ensures a.Some? && b.Some? && |a.value| == |b.value| && Dot(a.value, b.value) == 0.0 ==> Cosine(a, b, sqrt) == 0.0
    ensures Cosine(a, b, sqrt) == Cosine(b, a, sqrt)
  {
    if a.Some? && forall i :: 0 <= i < |a.value| ==> a.value[i] == 0.0 {
      SumSqOfZero(a.value);
    }
    if b.Some? && forall i :: 0 <= i < |b.value| ==> b.value[i] == 0.0 {
      SumSqOfZero(b.value);
    }
    if a.Some? && b.Some? && |a.value| == |b.value| {
      DotSymmetric(a.value, b.value);
      SumSqNonNegative(a.value);
      SumSqNonNegative(b.value);
    }
  }

  /** The score has the sign of the dot product. */
  lemma {:induction false} CosineSign(a: Vector, b: Vector, sqrt: real -> real)
    requires PositiveRoot(sqrt) && |a| == |b|
    ensures Cosine(Some(a), Some(b), sqrt) > 0.0 <==> Dot(a, b) > 0.0 && SumSq(a) != 0.0 && SumSq(b) != 0.0
  {
    SumSqNonNegative(a);
    SumSqNonNegative(b);
    if SumSq(a) != 0.0 && SumSq(b) != 0.0 {
      var d := sqrt(SumSq(a)) * sqrt(SumSq(b));
      assert d > 0.0;
      assert Normalized(Dot(a, b), SumSq(a), SumSq(b), sqrt) == Dot(a, b) / d;
    }
  }

  /** cosineSimilarity: one pass accumulating the dot product and both squared norms. */
  method CosineSimilarity(a: Option<Vector>, b: Option<Vector>, sqrt: real -> real) returns (r: real)
    requires PositiveRoot(sqrt)
    ensures r == Cosine(a, b, sqrt)
  {
    if a.None? || b.None? || |a.value| != |b.value| {
      return 0.0;
    }
    var u, v := a.value, b.value;
    var dot, normA, normB := 0.0, 0.0, 0.0;
    for i := 0 to |u|
      invariant dot == Dot(u[..i], v[..i])
      invariant normA == SumSq(u[..i]) && normB == SumSq(v[..i])
    {
      assert u[..i + 1][..i] == u[..i] && v[..i + 1][..i] == v[..i];
      dot := dot + u[i] * v[i];
      normA := normA + u[i] * u[i];
      normB := normB + v[i] * v[i];
    }
    assert u[..|u|] == u && v[..|v|] == v;
    assert dot == Dot(u, v) && normA == SumSq(u) && normB == SumSq(v);
    if normA == 0.0 || normB == 0.0 {
      return 0.0;
    }
    SumSqNonNegative(u);
    SumSqNonNegative(v);
    r := Normalized(dot, normA, normB, sqrt);
  }

  // ---------------------------------------------------------------- ranking

  datatype RagDoc = RagDoc(id: string, text: string)

  /** { score, doc, index } */
  datatype Scored = Scored(score: real, doc: RagDoc, index: nat)

  /** The comparator (a, b) => b.score - a.score: a stays in front when it scores at least as much. */
  predicate KeepHigher(x: Scored, y: Scored)
    ensures KeepHigher(x, y) <==> x.score >= y.score
  {
    y.score - x.score <= 0.0
  }

  /** The order the stable sort produces on distinct indices: higher score first, ties by index. */
  predicate RanksBefore(x: Scored, y: Scored) {
    x.score > y.score || (x.score == y.score && x.index < y.index)
  }

  /** The scored array: position i pairs embeddings[i] with docs[i], up to the shorter of the two. */
  function ScoredEntries(query: Option<Vector>, embeddings: seq<Option<Vector>>, docs: seq<RagDoc>, sqrt: real -> real): (s: seq<Scored>)
    requires PositiveRoot(sqrt)
    ensures |s| == Min(|embeddings|, |docs|)
  {
    seq(Min(|embeddings|, |docs|), i requires 0 <= i < Min(|embeddings|, |docs|) =>
      Scored(Cosine(query, embeddings[i], sqrt), docs[i], i))
  }

  /** The end index of Array.prototype.slice(0, k) on n elements. */
  function SliceEnd(n: nat, k: int): (e: nat)
    ensures e <= n
    ensures k >= 0 ==> e == Min(n, k)
    ensures k < 0 ==> e == if n + k > 0 then n + k else 0
  {
    if k < 0 then (if n + k > 0 then n + k else 0) else Min(n, k)
  }

  /** .filter((entry) => entry.score > 0) */
  function Positive(s: seq<Scored>): (r: seq<Scored>)
    ensures |r| <= |s|
    ensures forall e :: e in r <==> e in s && e.score > 0.0
  {
    if s == [] then []
    else
      var init, last := s[..|s| - 1], s[|s| - 1];
      assert forall e :: e in s <==> e in init || e == last;
      if last.score > 0.0 then Positive(init) + [last] else Positive(init)
  }

  /** The sorted, scored entries. */
  function SortedEntries(query: Option<Vector>, embeddings: seq<Option<Vector>>, docs: seq<RagDoc>, sqrt: real -> real): seq<Scored>
    requires PositiveRoot(sqrt)
  {
    SortBy(ScoredEntries(query, embeddings, docs, sqrt), KeepHigher)
  }

  /** What rankDocuments returns. */
  function Ranked(query: Option<Vector>, embeddings: Option<seq<Option<Vector>>>, docs: seq<RagDoc>,
                  topK: int, sqrt: real -> real): (r: seq<Scored>)
    requires PositiveRoot(sqrt)
    ensures forall e :: e in r ==> e.score > 0.0
    ensures topK >= 0 ==> |r| <= topK
  {
    if embeddings.None? || embeddings.value == [] then []
    else
      var sorted := SortedEntries(query, embeddings.value, docs, sqrt);
      Positive(sorted[..SliceEnd(|sorted|, topK)])
  }

  /** rankDocuments; a missing or non-array embeddings argument is None. */
  method RankDocuments(query: Option<Vector>, embeddings: Option<seq<Option<Vector>>>, docs: seq<RagDoc>,
                       topK: int, sqrt: real -> real) returns (ranked: seq<Scored>)
    requires PositiveRoot(sqrt)
    ensures ranked == Ranked(query, embeddings, docs, topK, sqrt)
  {
    if embeddings.None? || |embeddings.value| == 0 {
      return [];
    }
    var count := Min(|embeddings.value|, |docs|);
    var scored: seq<Scored> := [];
    for i := 0 to count
      invariant scored == ScoredEntries(query, embeddings.value, docs, sqrt)[..i]
    {
      var score := CosineSimilarity(query, embeddings.value[i], sqrt);
      scored := scored + [Scored(score, docs[i], i)];
    }
    assert scored == ScoredEntries(query, embeddings.value, docs, sqrt);
    var sorted := SortBy(scored, KeepHigher);
    ranked := Positive(sorted[..SliceEnd(|sorted|, topK)]);
  }

  /** rankDocuments with the default topK of 3. */
  method RankTopThree(query: Option<Vector>, embeddings: Option<seq<Option<Vector>>>, docs: seq<RagDoc>,
                      sqrt: real -> real) returns (ranked: seq<Scored>)
    requires PositiveRoot(sqrt)
    ensures ranked == Ranked(query, embeddings, docs, 3, sqrt)
    ensures |ranked| <= 3
  {
    ranked := RankDocuments(query, embeddings, docs, 3, sqrt);
    if embeddings.Some? {
      RankedMembers(query, embeddings.value, docs, 3, sqrt);
    }
  }

  lemma {:induction false} RanksBeforeTransitive()
    ensures Transitive(RanksBefore)
  {
  }

  /** The scored entries meet the stable sort's expectations: the comparator agrees with RanksBefore. */
  lemma {:induction false} ScoredCompatible(s: seq<Scored>)
    requires forall i :: 0 <= i < |s| ==> s[i].index == i
    ensures Compatible(s, KeepHigher, RanksBefore)
  {
  }

  /** The positive entries of a sorted sequence stay sorted. */
  lemma {:induction false} PositiveSorted(s: seq<Scored>)
    requires StrictlySorted(s, RanksBefore)
    ensures StrictlySorted(Positive(s), RanksBefore)
  {
    if s != [] {
      var init, last := s[..|s| - 1], s[|s| - 1];
      assert StrictlySorted(init, RanksBefore);
      PositiveSorted(init);
      if last.score > 0.0 {
        var p := Positive(init);
        forall k | 0 <= k < |p| ensures RanksBefore(p[k], last) {
          assert p[k] in init;
        }
      }
    }
  }

  lemma {:induction false} SortedEntriesProperties(query: Option<Vector>, embeddings: seq<Option<Vector>>, docs: seq<RagDoc>, sqrt: real -> real)
    requires PositiveRoot(sqrt)
    ensures var scored, sorted := ScoredEntries(query, embeddings, docs, sqrt), SortedEntries(query, embeddings, docs, sqrt);
      StrictlySorted(sorted, RanksBefore) && multiset(sorted) == multiset(scored)
      && forall e :: e in sorted <==> e in scored
  {
    var scored := ScoredEntries(query, embeddings, docs, sqrt);
    RanksBeforeTransitive();
    ScoredCompatible(scored);
    SortByStrictlySorted(scored, KeepHigher, RanksBefore);
    var sorted := SortedEntries(query, embeddings, docs, sqrt);
    forall e ensures e in sorted <==> e in scored {
      assert e in sorted <==> e in multiset(sorted);
    }
  }

  /** Without embeddings there is nothing to rank. */
  lemma {:induction false} RankedWithoutEmbeddings(query: Option<Vector>, embeddings: Option<seq<Option<Vector>>>, docs: seq<RagDoc>,
                                                   topK: int, sqrt: real -> real)
    requires PositiveRoot(sqrt)
    requires embeddings.None? || embeddings == Some([])
    ensures Ranked(query, embeddings, docs, topK, sqrt) == []
  {
  }

  /** At most topK entries (for topK >= 0), each positive and the scored entry of its own index. */
  lemma {:induction false} RankedMembers(query: Option<Vector>, embeddings: seq<Option<Vector>>, docs: seq<RagDoc>,
                                         topK: int, sqrt: real -> real)
    requires PositiveRoot(sqrt)
    ensures var r, scored := Ranked(query, Some(embeddings), docs, topK, sqrt), ScoredEntries(query, embeddings, docs, sqrt);
      (topK >= 0 ==> |r| <= topK)
      && forall e :: e in r ==> e.score > 0.0 && e.index < |scored| && e == scored[e.index]
  {
    if embeddings != [] {
      var scored := ScoredEntries(query, embeddings, docs, sqrt);
      var sorted := SortedEntries(query, embeddings, docs, sqrt);
      SortedEntriesProperties(query, embeddings, docs, sqrt);
      var slice := sorted[..SliceEnd(|sorted|, topK)];
      forall e | e in Positive(slice) ensures e.score > 0.0 && e.index < |scored| && e == scored[e.index] {
        assert e in sorted;
      }
    }
  }

  /** In RanksBefore order scores do not increase. */
  lemma {:induction false} RanksBeforeScores(r: seq<Scored>)
    requires StrictlySorted(r, RanksBefore)
    ensures forall i, j :: 0 <= i < j < |r| ==> r[i].score >= r[j].score
  {
    forall i, j | 0 <= i < j < |r| ensures r[i].score >= r[j].score {
      assert RanksBefore(r[i], r[j]);
    }
  }

  /** Ordered by non-increasing score, ties in index order, no index twice. */
  lemma {:induction false} RankedOrdered(query: Option<Vector>, embeddings: seq<Option<Vector>>, docs: seq<RagDoc>,
                                         topK: int, sqrt: real -> real)
    requires PositiveRoot(sqrt)
    ensures var r := Ranked(query, Some(embeddings), docs, topK, sqrt);
      StrictlySorted(r, RanksBefore)
      && forall i, j :: 0 <= i < j < |r| ==> r[i].score >= r[j].score && r[i].index != r[j].index
  {
    var r := Ranked(query, Some(embeddings), docs, topK, sqrt);
    if embeddings != [] {
      var sorted := SortedEntries(query, embeddings, docs, sqrt);
      SortedEntriesProperties(query, embeddings, docs, sqrt);
      var slice := sorted[..SliceEnd(|sorted|, topK)];
      assert StrictlySorted(slice, RanksBefore);
      PositiveSorted(slice);
    }
    RanksBeforeScores(r);
    RankedMembers(query, embeddings, docs, topK, sqrt);
    forall i, j | 0 <= i < j < |r| ensures r[i].index != r[j].index {
      assert RanksBefore(r[i], r[j]) && r[i] in r && r[j] in r;
    }
  }

  /**
   * A positive entry is left out only when the result is a full slice of
   * entries that all score at least as much.
   */
  lemma {:induction false} RankedComplete(query: Option<Vector>, embeddings: seq<Option<Vector>>, docs: seq<RagDoc>,
                                          topK: int, sqrt: real -> real, i: nat)
    requires PositiveRoot(sqrt)
    requires var scored := ScoredEntries(query, embeddings, docs, sqrt); i < |scored| && scored[i].score > 0.0
    ensures var r, scored := Ranked(query, Some(embeddings), docs, topK, sqrt), ScoredEntries(query, embeddings, docs, sqrt);
      scored[i] !in r ==> |r| == SliceEnd(|scored|, topK) && forall e :: e in r ==> e.score >= scored[i].score
  {
    var scored := ScoredEntries(query, embeddings, docs, sqrt);
    var sorted := SortedEntries(query, embeddings, docs, sqrt);
    SortedEntriesProperties(query, embeddings, docs, sqrt);
    assert |sorted| == |multiset(scored)| == |scored|;
    var end := SliceEnd(|sorted|, topK);
    assert Ranked(query, Some(embeddings), docs, topK, sqrt) == Positive(sorted[..end]);
    assert scored[i] in sorted;
    var p :| 0 <= p < |sorted| && sorted[p] == scored[i];
    PrefixComplete(sorted, end, p);
  }

  /**
   * In a sorted sequence, a positive entry missing from the positive part of
   * a prefix lies past the prefix, and the whole prefix is positive and scores
   * at least as much.
   */
  lemma {:induction false} PrefixComplete(sorted: seq<Scored>, end: nat, p: nat)
    requires StrictlySorted(sorted, RanksBefore) && end <= |sorted| && p < |sorted| && sorted[p].score > 0.0
    ensures var r := Positive(sorted[..end]);
      sorted[p] !in r ==> r == sorted[..end] && forall e :: e in r ==> e.score >= sorted[p].score
  {
    var slice := sorted[..end];
    if p < end {
      assert sorted[p] == slice[p];
    } else {
      assert forall k :: 0 <= k < end ==> RanksBefore(slice[k], sorted[p]);
      PositiveOfPositives(slice);
    }
  }

  /** When exactly one scored entry is positive and topK >= 1, the result is that entry alone. */
  lemma {:induction false} RankedSinglePositive(query: Option<Vector>, embeddings: seq<Option<Vector>>, docs: seq<RagDoc>,
                                                topK: int, sqrt: real -> real, i: nat)
    requires PositiveRoot(sqrt) && topK >= 1
    requires var scored := ScoredEntries(query, embeddings, docs, sqrt);
      i < |scored| && scored[i].score > 0.0 && forall j :: 0 <= j < |scored| && j != i ==> scored[j].score <= 0.0
    ensures Ranked(query, Some(embeddings), docs, topK, sqrt) == [ScoredEntries(query, embeddings, docs, sqrt)[i]]
  {
    var scored := ScoredEntries(query, embeddings, docs, sqrt);
    var sorted := SortedEntries(query, embeddings, docs, sqrt);
    SortedEntriesProperties(query, embeddings, docs, sqrt);
    assert scored[i] in sorted;
    var p :| 0 <= p < |sorted| && sorted[p] == scored[i];
    forall k | 0 <= k < |sorted| && k != p ensures sorted[k].score <= 0.0 {
      assert RanksBefore(sorted[k], sorted[p]) || RanksBefore(sorted[p], sorted[k]);
      assert sorted[k] in scored;
    }
    assert RanksBefore(sorted[0], sorted[p]) || sorted[0] == sorted[p];
    assert p == 0;
    PositiveFirstOnly(sorted[..SliceEnd(|sorted|, topK)]);
  }

  /** A sequence whose only positive entry is its first filters to that entry. */
  lemma {:induction false} PositiveFirstOnly(s: seq<Scored>)
    requires s != [] && s[0].score > 0.0
    requires forall k :: 0 < k < |s| ==> s[k].score <= 0.0
    ensures Positive(s) == [s[0]]
  {
    if |s| > 1 {
      PositiveFirstOnly(s[..|s| - 1]);
    } else {
      assert s[..0] == [];
    }
  }

  /** The three scores of the ranking example: positive, then two that are not. */
  lemma {:induction false} ExampleScores(sqrt: real -> real)
    requires PositiveRoot(sqrt)
    ensures var q: Vector := [1.0, 0.0];
      && Cosine(Some(q), Some([1.0, 0.0]), sqrt) > 0.0
      && Cosine(Some(q), Some([0.0, 1.0]), sqrt) <= 0.0
      && Cosine(Some(q), Some([-1.0, 0.0]), sqrt) <= 0.0
  {
    var q: Vector := [1.0, 0.0];
    assert Dot(q, q) == 1.0 && SumSq(q) == 1.0;
    CosineSign(q, q, sqrt);
    assert Dot(q, [0.0, 1.0]) == 0.0;
    CosineGuards(Some(q), Some([0.0, 1.0]), sqrt);
    assert Dot(q, [-1.0, 0.0]) == -1.0;
    CosineSign(q, [-1.0, 0.0], sqrt);
  }

  /**
   * The query [1, 0] against [1, 0], [0, 1] and [-1, 0] with topK 2: only
   * the first document scores above 0, so it is the whole result.
   */
  lemma {:induction false} RankExample(sqrt: real -> real)
    requires PositiveRoot(sqrt)
    ensures var docs := [RagDoc("first", "First"), RagDoc("second", "Second"), RagDoc("third", "Third")];
      var r := Ranked(Some([1.0, 0.0]), Some([Some([1.0, 0.0]), Some([0.0, 1.0]), Some([-1.0, 0.0])]), docs, 2, sqrt);
      |r| == 1 && r[0].doc.id == "first"
  {
    var q: Vector := [1.0, 0.0];
    var embeddings: seq<Option<Vector>> := [Some([1.0, 0.0]), Some([0.0, 1.0]), Some([-1.0, 0.0])];
    var docs := [RagDoc("first", "First"), RagDoc("second", "Second"), RagDoc("third", "Third")];
    var scored := ScoredEntries(Some(q), embeddings, docs, sqrt);
    ExampleScores(sqrt);
    assert scored[0].score > 0.0 && scored[1].score <= 0.0 && scored[2].score <= 0.0;
    RankedSinglePositive(Some(q), embeddings, docs, 2, sqrt, 0);
  }

  /** Filtering changes nothing when every entry is positive. */
  lemma {:induction false} PositiveOfPositives(s: seq<Scored>)
    requires forall k :: 0 <= k < |s| ==> s[k].score > 0.0
    ensures Positive(s) == s
  {
    if s != [] {
      PositiveOfPositives(s[..|s| - 1]);
      assert s[..|s| - 1] + [s[|s| - 1]] == s;
    }
  }

  // ---------------------------------------------------------------- context

  /**
   * `Source ${idx + 1} (score ${score.toFixed(3)}):\n${doc.text}`: block i starts
   * "Source {i+1} (score " and ends with ":", a line break and the section's text.
   */
  function Block(idx: nat, section: Scored, fixed3: real -> string): (b: string)
    ensures StartsWith(b, "Source " + NatToString(idx + 1) + " (score ")
    ensures |b| >= |section.doc.text| + 2
    ensures b[|b| - |section.doc.text|..] == section.doc.text
    ensures b[|b| - |section.doc.text| - 2..|b| - |section.doc.text|] == ":\n"
  {
    var head := "Source " + NatToString(idx + 1) + " (score ";
    var b := head + fixed3(section.score) + "):\n" + section.doc.text;
    assert b[..|head|] == head;
    b
  }

  /** formatContextSections */
  function FormatContextSections(sections: seq<Scored>, fixed3: real -> string): (r: string)
    ensures sections == [] <==> r == ""
  {
    if sections == [] then ""
    else
      var blocks := seq(|sections|, i requires 0 <= i < |sections| => Block(i, sections[i], fixed3));
      JoinNonEmpty(blocks, "\n\n");
      Join(blocks, "\n\n")
  }

  lemma {:induction false} JoinNonEmpty(ws: seq<string>, sep: string)
    requires ws != [] && ws[0] != ""
    ensures Join(ws, sep) != ""
  {
    if |ws| > 1 {
      assert Join(ws, sep)[0] == ws[0][0];
    }
  }

  /** One more section appends a blank line and its block, numbered after the others. */
  lemma {:induction false} FormatSnoc(sections: seq<Scored>, s: Scored, fixed3: real -> string)
    requires sections != []
    ensures FormatContextSections(sections + [s], fixed3)
         == FormatContextSections(sections, fixed3) + "\n\n" + Block(|sections|, s, fixed3)
  {
    var all := sections + [s];
    var blocks := seq(|sections|, i requires 0 <= i < |sections| => Block(i, sections[i], fixed3));
    var more := seq(|all|, i requires 0 <= i < |all| => Block(i, all[i], fixed3));
    assert more == blocks + [Block(|sections|, s, fixed3)];
    JoinSnoc(blocks, Block(|sections|, s, fixed3), "\n\n");
  }

  /** A single section is its block alone. */
  lemma {:induction false} FormatSingle(s: Scored, fixed3: real -> string)
    ensures FormatContextSections([s], fixed3) == Block(0, s, fixed3)
  {
  }
}
