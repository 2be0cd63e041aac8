/** The result merge: the stream pipeline that `search` runs over the result
    sets of the batched query. Result sets whose total-hit count is not
    positive are dropped; the hits of the others are flattened, in result-set
    order and then hit order, and each hit is replaced by its document. No
    document is deduplicated. Documents are of the type parameter `D`. */
module ResultMerge {

  /** One hit of a query: the matched document (scores and highlights are not
      used by the merge). */
  datatype SearchHit<D> = SearchHit(content: D)

  /** The backend's answer to one query: its total-hit count and its hits. The
      merge reads only `totalHits` to decide whether a result set is kept; the
      two are not assumed to agree. */
  datatype SearchHits<D> = SearchHits(totalHits: int, hits: seq<SearchHit<D>>)

  /** `hasTotalHits`. */
  predicate HasTotalHits<D>(it: SearchHits<D>) {
    it.totalHits > 0
  }

  /** `.filter(this::hasTotalHits)`. */
  function FilterTotalHits<D>(results: seq<SearchHits<D>>): (r: seq<SearchHits<D>>)
    ensures |r| <= |results|
    ensures forall i :: 0 <= i < |r| ==> HasTotalHits(r[i]) && r[i] in results
    ensures forall i :: 0 <= i < |results| && HasTotalHits(results[i]) ==> results[i] in r
  {
    if results == [] then []
    else if HasTotalHits(results[0]) then [results[0]] + FilterTotalHits(results[1..])
    else FilterTotalHits(results[1..])
  }

  /** `.flatMap(Streamable::stream)`. */
  function FlattenHits<D>(results: seq<SearchHits<D>>): seq<SearchHit<D>> {
    if results == [] then [] else results[0].hits + FlattenHits(results[1..])
  }

  /** `.map(SearchHit::getContent)`. */
  function Contents<D>(hits: seq<SearchHit<D>>): (r: seq<D>)
    ensures |r| == |hits|
    ensures forall i :: 0 <= i < |r| ==> r[i] == hits[i].content
  {
    if hits == [] then [] else [hits[0].content] + Contents(hits[1..])
  }

  /** The body of `search` after `multiSearch`: filter, flatten, map. */
  function Merge<D>(results: seq<SearchHits<D>>): seq<D> {
    Contents(FlattenHits(FilterTotalHits(results)))
  }

  // ---------------------------------------------------------------------------
  // A reference description, one result set at a time

  /** What one result set adds to the merged list: all its documents, in hit
      order, when its total-hit count is positive; otherwise nothing. */
  function Contribution<D>(it: SearchHits<D>): seq<D> {
    if HasTotalHits(it) then Contents(it.hits) else []
  }

  /** Sum of the hit counts of the result sets that are kept. */
  function KeptHitCount<D>(results: seq<SearchHits<D>>): nat {
    if results == [] then 0
    else (if HasTotalHits(results[0]) then |results[0].hits| else 0) + KeptHitCount(results[1..])
  }

  lemma {:induction false} ContentsAppend<D>(a: seq<SearchHit<D>>, b: seq<SearchHit<D>>)
    ensures Contents(a + b) == Contents(a) + Contents(b)
  {
    if a != [] {
      ContentsAppend(a[1..], b);
      assert (a + b)[1..] == a[1..] + b;
    }
  }

  /** The pipeline takes the result sets one at a time, front to back. */
  lemma MergeCons<D>(it: SearchHits<D>, rest: seq<SearchHits<D>>)
    ensures Merge([it] + rest) == Contribution(it) + Merge(rest)
  {
    assert ([it] + rest)[1..] == rest;
    var kept := FilterTotalHits(rest);
    if HasTotalHits(it) {
      assert FilterTotalHits([it] + rest) == [it] + kept;
      assert ([it] + kept)[1..] == kept;
      assert FlattenHits([it] + kept) == it.hits + FlattenHits(kept);
      ContentsAppend(it.hits, FlattenHits(kept));
    } else {
      assert FilterTotalHits([it] + rest) == kept;
    }
  }

  /** One step of the pipeline: the first result set's contribution, then the
      merge of the rest. */
  lemma MergeStep<D>(results: seq<SearchHits<D>>)
    ensures results == [] ==> Merge(results) == []
    ensures results != [] ==> Merge(results) == Contribution(results[0]) + Merge(results[1..])
  {
    if results != [] {
      assert results == [results[0]] + results[1..];
      MergeCons(results[0], results[1..]);
    }
  }

  /** The merge described one result set at a time: the contributions of all
      result sets, concatenated in order. */
  function Concatenated<D>(results: seq<SearchHits<D>>): seq<D> {
    if results == [] then [] else Contribution(results[0]) + Concatenated(results[1..])
  }

  /** The stream pipeline computes the reference description. */
  lemma {:induction false} MergeIsConcatenated<D>(results: seq<SearchHits<D>>)
    ensures Merge(results) == Concatenated(results)
  {
    if results != [] {
      MergeStep(results);
      MergeIsConcatenated(results[1..]);
    }
  }

  lemma {:induction false} ConcatenatedAppend<D>(a: seq<SearchHits<D>>, b: seq<SearchHits<D>>)
    ensures Concatenated(a + b) == Concatenated(a) + Concatenated(b)
  {
    if a == [] {
      assert a + b == b;
    } else {
      assert (a + b)[1..] == a[1..] + b;
      ConcatenatedAppend(a[1..], b);
    }
  }

  /** Merging is compositional: the merge of a concatenation is the
      concatenation of the merges, so result-set order is kept. */
  lemma MergeAppend<D>(a: seq<SearchHits<D>>, b: seq<SearchHits<D>>)
    ensures Merge(a + b) == Merge(a) + Merge(b)
  {
    MergeIsConcatenated(a + b);
    MergeIsConcatenated(a);
    MergeIsConcatenated(b);
    ConcatenatedAppend(a, b);
  }

  /** A result set whose total-hit count is not positive contributes nothing,
      whatever hits it carries. */
  lemma MergeSkipsEmptyTotal<D>(a: seq<SearchHits<D>>, it: SearchHits<D>, b: seq<SearchHits<D>>)
    requires !HasTotalHits(it)
    ensures Merge(a + [it] + b) == Merge(a + b)
  {
    MergeAppend(a + [it], b);
    MergeAppend(a, [it]);
    MergeCons(it, []);
    MergeAppend(a, b);
  }

  /** No deduplication: the merged length is the sum of the hit counts of the
      kept result sets. */
  lemma {:induction false} MergeLength<D>(results: seq<SearchHits<D>>)
    ensures |Merge(results)| == KeptHitCount(results)
  {
    MergeStep(results);
    if results != [] {
      MergeLength(results[1..]);
    }
  }

  /** When no result set reports a positive total, including when there are no
      result sets at all, the merged list is empty. */
  lemma {:induction false} MergeNoMatches<D>(results: seq<SearchHits<D>>)
    requires forall i :: 0 <= i < |results| ==> results[i].totalHits <= 0
    ensures Merge(results) == []
  {
    MergeStep(results);
    if results != [] {
      MergeNoMatches(results[1..]);
    }
  }

  /** A document is in the merged list exactly when some kept result set has a
      hit on it. */
  lemma {:induction false} MergeMembership<D>(results: seq<SearchHits<D>>, d: D)
    ensures d in Merge(results) <==>
            exists i :: 0 <= i < |results| && HasTotalHits(results[i]) && d in Contents(results[i].hits)
  {
    MergeStep(results);
    if results != [] {
      MergeMembership(results[1..], d);
      if d in Merge(results[1..]) {
        var i :| 0 <= i < |results[1..]| && HasTotalHits(results[1..][i]) && d in Contents(results[1..][i].hits);
        assert results[i + 1] == results[1..][i];
      }
      if exists i :: 0 <= i < |results| && HasTotalHits(results[i]) && d in Contents(results[i].hits) {
        var i :| 0 <= i < |results| && HasTotalHits(results[i]) && d in Contents(results[i].hits);
        if i > 0 {
          assert results[1..][i - 1] == results[i];
        }
      }
    }
  }

  /** A document hit by two different kept result sets appears (at least) twice. */
  lemma MergeKeepsDuplicates<D>(results: seq<SearchHits<D>>, i: nat, j: nat, d: D)
    requires i < j < |results|
    requires HasTotalHits(results[i]) && d in Contents(results[i].hits)
    requires HasTotalHits(results[j]) && d in Contents(results[j].hits)
    ensures multiset(Merge(results))[d] >= 2
  {
    var front, back := results[..j], results[j..];
    assert results == front + back;
    MergeAppend(front, back);
    assert d in Merge(front) by {
      assert front[i] == results[i];
      MergeMembership(front, d);
    }
    assert d in Merge(back) by {
      assert back == [results[j]] + back[1..];
      MergeCons(results[j], back[1..]);
    }
    TwiceInConcatenation(Merge(front), Merge(back), d);
  }

  lemma TwiceInConcatenation<D>(a: seq<D>, b: seq<D>, d: D)
    requires d in a && d in b
    ensures multiset(a + b)[d] >= 2
  {
    assert multiset(a + b) == multiset(a) + multiset(b);
  }

  /** The worked example: totals 0, 2, 0, 1 give the two hits of the second
      result set followed by the hit of the fourth. */
  lemma MergeExample<D>(d1: D, d2: D, d3: D)
    ensures Merge([SearchHits(0, []), SearchHits(2, [SearchHit(d1), SearchHit(d2)]),
                   SearchHits(0, []), SearchHits(1, [SearchHit(d3)])]) == [d1, d2, d3]
  {
    var rs := [SearchHits(0, []), SearchHits(2, [SearchHit(d1), SearchHit(d2)]),
               SearchHits(0, []), SearchHits(1, [SearchHit(d3)])];
    MergeStep(rs);
    MergeStep(rs[1..]);
    MergeStep(rs[2..]);
    MergeStep(rs[3..]);
    assert rs[3..][1..] == [];
  }
}
