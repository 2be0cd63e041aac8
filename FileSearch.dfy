/** `CustomFileSearchRepositoryImpl.search`: the keyword becomes one query per
    field of `FIELDS`, the queries go to the backend as one batch, and the
    answers are merged. The batch call (`multiSearch`, network I/O) is a
    parameter: any function from the query list to a list of result sets. */
module FileSearch {
  import opened FieldDiscovery
  import opened QueryFanOut
  import opened ResultMerge

  /** `getQueries(keyword, pageable)` over `FIELDS`. */
  function FileQueries(schema: Schema, keyword: string, pageable: Pageable): (r: Result<seq<Query>>)
    ensures r.Failure? <==> AllFields(schema) != [] && BLANK in keyword
    ensures r.Success? ==> |r.value| == |AllFields(schema)|
    ensures r.Success? ==> forall i :: 0 <= i < |r.value| ==>
              r.value[i].criteria == Contains(AllFields(schema)[i], keyword) &&
              r.value[i].criteria.field != ID && r.value[i].pageable == pageable
  {
    GetQueries(AllFields(schema), keyword, pageable)
  }

  /** `search`: fan out, run the batch, merge. A keyword with a blank fails
      before the backend is asked; otherwise the result is as long as the kept
      result sets have hits together, so nothing is deduplicated. */
  function Search<D>(schema: Schema, keyword: string, pageable: Pageable,
                     multiSearch: seq<Query> -> seq<SearchHits<D>>): (r: Result<seq<D>>)
    ensures r.Failure? <==> AllFields(schema) != [] && BLANK in keyword
    ensures r.Failure? ==> r.error == InvalidDataAccessApiUsage(keyword)
    ensures r.Success? ==> |r.value| == KeptHitCount(multiSearch(FileQueries(schema, keyword, pageable).value))
  {
    match FileQueries(schema, keyword, pageable)
    case Failure(e) => Failure(e)
    case Success(queries) =>
      var searchHits := multiSearch(queries);
      MergeLength(searchHits);
      Success(Merge(searchHits))
  }

  /** The value of a successful search, for every backend: the documents of
      the result sets with a positive total, in batch order and hit order. */
  lemma SearchIsConcatenated<D>(schema: Schema, keyword: string, pageable: Pageable,
                                multiSearch: seq<Query> -> seq<SearchHits<D>>)
    ensures var queries := FileQueries(schema, keyword, pageable);
            queries.Success? ==>
              Search(schema, keyword, pageable, multiSearch) == Success(Concatenated(multiSearch(queries.value)))
  {
    var queries := FileQueries(schema, keyword, pageable);
    if queries.Success? {
      MergeIsConcatenated(multiSearch(queries.value));
    }
  }

  /** Under the usual schema facts (names reported once each, no dot in a
      top-level name) no two queries of one search target the same field. */
  lemma FileQueriesTargetDistinctFields(schema: Schema, keyword: string, pageable: Pageable)
    requires Distinct(schema.fileFields) && Distinct(schema.metaFields)
    requires forall f :: f in schema.fileFields ==> SEPARATOR !in f
    ensures var queries := FileQueries(schema, keyword, pageable);
            queries.Success? ==> forall i, j :: 0 <= i < j < |queries.value| ==>
              queries.value[i].criteria.field != queries.value[j].criteria.field
  {
    AllFieldsDistinct(schema);
  }

  /** "No matches" is the empty list: when every result set reports a total of
      zero (or less), a search whose queries were built returns nothing. */
  lemma SearchNoMatches<D>(schema: Schema, keyword: string, pageable: Pageable,
                           multiSearch: seq<Query> -> seq<SearchHits<D>>)
    requires FileQueries(schema, keyword, pageable).Success?
    requires forall i :: 0 <= i < |multiSearch(FileQueries(schema, keyword, pageable).value)| ==>
               multiSearch(FileQueries(schema, keyword, pageable).value)[i].totalHits <= 0
    ensures Search(schema, keyword, pageable, multiSearch) == Success([])
  {
    MergeNoMatches(multiSearch(FileQueries(schema, keyword, pageable).value));
  }

  /** A document is found exactly when some result set with a positive total
      has a hit on it. */
  lemma SearchMembership<D>(schema: Schema, keyword: string, pageable: Pageable,
                            multiSearch: seq<Query> -> seq<SearchHits<D>>, d: D)
    ensures var queries := FileQueries(schema, keyword, pageable);
            queries.Success? ==>
              var rs := multiSearch(queries.value);
              (d in Search(schema, keyword, pageable, multiSearch).value <==>
               exists i :: 0 <= i < |rs| && HasTotalHits(rs[i]) && d in Contents(rs[i].hits))
  {
    var queries := FileQueries(schema, keyword, pageable);
    if queries.Success? {
      MergeMembership(multiSearch(queries.value), d);
    }
  }

  // ---------------------------------------------------------------------------
  // A backend that answers each query on its own, by position

  /** A batch answered query by query: result set i is `answer(queries[i])`. */
  function Batch<D>(answer: Query -> SearchHits<D>, queries: seq<Query>): (r: seq<SearchHits<D>>)
    ensures |r| == |queries|
  {
    if queries == [] then [] else [answer(queries[0])] + Batch(answer, queries[1..])
  }

  /** What the search returns, field by field: for each field in order, the
      documents of its query's answer when that answer reports a positive total. */
  function PerField<D>(fields: seq<string>, keyword: string, pageable: Pageable,
                       answer: Query -> SearchHits<D>): seq<D>
  {
    if fields == [] then []
    else Contribution(answer(CriteriaQuery(Contains(fields[0], keyword), pageable)))
         + PerField(fields[1..], keyword, pageable, answer)
  }

  lemma {:induction false} MergeBatchPerField<D>(fields: seq<string>, keyword: string, pageable: Pageable,
                                                 answer: Query -> SearchHits<D>)
    ensures GetQueries(fields, keyword, pageable).Success? ==>
              Merge(Batch(answer, GetQueries(fields, keyword, pageable).value)) == PerField(fields, keyword, pageable, answer)
  {
    var queries := GetQueries(fields, keyword, pageable);
    if queries.Success? {
      var rs := Batch(answer, queries.value);
      MergeStep(rs);
      if fields != [] {
        assert queries.value[1..] == GetQueries(fields[1..], keyword, pageable).value;
        assert rs[1..] == Batch(answer, queries.value[1..]);
        MergeBatchPerField(fields[1..], keyword, pageable, answer);
      }
    }
  }

  /** With a positional backend the output order is field order first, then
      each query's own hit order. */
  lemma SearchFieldOrder<D>(schema: Schema, keyword: string, pageable: Pageable,
                            answer: Query -> SearchHits<D>)
    ensures FileQueries(schema, keyword, pageable).Success? ==>
              Search(schema, keyword, pageable, qs => Batch(answer, qs))
              == Success(PerField(AllFields(schema), keyword, pageable, answer))
  {
    MergeBatchPerField(AllFields(schema), keyword, pageable, answer);
  }

  /** The field list of the end-to-end example. */
  lemma NameTagFields()
    ensures AllFields(Schema(["id", "name", "meta"], "Meta", ["tag"])) == ["name", "meta.tag"]
  {
    var schema := Schema(["id", "name", "meta"], "Meta", ["tag"]);
    var lower := Lower("Meta");
    assert lower[0] == 'm' && lower[1..] == "eta";
    assert FileFields(schema.fileFields, schema.metaName) == ["name"];
    var embedded := FileEmbeddedFields("Meta", ["tag"]);
    assert embedded[0] == "meta" + "." + "tag" == "meta.tag";
  }

  /** End to end: `File` declares `id, name, meta`, `Meta` declares `tag`; the
      backend answers the `name` query with one hit and the `meta.tag` query
      with none. The keyword `foo bar` is refused before any query is sent. */
  lemma SearchExample<D>(doc: D, pageable: Pageable, multiSearch: seq<Query> -> seq<SearchHits<D>>)
    requires multiSearch([CriteriaQuery(Contains("name", "foo"), pageable),
                          CriteriaQuery(Contains("meta.tag", "foo"), pageable)])
             == [SearchHits(1, [SearchHit(doc)]), SearchHits(0, [])]
    ensures Search(Schema(["id", "name", "meta"], "Meta", ["tag"]), "foo", pageable, multiSearch) == Success([doc])
    ensures Search(Schema(["id", "name", "meta"], "Meta", ["tag"]), "foo bar", pageable, multiSearch)
            == Failure(InvalidDataAccessApiUsage("foo bar"))
  {
    var schema := Schema(["id", "name", "meta"], "Meta", ["tag"]);
    NameTagFields();
    assert "foo bar"[3] == BLANK;
    assert BLANK !in "foo" by {
      assert "foo"[0] != BLANK && "foo"[1] != BLANK && "foo"[2] != BLANK;
    }
    var queries := FileQueries(schema, "foo", pageable).value;
    assert queries == [CriteriaQuery(Contains("name", "foo"), pageable),
                       CriteriaQuery(Contains("meta.tag", "foo"), pageable)];
    var rs := [SearchHits(1, [SearchHit(doc)]), SearchHits(0, [])];
    MergeStep(rs);
    MergeStep(rs[1..]);
    assert rs[1..][1..] == [];
    assert Contents([SearchHit(doc)]) == [doc];
  }
}
