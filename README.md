# Keyword fan-out search over `File` documents

A Dafny model of the search strategy of `CustomFileSearchRepositoryImpl`, a
Spring Data Elasticsearch repository. One user keyword is searched across all
fields of the `File` document. The repository does this in four steps:

1. **Field discovery.** Once, at class load, it builds the list `FIELDS`. The
   list holds the declared top-level field names of `File`, except `id` and the
   lower-cased name of the embedded record type `Meta`. Then come the fields of
   `Meta`, each written `meta.<field>`.
2. **Fan-out.** It builds one `Criteria(field).contains(keyword)` query per
   entry of `FIELDS`, in order. Every query carries the caller's `Pageable`
   unchanged. A keyword containing a blank makes `contains` throw.
3. **Batch.** It sends all the queries to Elasticsearch in one `multiSearch`
   call.
4. **Merge.** It drops every result set whose `totalHits` is not positive. It
   then flattens the hits of the rest, in result-set order and then hit order,
   and keeps each hit's document. Nothing is deduplicated.

Modules, one per stage:

- `FieldDiscovery` (`FieldDiscovery.dfy`) models reflection by its answers.
  A `Schema` holds `File`'s declared field names, `Meta`'s simple name and
  `Meta`'s declared field names. `FileFields`, `FileEmbeddedFields` and
  `AllFields` are the pure stream pipelines. The static initializer is
  imperative in the source: it fills a shared `ArrayList` with two `addAll`
  calls. It is modelled as the class `FieldList` and the method `InitFields`.
- `QueryFanOut` (`QueryFanOut.dfy`) holds `Criteria`, `Query` and `Pageable`
  as data, and `GetQueries`.
- `ResultMerge` (`ResultMerge.dfy`) holds `SearchHit` and `SearchHits`. The
  merge is written as its three stream stages (`FilterTotalHits`,
  `FlattenHits`, `Contents`). It is proved equal to a reference description
  built one result set at a time (`Contribution`, `Concatenated`).
- `FileSearch` (`FileSearch.dfy`) holds `Search`. It composes the stages, and
  the batch call `multiSearch` is a function parameter.

Documents are a type parameter `D`, because the merge never looks inside them.
Lower-casing is ASCII lower-casing.

`search` does not compare the number of result sets with the number of
queries; it merges whatever list `multiSearch` returns, and so does `Search`.

Spring's `Criteria.contains` checks its keyword on the client and throws
`InvalidDataAccessApiUsageException` when it contains a blank. The model
carries this as a `Result`: `CreateCriteria`, `GetQueries`, `FileQueries` and
`Search` fail with `InvalidDataAccessApiUsage` exactly when at least one
criteria is built, that is when `FIELDS` is not empty, and the keyword holds a
blank. In that case the backend is never asked.

Source functions modelled by members that carry no contract of their own:
`isId` (lines 47-49) is `IsId`, `isFileEmbeddedClassName` (43-45) is
`IsFileEmbeddedClassName`, `getFileEmbeddedClassName` (60-62) is
`FileEmbeddedClassName`, the `String.format` call (56) is `Qualified`,
`createCriteria` (88-90) is `CreateCriteria`, `createCriteriaQuery` (92-94) is
`CreateCriteriaQuery`, `hasTotalHits` (77-79) is `HasTotalHits`, the
`flatMap(Streamable::stream)` step (72) is `FlattenHits`, and the pipeline of
lines 70-74 is `Merge`. Their behaviour is stated by the rows below.

## Model

| member | source | states |
|---|---|---|
| `FieldDiscovery.FileFields` | src/main/java/kr/or/automl/esexample/domain/file/search/CustomFileSearchRepositoryImpl.java:36-49 | Every kept top-level name is a declared `File` field. It is neither `id` nor the lower-cased embedded class name. The list is no longer than the declared list. |
| `FieldDiscovery.FileFieldsSubsequence` | src/main/java/kr/or/automl/esexample/domain/file/search/CustomFileSearchRepositoryImpl.java:37-40 | The top-level list is an order-preserving subsequence of `File`'s declared field names. |
| `FieldDiscovery.FileFieldsCount` | src/main/java/kr/or/automl/esexample/domain/file/search/CustomFileSearchRepositoryImpl.java:36-49 | Each name occurs in the top-level list exactly as often as it is declared, unless it is `id` or the embedded class name. Those two occur zero times. |
| `FieldDiscovery.FileFieldsMembership` | src/main/java/kr/or/automl/esexample/domain/file/search/CustomFileSearchRepositoryImpl.java:39-49 | A name is in the top-level list if and only if it is declared and is neither `id` nor `lower(Meta)`. |
| `FieldDiscovery.FileEmbeddedFields` | src/main/java/kr/or/automl/esexample/domain/file/search/CustomFileSearchRepositoryImpl.java:51-62 | The embedded list has one entry per declared `Meta` field. Entry i is `lower(MetaName) + "." + metaFields[i]`. |
| `FieldDiscovery.QualifiedHasSeparator` | src/main/java/kr/or/automl/esexample/domain/file/search/CustomFileSearchRepositoryImpl.java:56 | A formatted `%s.%s` name has the dot right after the class name. It is never `id` and never the bare class name. |
| `FieldDiscovery.EmbeddedFieldsExcluded` | src/main/java/kr/or/automl/esexample/domain/file/search/CustomFileSearchRepositoryImpl.java:51-62 | No embedded name is `id` or the embedded class name. |
| `FieldDiscovery.EmbeddedFieldsRoundTrip` | src/main/java/kr/or/automl/esexample/domain/file/search/CustomFileSearchRepositoryImpl.java:51-58 | Stripping the `lower(Meta).` prefix from the embedded list gives back `Meta`'s declared fields. |
| `FieldDiscovery.AllFields` | src/main/java/kr/or/automl/esexample/domain/file/search/CustomFileSearchRepositoryImpl.java:23-28 | `FIELDS` is as long as the top-level list plus the number of `Meta` fields. It never holds `id` or the embedded class name. |
| `FieldDiscovery.FieldList.constructor` | src/main/java/kr/or/automl/esexample/domain/file/search/CustomFileSearchRepositoryImpl.java:23 | A new list is empty. |
| `FieldDiscovery.FieldList.AddAll` | src/main/java/kr/or/automl/esexample/domain/file/search/CustomFileSearchRepositoryImpl.java:26-27 | `addAll` appends the given names, in order, after the current ones. |
| `FieldDiscovery.InitFields` | src/main/java/kr/or/automl/esexample/domain/file/search/CustomFileSearchRepositoryImpl.java:23-28 | The static initializer leaves a fresh list equal to `AllFields`. Its prefix is the top-level list and its suffix is the embedded list. |
| `FieldDiscovery.AllFieldsDistinct` | src/main/java/kr/or/automl/esexample/domain/file/search/CustomFileSearchRepositoryImpl.java:23-62 | If each class reports each name once and top-level names have no dot, every name in `FIELDS` is distinct. |
| `FieldDiscovery.AllFieldsExample` | src/main/java/kr/or/automl/esexample/domain/file/search/CustomFileSearchRepositoryImpl.java:23-62 | `File{id, x, y, meta}` with `Meta{a, b}` gives `[x, y, meta.a, meta.b]`. |
| `QueryFanOut.GetQueries` | src/main/java/kr/or/automl/esexample/domain/file/search/CustomFileSearchRepositoryImpl.java:81-94 | It fails with `InvalidDataAccessApiUsage(keyword)` if and only if there is a field and the keyword holds a blank. Otherwise there is exactly one query per field, query i is `fields[i] contains keyword`, and every query carries the caller's pageable. |
| `QueryFanOut.TargetFieldsOfQueries` | src/main/java/kr/or/automl/esexample/domain/file/search/CustomFileSearchRepositoryImpl.java:81-86 | When the queries are built, reading the target field back off each query gives the field list. The fan-out skips, repeats and reorders nothing. |
| `ResultMerge.FilterTotalHits` | src/main/java/kr/or/automl/esexample/domain/file/search/CustomFileSearchRepositoryImpl.java:70-71 | Every result set that survives the filter is an input set with `totalHits > 0`, and every input set with `totalHits > 0` survives. |
| `ResultMerge.Contents` | src/main/java/kr/or/automl/esexample/domain/file/search/CustomFileSearchRepositoryImpl.java:73 | Mapping `getContent` keeps the length. Entry i is the document of hit i. |
| `ResultMerge.MergeCons` | src/main/java/kr/or/automl/esexample/domain/file/search/CustomFileSearchRepositoryImpl.java:70-79 | The pipeline over one result set followed by others gives that set's contribution (its documents if `totalHits > 0`, else nothing), then the merge of the rest. |
| `ResultMerge.MergeStep` | src/main/java/kr/or/automl/esexample/domain/file/search/CustomFileSearchRepositoryImpl.java:70-74 | The merge of no result sets is empty. Otherwise it is the first set's contribution followed by the merge of the rest. |
| `ResultMerge.MergeIsConcatenated` | src/main/java/kr/or/automl/esexample/domain/file/search/CustomFileSearchRepositoryImpl.java:70-79 | The filter, flatMap and map pipeline equals the in-order concatenation of every result set's contribution. |
| `ResultMerge.MergeAppend` | src/main/java/kr/or/automl/esexample/domain/file/search/CustomFileSearchRepositoryImpl.java:70-74 | The merge of `a + b` is the merge of `a` followed by the merge of `b`, so result-set order is kept. |
| `ResultMerge.MergeSkipsEmptyTotal` | src/main/java/kr/or/automl/esexample/domain/file/search/CustomFileSearchRepositoryImpl.java:71-79 | A result set with `totalHits <= 0` contributes nothing, whatever hits it carries. |
| `ResultMerge.MergeLength` | src/main/java/kr/or/automl/esexample/domain/file/search/CustomFileSearchRepositoryImpl.java:70-74 | The merged length equals the sum of the hit counts of the kept result sets, so nothing is deduplicated. |
| `ResultMerge.MergeNoMatches` | src/main/java/kr/or/automl/esexample/domain/file/search/CustomFileSearchRepositoryImpl.java:70-79 | If no result set has a positive total, including when there are none, the merge is empty. |
| `ResultMerge.MergeMembership` | src/main/java/kr/or/automl/esexample/domain/file/search/CustomFileSearchRepositoryImpl.java:70-79 | A document is in the merge if and only if some result set with `totalHits > 0` has a hit on it. |
| `ResultMerge.MergeKeepsDuplicates` | src/main/java/kr/or/automl/esexample/domain/file/search/CustomFileSearchRepositoryImpl.java:70-74 | A document hit by two different kept result sets occurs at least twice in the merge. |
| `ResultMerge.MergeExample` | src/main/java/kr/or/automl/esexample/domain/file/search/CustomFileSearchRepositoryImpl.java:70-79 | Totals `0, 2 [d1, d2], 0, 1 [d3]` merge to `[d1, d2, d3]`. |
| `FileSearch.FileQueries` | src/main/java/kr/or/automl/esexample/domain/file/search/CustomFileSearchRepositoryImpl.java:66 | Fails if and only if `FIELDS` is not empty and the keyword holds a blank. Otherwise query i targets `FIELDS[i]`; none targets `id`, and all carry the caller's keyword and pageable. |
| `FileSearch.Search` | src/main/java/kr/or/automl/esexample/domain/file/search/CustomFileSearchRepositoryImpl.java:65-75 | Fails with `InvalidDataAccessApiUsage(keyword)` if and only if `FIELDS` is not empty and the keyword holds a blank. Otherwise the result is exactly as long as the kept result sets of the batch have hits together. |
| `FileSearch.SearchIsConcatenated` | src/main/java/kr/or/automl/esexample/domain/file/search/CustomFileSearchRepositoryImpl.java:65-75 | For every backend, a successful search returns the documents of the result sets with a positive total, in batch order and then hit order. |
| `FileSearch.FileQueriesTargetDistinctFields` | src/main/java/kr/or/automl/esexample/domain/file/search/CustomFileSearchRepositoryImpl.java:81-86 | Given the usual schema facts, no two queries of one search target the same field. |
| `FileSearch.SearchNoMatches` | src/main/java/kr/or/automl/esexample/domain/file/search/CustomFileSearchRepositoryImpl.java:65-79 | If the queries are built and every result set of the batch has `totalHits <= 0`, the search succeeds with the empty list. |
| `FileSearch.SearchMembership` | src/main/java/kr/or/automl/esexample/domain/file/search/CustomFileSearchRepositoryImpl.java:65-79 | When the queries are built, a document is returned if and only if a result set of the batch with a positive total has a hit on it. |
| `FileSearch.MergeBatchPerField` | src/main/java/kr/or/automl/esexample/domain/file/search/CustomFileSearchRepositoryImpl.java:70-94 | When the queries are built and the backend answers query i with `answer(query i)`, the merge is field by field: each field's answer, in field order. |
| `FileSearch.SearchFieldOrder` | src/main/java/kr/or/automl/esexample/domain/file/search/CustomFileSearchRepositoryImpl.java:65-75 | With such a positional backend, the search output is ordered by `FIELDS` order first and hit order second. |
| `FileSearch.SearchExample` | src/main/java/kr/or/automl/esexample/domain/file/search/CustomFileSearchRepositoryImpl.java:65-94 | Take `File{id, name, meta}` with `Meta{tag}`. The backend answers `name` with one hit and `meta.tag` with a total of 0. Keyword `foo` then returns exactly that one document, and keyword `foo bar` fails. |

## Left out

- `multiSearch` is network I/O to Elasticsearch. It is a function parameter of `Search`. Its exceptions (timeouts, connection errors) are not modelled. The repository does not catch them, so they reach the caller unchanged.
- The repository does not compare the number of result sets with the number of queries. `Search` does not either; the positional correspondence appears only as a hypothesis of `SearchFieldOrder`.
- Java reflection (`getDeclaredFields`, `getSimpleName`) is replaced by the `Schema` parameter, which holds the names it would report. `getDeclaredFields` promises no particular order, so the order of `FIELDS`, and therefore the order of the search result, is whatever order reflection reports; the model takes that order as given and does not fix it.
- `String.toLowerCase` is modelled as ASCII lower-casing. Locale-specific case mappings are not modelled.
- What `Criteria.contains` matches, and how `Pageable` pages and sorts, is decided by Elasticsearch. Both are opaque data carried into each query. Only the client-side refusal of a keyword with a blank is modelled.
- `Criteria.contains` also rejects a null keyword. Dafny strings are never null, so that failure is not modelled.
- Spring wiring (`@Component`, constructor injection of `ElasticsearchOperations`) is not modelled.
- `FIELDS` is a static shared list. `Search` reads it as `AllFields(schema)`, which `InitFields` proves to be the list's content after the static initializer. Later mutation of that list is not modelled; nothing in the class mutates it after initialization.
