/** The query fan-out: one keyword becomes one "field contains keyword" query
    per searchable field. There is no OR tree across fields; the union is
    formed later, when the result sets are merged. */
module QueryFanOut {

  /** Spring's `Pageable`: page number, page size and sort order. The search
      never looks inside it; every query carries it unchanged, and the backend
      applies it. */
  datatype Pageable = Pageable(pageNumber: nat, pageSize: nat, sort: seq<string>)

  /** `new Criteria(field).contains(keyword)`. Matching, case and tokenisation
      are the backend's business; here the predicate is data. */
  datatype Criteria = Contains(field: string, keyword: string)

  /** `new CriteriaQuery(criteria).setPageable(pageable)`. */
  datatype Query = CriteriaQuery(criteria: Criteria, pageable: Pageable)

  /** Spring's `Criteria` separates values by a blank, so `contains` refuses a
      keyword holding one. */
  const BLANK: char := ' '

  /** The exception `Criteria.contains` throws: `InvalidDataAccessApiUsageException`. */
  datatype Error = InvalidDataAccessApiUsage(keyword: string)

  /** A value, or the exception that interrupted its computation. */
  datatype Result<T> = Success(value: T) | Failure(error: Error)

  /** `createCriteria`: fails, on the client, for a keyword with a blank. */
  function CreateCriteria(field: string, keyword: string): Result<Criteria> {
    if BLANK in keyword then Failure(InvalidDataAccessApiUsage(keyword))
    else Success(Contains(field, keyword))
  }

  /** `createCriteriaQuery`. */
  function CreateCriteriaQuery(criteria: Criteria, pageable: Pageable): Query {
    CriteriaQuery(criteria, pageable)
  }

  /** `getQueries`: the stream over the fields mapped through `createCriteria`
      and then `createCriteriaQuery`. It fails exactly when some criteria is
      built and the keyword holds a blank; otherwise query i is bound to field
      i, and all of them share the caller's keyword and page descriptor. */
  function GetQueries(fields: seq<string>, keyword: string, pageable: Pageable): (r: Result<seq<Query>>)
    ensures r.Failure? <==> fields != [] && BLANK in keyword
    ensures r.Failure? ==> r.error == InvalidDataAccessApiUsage(keyword)
    ensures r.Success? ==> |r.value| == |fields|
    ensures r.Success? ==> forall i :: 0 <= i < |r.value| ==>
              r.value[i].criteria == Contains(fields[i], keyword) && r.value[i].pageable == pageable
  {
    if fields == [] then Success([])
    else match CreateCriteria(fields[0], keyword)
      case Failure(e) => Failure(e)
      case Success(criteria) =>
        match GetQueries(fields[1..], keyword, pageable)
        case Failure(e) => Failure(e)
        case Success(rest) => Success([CreateCriteriaQuery(criteria, pageable)] + rest)
  }

  /** The field each query is bound to, in query order. */
  function TargetFields(queries: seq<Query>): (r: seq<string>)
    ensures |r| == |queries|
  {
    if queries == [] then [] else [queries[0].criteria.field] + TargetFields(queries[1..])
  }

  /** Reading the target fields back off the queries gives the field list:
      no field is skipped, repeated or reordered by the fan-out. */
  lemma {:induction false} TargetFieldsOfQueries(fields: seq<string>, keyword: string, pageable: Pageable)
    ensures GetQueries(fields, keyword, pageable).Success? ==>
              TargetFields(GetQueries(fields, keyword, pageable).value) == fields
  {
    if fields != [] && GetQueries(fields, keyword, pageable).Success? {
      TargetFieldsOfQueries(fields[1..], keyword, pageable);
    }
  }
}
