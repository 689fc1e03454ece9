/** The bootstrap file's own copy of the query filter and the
    `GET /api/animals` handler that uses it (server.js). */
module Server {
  import opened Outcomes
  import opened Seqs
  import opened Animals

  /** The `forEach` over the requested traits: each pass narrows
      `filteredResults` to the records containing that trait, and throws
      when some remaining record has no `indexOf`. */
  method NarrowTraits(traits: seq<string>, xs: seq<Animal>) returns (r: Result<seq<Animal>, JsError>)
    ensures r == NarrowByTraits(traits, xs)
  {
    var results := xs;
    var i := 0;
    while i < |traits|
      invariant 0 <= i <= |traits|
      invariant NarrowByTraits(traits[i..], results) == NarrowByTraits(traits, xs)
    {
      if !AllSearchable(results) {
        return Err(TypeError);
      }
      var t := traits[i];
      assert traits[i..][1..] == traits[i + 1..];
      results := Filter(TraitTest(t), results);
      i := i + 1;
    }
    r := Ok(results);
  }

  /** One `if (query[key]) filteredResults = filteredResults.filter(...)`:
      the records meeting that criterion, all of them when it is inactive. */
  method NarrowField(q: Query, key: string, xs: seq<Animal>) returns (results: seq<Animal>)
    ensures results == Filter(CriterionTest(q, key), xs)
  {
    results := xs;
    if Active(q, key) {
      results := Filter(FieldTest(key, q[key]), xs);
    }
    NarrowByFieldMeaning(q, key, xs);
  }

  /** The inline copy of the filter in the bootstrap file, statement by
      statement; it computes the library's function. */
  method FilterByQuery(q: Query, xs: seq<Animal>) returns (r: Result<seq<Animal>, JsError>)
    ensures r == Animals.FilterByQuery(q, xs)
  {
    var traits: seq<string> := [];
    if Active(q, "personalityTraits") {
      match q["personalityTraits"]
      case QStr(s) => traits := [s];
      case QList(items) => traits := items;
    }
    assert traits == TraitList(q);
    var narrowed := NarrowTraits(traits, xs);
    FilterByQuerySteps(q, xs);
    if narrowed.Err? {
      return narrowed;
    }
    var s0 := narrowed.value;
    var s1 := NarrowField(q, "diet", s0);
    var s2 := NarrowField(q, "species", s1);
    var results := NarrowField(q, "name", s2);
    NarrowByFieldMeaning(q, "diet", s0);
    NarrowByFieldMeaning(q, "species", s1);
    NarrowByFieldMeaning(q, "name", s2);
    r := Ok(results);
  }

  /** `GET /api/animals`: filter the collection whenever `req.query` is
      present, otherwise answer with the whole collection. */
  function GetAnimals(query: Option<Query>, animals: seq<Animal>): (r: Result<seq<Animal>, JsError>)
    ensures query.None? ==> r == Ok(animals)
    ensures query.Some? ==> r == Animals.FilterByQuery(query.value, animals)
    ensures query.Some? ==>
              (r.Err? <==> |TraitList(query.value)| > 0 && !AllSearchable(animals))
    ensures r.Ok? ==> IsSubsequence(r.value, animals)
    ensures r.Ok? && query.Some? ==> forall a :: a in r.value ==> Selected(query.value, a)
    ensures r.Ok? && query.Some? ==>
              forall a :: a in animals && Selected(query.value, a) ==>
                a in r.value && multiset(r.value)[a] == multiset(animals)[a]
  {
    match query
    case None =>
      FilterAll(_ => true, animals);
      FilterIsSubsequence(_ => true, animals);
      Ok(animals)
    case Some(q) =>
      var r := Animals.FilterByQuery(q, animals);
      FilterByQueryThrows(q, animals);
      if r.Err? then r
      else
        FilterByQueryMeaning(q, animals);
        FilterIsSubsequence(QueryTest(q), animals);
        assert forall a :: a in animals && Selected(q, a) ==>
                 multiset(r.value)[a] == multiset(animals)[a] by {
          forall a | a in animals && Selected(q, a)
            ensures multiset(r.value)[a] == multiset(animals)[a]
          {
            FilterByQueryComplete(q, animals, a);
          }
        }
        r
  }

  /** A request without recognised truthy criteria gets the whole collection. */
  lemma GetAnimalsWithoutCriteria(q: Query, animals: seq<Animal>)
    requires !Active(q, "personalityTraits") && !Active(q, "diet")
    requires !Active(q, "species") && !Active(q, "name")
    ensures GetAnimals(Some(q), animals) == Ok(animals)
  {
    FilterByQueryNeutral(q, animals);
  }
}
