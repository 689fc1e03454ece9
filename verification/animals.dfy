/** The animal library: query filtering, lookup by id, shape validation and
    creation of animal records (lib/animals.js). */
module Animals {
  import opened Outcomes
  import opened JsValues
  import opened Seqs
  import opened Strings

  /** An animal record is a plain JavaScript object; the well-known fields
      are `id`, `name`, `species`, `diet` and `personalityTraits`. */
  datatype Animal = Animal(fields: map<string, Json>) {
    /** Reading property `key`; `None` is `undefined`. */
    function Get(key: string): Option<Json> {
      if key in fields then Some(fields[key]) else None
    }
  }

  /** A value of the parsed query string: one string, or a list when the
      key was repeated. */
  datatype QueryValue = QStr(s: string) | QList(items: seq<string>)

  /** The parsed query string, `req.query`. */
  type Query = map<string, QueryValue>

  /** The only exception the filter can raise: calling `indexOf` on a
      `personalityTraits` property that is neither an array nor a string. */
  datatype JsError = TypeError

  // ---------------------------------------------------------------------
  // Query criteria

  predicate QueryTruthy(v: QueryValue) {
    match v
    case QStr(s) => |s| > 0
    case QList(_) => true
  }

  /** `if (query[key])`: the criterion is present and truthy. */
  predicate Active(q: Query, key: string) {
    key in q && QueryTruthy(q[key])
  }

  /** The traits to require: a single string becomes a one-element list,
      a list is taken as it is, and a falsy or missing value gives none. */
  function TraitList(q: Query): (ts: seq<string>)
    ensures !Active(q, "personalityTraits") ==> ts == []
  {
    if Active(q, "personalityTraits") then
      match q["personalityTraits"]
      case QStr(s) => [s]
      case QList(items) => items
    else []
  }

  /** `animal.personalityTraits.indexOf` exists: the property is an array
      or a string. */
  predicate Searchable(a: Animal) {
    match a.Get("personalityTraits")
    case Some(JArr(_)) => true
    case Some(JStr(_)) => true
    case _ => false
  }

  predicate AllSearchable(xs: seq<Animal>) {
    forall i :: 0 <= i < |xs| ==> Searchable(xs[i])
  }

  /** `animal.personalityTraits.indexOf(t) !== -1`: an element strictly
      equal to `t` for an array, a substring for a string. */
  predicate HasTrait(a: Animal, t: string) {
    match a.Get("personalityTraits")
    case Some(JArr(items)) => JStr(t) in items
    case Some(JStr(s)) => IsInfix(t, s)
    case _ => false
  }

  /** `animal[key] === value`: a list never equals a record property,
      since the query's array is a different object. */
  predicate FieldMatches(a: Animal, key: string, v: QueryValue) {
    match v
    case QStr(s) => a.Get(key) == Some(JStr(s))
    case QList(_) => false
  }

  // ---------------------------------------------------------------------
  // The filter as written: one narrowing step per trait, then diet,
  // species and name. Each step filters by one of the tests below.

  /** `animal => animal.personalityTraits.indexOf(t) !== -1` */
  function TraitTest(t: string): Animal -> bool {
    a => HasTrait(a, t)
  }

  /** `animal => animal[key] === value` */
  function FieldTest(key: string, v: QueryValue): Animal -> bool {
    a => FieldMatches(a, key, v)
  }

  /** The `forEach` over the traits; each pass filters the current results
      and throws when some current record has no `indexOf`. */
  function NarrowByTraits(ts: seq<string>, xs: seq<Animal>): Result<seq<Animal>, JsError>
    decreases |ts|
  {
    if |ts| == 0 then Ok(xs)
    else if !AllSearchable(xs) then Err(TypeError)
    else NarrowByTraits(ts[1..], Filter(TraitTest(ts[0]), xs))
  }

  /** One `if (query[key]) filteredResults = filteredResults.filter(...)`. */
  function NarrowByField(q: Query, key: string, xs: seq<Animal>): seq<Animal> {
    if Active(q, key) then Filter(FieldTest(key, q[key]), xs) else xs
  }

  function FilterByQuery(q: Query, xs: seq<Animal>): Result<seq<Animal>, JsError> {
    match NarrowByTraits(TraitList(q), xs)
    case Err(e) => Err(e)
    case Ok(afterTraits) =>
      Ok(NarrowByField(q, "name", NarrowByField(q, "species", NarrowByField(q, "diet", afterTraits))))
  }

  /** The two ways the filter ends, by the outcome of the trait passes. */
  lemma FilterByQuerySteps(q: Query, xs: seq<Animal>)
    ensures NarrowByTraits(TraitList(q), xs).Err? ==> FilterByQuery(q, xs) == NarrowByTraits(TraitList(q), xs)
    ensures NarrowByTraits(TraitList(q), xs).Ok? ==>
              var s0 := NarrowByTraits(TraitList(q), xs).value;
              FilterByQuery(q, xs) ==
                Ok(NarrowByField(q, "name", NarrowByField(q, "species", NarrowByField(q, "diet", s0))))
  {
  }

  // ---------------------------------------------------------------------
  // The filter as one predicate: the conjunction of the active criteria.

  predicate HasAllTraits(a: Animal, ts: seq<string>) {
    forall t :: t in ts ==> HasTrait(a, t)
  }

  predicate FieldOk(q: Query, key: string, a: Animal) {
    Active(q, key) ==> FieldMatches(a, key, q[key])
  }

  /** The record meets every active criterion of `q`. */
  predicate Selected(q: Query, a: Animal) {
    && HasAllTraits(a, TraitList(q))
    && FieldOk(q, "diet", a)
    && FieldOk(q, "species", a)
    && FieldOk(q, "name", a)
  }

  function AllTraitsTest(ts: seq<string>): Animal -> bool {
    a => HasAllTraits(a, ts)
  }

  function CriterionTest(q: Query, key: string): Animal -> bool {
    a => FieldOk(q, key, a)
  }

  function QueryTest(q: Query): Animal -> bool {
    a => Selected(q, a)
  }

  lemma {:induction false} NarrowByTraitsMeaning(ts: seq<string>, xs: seq<Animal>)
    ensures NarrowByTraits(ts, xs).Err? <==> |ts| > 0 && !AllSearchable(xs)
    ensures NarrowByTraits(ts, xs).Ok? ==> NarrowByTraits(ts, xs).value == Filter(AllTraitsTest(ts), xs)
    decreases |ts|
  {
    if |ts| == 0 {
      FilterAll(AllTraitsTest(ts), xs);
    } else if AllSearchable(xs) {
      var ys := Filter(TraitTest(ts[0]), xs);
      assert AllSearchable(ys) by {
        forall i | 0 <= i < |ys| ensures Searchable(ys[i]) {
          assert ys[i] in xs;
        }
      }
      NarrowByTraitsMeaning(ts[1..], ys);
      assert ts == [ts[0]] + ts[1..];
      assert forall a :: AllTraitsTest(ts)(a) == (TraitTest(ts[0])(a) && AllTraitsTest(ts[1..])(a));
      FilterCompose(TraitTest(ts[0]), AllTraitsTest(ts[1..]), AllTraitsTest(ts), xs);
    }
  }

  lemma NarrowByFieldMeaning(q: Query, key: string, xs: seq<Animal>)
    ensures NarrowByField(q, key, xs) == Filter(CriterionTest(q, key), xs)
  {
    if Active(q, key) {
      FilterExt(FieldTest(key, q[key]), CriterionTest(q, key), xs);
    } else {
      FilterAll(CriterionTest(q, key), xs);
    }
  }

  /** The filter throws exactly when some trait is requested and some
      record has no searchable `personalityTraits`. */
  lemma FilterByQueryThrows(q: Query, xs: seq<Animal>)
    ensures FilterByQuery(q, xs).Err? <==> |TraitList(q)| > 0 && !AllSearchable(xs)
  {
    NarrowByTraitsMeaning(TraitList(q), xs);
    FilterByQuerySteps(q, xs);
  }

  /** The three field steps after the trait passes complete the
      conjunction. */
  lemma FieldStepsMeaning(q: Query, s0: seq<Animal>, xs: seq<Animal>)
    requires s0 == Filter(AllTraitsTest(TraitList(q)), xs)
    ensures NarrowByField(q, "name", NarrowByField(q, "species", NarrowByField(q, "diet", s0))) ==
            Filter(QueryTest(q), xs)
  {
    var traits := AllTraitsTest(TraitList(q));
    var diet, species, name := CriterionTest(q, "diet"), CriterionTest(q, "species"), CriterionTest(q, "name");
    var p01 := a => traits(a) && diet(a);
    var p012 := a => p01(a) && species(a);
    var s1 := NarrowByField(q, "diet", s0);
    var s2 := NarrowByField(q, "species", s1);
    NarrowByFieldMeaning(q, "diet", s0);
    FilterCompose(traits, diet, p01, xs);
    assert s1 == Filter(p01, xs);
    NarrowByFieldMeaning(q, "species", s1);
    FilterCompose(p01, species, p012, xs);
    assert s2 == Filter(p012, xs);
    NarrowByFieldMeaning(q, "name", s2);
    assert forall a :: QueryTest(q)(a) == (p012(a) && name(a));
    FilterCompose(p012, name, QueryTest(q), xs);
  }

  /** When it returns, the filter is the single filter of the input by the
      conjunction of the active criteria. */
  lemma FilterByQueryMeaning(q: Query, xs: seq<Animal>)
    requires FilterByQuery(q, xs).Ok?
    ensures FilterByQuery(q, xs).value == Filter(QueryTest(q), xs)
  {
    NarrowByTraitsMeaning(TraitList(q), xs);
    FilterByQuerySteps(q, xs);
    FieldStepsMeaning(q, NarrowByTraits(TraitList(q), xs).value, xs);
  }

  /** Two field steps may run in either order. */
  lemma FieldStepsCommute(q: Query, k1: string, k2: string, xs: seq<Animal>)
    ensures NarrowByField(q, k2, NarrowByField(q, k1, xs)) == NarrowByField(q, k1, NarrowByField(q, k2, xs))
  {
    NarrowByFieldMeaning(q, k1, xs);
    NarrowByFieldMeaning(q, k2, xs);
    NarrowByFieldMeaning(q, k2, NarrowByField(q, k1, xs));
    NarrowByFieldMeaning(q, k1, NarrowByField(q, k2, xs));
    FilterCommutes(CriterionTest(q, k1), CriterionTest(q, k2), xs);
  }

  /** The result keeps the relative order of the input records. */
  lemma FilterByQueryPreservesOrder(q: Query, xs: seq<Animal>)
    requires FilterByQuery(q, xs).Ok?
    ensures IsSubsequence(FilterByQuery(q, xs).value, xs)
  {
    FilterByQueryMeaning(q, xs);
    FilterIsSubsequence(QueryTest(q), xs);
  }

  /** Soundness: every returned record meets every active criterion, so it
      has every requested trait and the requested diet, species and name. */
  lemma FilterByQuerySound(q: Query, xs: seq<Animal>, a: Animal)
    requires FilterByQuery(q, xs).Ok?
    requires a in FilterByQuery(q, xs).value
    ensures a in xs
    ensures forall t :: t in TraitList(q) ==> HasTrait(a, t)
    ensures Active(q, "diet") ==> FieldMatches(a, "diet", q["diet"])
    ensures Active(q, "species") ==> FieldMatches(a, "species", q["species"])
    ensures Active(q, "name") ==> FieldMatches(a, "name", q["name"])
  {
    FilterByQueryMeaning(q, xs);
    assert QueryTest(q)(a);
  }

  /** Completeness: every input record meeting all active criteria is
      returned, as often as it occurs in the input. */
  lemma FilterByQueryComplete(q: Query, xs: seq<Animal>, a: Animal)
    requires FilterByQuery(q, xs).Ok?
    requires a in xs && Selected(q, a)
    ensures a in FilterByQuery(q, xs).value
    ensures multiset(FilterByQuery(q, xs).value)[a] == multiset(xs)[a]
  {
    FilterByQueryMeaning(q, xs);
    assert QueryTest(q)(a);
    FilterCount(QueryTest(q), xs, a);
  }

  /** A query with no truthy recognised criterion returns its input. */
  lemma FilterByQueryNeutral(q: Query, xs: seq<Animal>)
    requires !Active(q, "personalityTraits") && !Active(q, "diet")
    requires !Active(q, "species") && !Active(q, "name")
    ensures FilterByQuery(q, xs) == Ok(xs)
  {
    FilterByQueryThrows(q, xs);
    FilterByQueryMeaning(q, xs);
    FilterAll(QueryTest(q), xs);
  }

  predicate SameKey(q1: Query, q2: Query, key: string) {
    (key in q1 <==> key in q2) && (key in q1 ==> q1[key] == q2[key])
  }

  /** Two queries that agree on the four recognised keys. */
  predicate SameCriteria(q1: Query, q2: Query) {
    && SameKey(q1, q2, "personalityTraits")
    && SameKey(q1, q2, "diet")
    && SameKey(q1, q2, "species")
    && SameKey(q1, q2, "name")
  }

  /** Any other key of the query is ignored. */
  lemma FilterByQueryIgnoresOtherKeys(q1: Query, q2: Query, xs: seq<Animal>)
    requires SameCriteria(q1, q2)
    ensures FilterByQuery(q1, xs) == FilterByQuery(q2, xs)
  {
    FilterByQueryThrows(q1, xs);
    FilterByQueryThrows(q2, xs);
    if FilterByQuery(q1, xs).Ok? {
      FilterByQueryMeaning(q1, xs);
      FilterByQueryMeaning(q2, xs);
    }
    FilterExt(QueryTest(q1), QueryTest(q2), xs);
  }

  /** A string `personalityTraits` is required as one trait, whatever
      characters (commas included) it contains. */
  lemma StringTraitIsOneTrait(q: Query, s: string)
    requires "personalityTraits" in q && q["personalityTraits"] == QStr(s) && |s| > 0
    ensures TraitList(q) == [s]
    ensures forall a :: Selected(q, a) ==> HasTrait(a, s)
  {
  }

  // ---------------------------------------------------------------------
  // Lookup

  /** `animal.id === id`. */
  predicate HasId(a: Animal, id: string) {
    a.Get("id") == Some(JStr(id))
  }

  /** `animalsArray.filter(animal => animal.id === id)[0]`: the first record
      with that id, or `undefined`. */
  function FindById(id: string, xs: seq<Animal>): (r: Option<Animal>)
    ensures r.None? <==> forall i :: 0 <= i < |xs| ==> !HasId(xs[i], id)
    ensures r.Some? ==>
              exists i :: 0 <= i < |xs| && r.value == xs[i] && HasId(xs[i], id) &&
                          forall j :: 0 <= j < i ==> !HasId(xs[j], id)
  {
    var p := a => HasId(a, id);
    var hits := Filter(p, xs);
    if |hits| == 0 then
      assert forall i :: 0 <= i < |xs| ==> !p(xs[i]) by {
        forall i | 0 <= i < |xs| ensures !p(xs[i]) {
          assert xs[i] in xs;
        }
      }
      None
    else
      FilterHead(p, xs);
      Some(hits[0])
  }

  /** Ids are unique within the collection. */
  predicate UniqueIds(xs: seq<Animal>) {
    forall i, j ::
      0 <= i < |xs| && 0 <= j < |xs| && xs[i].Get("id").Some? && xs[i].Get("id") == xs[j].Get("id")
      ==> i == j
  }

  /** With unique ids, looking up a member's id finds that member. */
  lemma FindByIdFindsMember(xs: seq<Animal>, k: nat, id: string)
    requires UniqueIds(xs)
    requires k < |xs| && HasId(xs[k], id)
    ensures FindById(id, xs) == Some(xs[k])
  {
  }

  // ---------------------------------------------------------------------
  // Validation

  predicate NonEmptyString(v: Option<Json>) {
    v.Some? && v.value.JStr? && v.value.s != ""
  }

  /** The four guards of the source, in their order. */
  function ValidateAnimal(a: Animal): (valid: bool)
    ensures valid <==>
              && NonEmptyString(a.Get("name"))
              && NonEmptyString(a.Get("species"))
              && NonEmptyString(a.Get("diet"))
              && IsArray(a.Get("personalityTraits"))
  {
    if !Truthy(a.Get("name")) || !IsString(a.Get("name")) then false
    else if !Truthy(a.Get("species")) || !IsString(a.Get("species")) then false
    else if !Truthy(a.Get("diet")) || !IsString(a.Get("diet")) then false
    else if !Truthy(a.Get("personalityTraits")) || !IsArray(a.Get("personalityTraits")) then false
    else true
  }

  /** A validated record never makes the trait filter throw. */
  lemma ValidAnimalsAreSearchable(q: Query, xs: seq<Animal>)
    requires forall i :: 0 <= i < |xs| ==> ValidateAnimal(xs[i])
    ensures FilterByQuery(q, xs).Ok?
  {
    FilterByQueryThrows(q, xs);
  }

  /** Missing any required field fails validation; an empty trait list is
      accepted. */
  lemma ValidateAnimalRequiresEveryField(a: Animal)
    ensures "name" !in a.fields ==> !ValidateAnimal(a)
    ensures "species" !in a.fields ==> !ValidateAnimal(a)
    ensures "diet" !in a.fields ==> !ValidateAnimal(a)
    ensures "personalityTraits" !in a.fields ==> !ValidateAnimal(a)
    ensures (a.Get("personalityTraits") == Some(JArr([])) && NonEmptyString(a.Get("name")) &&
             NonEmptyString(a.Get("species")) && NonEmptyString(a.Get("diet"))) ==> ValidateAnimal(a)
  {
  }

  // ---------------------------------------------------------------------
  // Creation and the backing document

  /** What `createNewAnimal` leaves behind: the grown collection, the
      document it writes, and the record it returns. */
  datatype Created = Created(animals: seq<Animal>, document: Json, animal: Animal)

  function ToJson(a: Animal): Json {
    JObj(a.fields)
  }

  /** `{ animals: animalsArray }`, the value handed to `JSON.stringify`. */
  function Document(xs: seq<Animal>): Json {
    JObj(map["animals" := JArr(seq(|xs|, i requires 0 <= i < |xs| => ToJson(xs[i])))])
  }

  /** Reading the collection back from a document, as the start-up
      `const { animals } = require(...)` does; `None` when the document is
      not an object whose `animals` is an array of objects. */
  function LoadAnimals(doc: Json): (r: Option<seq<Animal>>)
    ensures r.Some? <==>
              && doc.JObj? && "animals" in doc.fields && doc.fields["animals"].JArr?
              && forall i :: 0 <= i < |doc.fields["animals"].items| ==> doc.fields["animals"].items[i].JObj?
    ensures r.Some? ==> |r.value| == |doc.fields["animals"].items|
    ensures r.Some? ==>
              forall i :: 0 <= i < |r.value| ==> ToJson(r.value[i]) == doc.fields["animals"].items[i]
  {
    if doc.JObj? && "animals" in doc.fields && doc.fields["animals"].JArr? then
      var items := doc.fields["animals"].items;
      if forall i :: 0 <= i < |items| ==> items[i].JObj? then
        Some(seq(|items|, i requires 0 <= i < |items| && items[i].JObj? => Animal(items[i].fields)))
      else None
    else None
  }

  /** Pushes `body` onto the collection and returns it; the document
      written is an object with the single key `animals` and reads back
      as the grown collection. */
  function CreateNewAnimal(body: Animal, xs: seq<Animal>): (r: Created)
    ensures |r.animals| == |xs| + 1
    ensures r.animals[..|xs|] == xs && r.animals[|xs|] == body
    ensures r.animal == body
    ensures r.document.JObj? && r.document.fields.Keys == {"animals"}
    ensures LoadAnimals(r.document) == Some(r.animals)
  {
    var grown := xs + [body];
    var doc := Document(grown);
    assert LoadAnimals(doc).value == grown;
    Created(grown, doc, body)
  }
}
