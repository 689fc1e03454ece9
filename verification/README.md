# zookeepr animal core, modelled in Dafny

This project models the animal side of the zookeepr service: a small
Express application that serves a collection of animal records from a JSON
file, lets clients narrow the collection with query parameters, look
records up by id, and post new ones after a shape check. It also models the
browser script of the animals page, which turns the search form into the
query URL.

Modules:

- `Outcomes`: `Option` (JavaScript's `undefined`) and `Result` (a value, or
  a thrown exception).
- `Seqs`: `Filter`, the model of `Array.prototype.filter`, with its
  membership, multiplicity, order, composition and commutation lemmas.
- `Strings`: `Split`/`Join` on one separator character with both round
  trips, and `IsInfix` (`String.prototype.indexOf(t) !== -1`).
- `JsValues`: parsed JSON values, JavaScript truthiness, `typeof ... === 'string'`
  and `Array.isArray`.
- `Animals` (lib/animals.js): records as plain objects, the query filter as
  written (one pass per trait, then `diet`, `species`, `name`), the filter as
  one predicate (`Selected`), `FindById`, `ValidateAnimal`,
  `CreateNewAnimal`, and the start-up load of the backing document.
- `Server` (server.js): the bootstrap file's inline copy of the filter,
  written as the loop it is, and the `GET /api/animals` handler.
- `Client` (public/assets/js/animals.js): the query URL built by
  `getAnimals`, a literal reader of such URLs, and the form handling of
  `handleGetAnimalsSubmit` over plain sequences standing for the radio
  buttons and the selected options.

Behaviour that the code has and the model keeps:

- A criterion is applied only when its query value is truthy: `''` imposes
  nothing, while a list (a repeated key) is always truthy. A list given for
  `diet`, `species` or `name` never equals a record's property, so it
  selects nothing. A list given for `personalityTraits` is used as it is,
  and an empty list imposes nothing.
- `personalityTraits` is matched with `indexOf`: element equality when the
  record's property is an array, substring search when it is a string, and
  a thrown `TypeError` when it is anything else. The filter throws exactly
  when at least one trait is requested and some input record has such a
  property (the first trait pass visits every record). Validated records
  never cause this.
- The form joins the selected traits with `,` into one string. The server
  treats that string as ONE trait. So with two or more traits selected, an
  animal whose traits are separate strings is never returned
  (`Client.SeparateTraitsNeverMatchJoined`).

Three further facts about the code shape the model:

- `validateAnimal` checks only `Array.isArray` on `personalityTraits`, not
  the types of its elements, so the model's records hold arbitrary JSON
  there.
- The filter can throw a `TypeError`, on a record whose
  `personalityTraits` has no `indexOf`; the model returns that error.
- `createNewAnimal` does not assign ids: it appends the body unchanged.

## Model

| member | source | states |
|---|---|---|
| `Animals.NarrowByTraitsMeaning` | lib/animals.js:11-32 | The trait passes throw iff some trait is requested and some record has no searchable `personalityTraits`; otherwise they keep exactly the records holding every requested trait, in order. |
| `Animals.StringTraitIsOneTrait` | lib/animals.js:14-18 | A string `personalityTraits` is required as a single trait, commas and all. |
| `Animals.NarrowByFieldMeaning` | lib/animals.js:33-41 | Each field step keeps exactly the records meeting that criterion, and keeps everything when the criterion is falsy or absent. |
| `Animals.FieldStepsMeaning` | lib/animals.js:33-42 | After the trait passes, the diet, species and name steps leave exactly the input records meeting every active criterion. |
| `Animals.FieldStepsCommute` | lib/animals.js:33-41 | The diet, species and name steps give the same result in either order. |
| `Animals.FilterByQueryThrows` | lib/animals.js:7-43 | The whole filter throws iff some trait is requested and some input record has no searchable `personalityTraits`. |
| `Animals.FilterByQueryMeaning` | lib/animals.js:7-43 | When the filter returns, its result is one filter of the input by the conjunction of the active criteria. |
| `Animals.FilterByQueryPreservesOrder` | lib/animals.js:28-41 | The result is a subsequence of the input: relative order kept, input untouched. |
| `Animals.FilterByQuerySound` | lib/animals.js:28-41 | Every returned record comes from the input, has every requested trait, and equals the query on each active diet, species and name. |
| `Animals.FilterByQueryComplete` | lib/animals.js:20-41 | Every input record meeting all active criteria is returned, as many times as it occurs in the input. |
| `Animals.FilterByQueryNeutral` | lib/animals.js:10-42 | With no truthy `personalityTraits`, `diet`, `species` or `name`, the result is exactly the input. |
| `Animals.FilterByQueryIgnoresOtherKeys` | lib/animals.js:11-41 | Two queries that agree on the four recognised keys give the same result, so every other key is ignored. |
| `Animals.FindById` | lib/animals.js:45-48 | The result is absent iff no record has that id; otherwise it is the record with the lowest index having that id. |
| `Animals.FindByIdFindsMember` | lib/animals.js:45-48 | When ids are unique, looking up a member's id returns that member. |
| `Animals.ValidateAnimal` | lib/animals.js:73-87 | True iff `name`, `species` and `diet` are non-empty strings and `personalityTraits` is an array (an empty one counts). |
| `Animals.ValidateAnimalRequiresEveryField` | lib/animals.js:73-87 | A body missing any one of the four fields is rejected; a body with an empty trait array and three non-empty strings is accepted. |
| `Animals.ValidAnimalsAreSearchable` | lib/animals.js:83-85 | On a collection of validated records the filter never throws. |
| `Animals.CreateNewAnimal` | lib/animals.js:52-71 | The collection grows by one with the old records unchanged and the body last; the body is returned; the document written is an object whose only key is `animals`, and it reads back as the grown collection. |
| `Animals.LoadAnimals` | server.js:2 | A document loads iff it is an object whose `animals` is an array of objects, and then record i is exactly array element i. |
| `Server.NarrowTraits` | server.js:21-32 | The copy's `forEach` loop computes the library's trait passes, throwing in the same cases. |
| `Server.NarrowField` | server.js:34-42 | Each of the copy's field steps keeps exactly the records meeting that criterion (all of them when it is falsy or absent), in order. |
| `Server.FilterByQuery` | server.js:8-44 | The inline copy returns exactly what the library's filter returns, for every query and collection. |
| `Server.GetAnimals` | server.js:49-57 | Without a query the whole collection is returned; with one, the handler's outcome is the filter's outcome, throwing exactly when the filter throws, and otherwise an order-preserving subsequence holding each record that meets every active criterion as often as it occurs in the collection. |
| `Server.GetAnimalsWithoutCriteria` | server.js:49-57 | A query without recognised truthy criteria gets the whole collection. |
| `Client.GetAnimalsUrl` | public/assets/js/animals.js:28-34 | The URL starts with `/api/animals?`, is exactly that with no form data, and ends with `&` otherwise. |
| `Client.EncodeEntriesEndsWithAmpersand` | public/assets/js/animals.js:32-34 | Any non-empty list of entries encodes to a string whose last character is `&`. |
| `Client.QueryUrlRoundTrip` | public/assets/js/animals.js:32-34 | When no key holds `&` or `=` and no value holds `&`, reading the URL back gives the entries exactly, in order. |
| `Client.AmpersandInValueIsNotEscaped` | public/assets/js/animals.js:33 | Nothing is escaped: a value `a&b` is read back as value `a` plus an extra entry `b` with an empty value. |
| `Client.DietFromRadios` | public/assets/js/animals.js:61-72 | `diet` is the value of the last checked radio button, or `''` when none is checked. |
| `Client.TraitsFromSelection` | public/assets/js/animals.js:74-81 | The traits string is the selected values, in order, joined with `,`; it is `''` when none are selected. |
| `Strings.SplitJoin` | public/assets/js/animals.js:81 | A non-empty join of comma-free values splits back into exactly those values, so the joined traits string loses nothing. |
| `Client.HandleGetAnimalsSubmit` | public/assets/js/animals.js:59-85 | The form data has exactly the keys `diet` and `personalityTraits`, in that order, with the values above, and the request goes to the URL built from it. |
| `Client.SubmittedUrl` | public/assets/js/animals.js:83-85 | The submitted URL is `/api/animals?diet=<diet>&personalityTraits=<traits>&`. |
| `Client.SubmittedQueryCriteria` | public/assets/js/animals.js:62-83 | On the server an unchecked diet imposes nothing, species and name are unset, and the joined traits are required as one trait. |
| `Client.SeparateTraitsNeverMatchJoined` | public/assets/js/animals.js:81-83 | With two or more traits selected, an animal holding them as separate comma-free strings is never returned. |

## Left out

- The file write: `fs.writeFileSync`, `path.join` and the two-space
  `JSON.stringify` text are not modelled. The document is the JSON value
  `{ animals: [...] }`, and reading it back is the start-up load.
- Id assignment for new animals: it lives in the animal routes, and
  routes/apiRoutes/animalRoutes.js is not part of this model.
- The zookeeper collection: lib/zookeepers.js is not part of this model,
  so neither are its filter, lookup, validator and creator, nor the routes
  and tests that use them.
- Express plumbing: route registration, `res.json`, status codes, static
  files and `app.listen`.
- Express's query-string parsing: the model takes `req.query` as already
  parsed into strings and lists of strings. Nested objects, percent-decoding
  and qs's array limits are not modelled. `Client.SubmittedQuery` assumes
  the parser passes both form values through unchanged.
- `Client.ParseQueryUrl` is a literal reader (split on `&`, then at the
  first `=`) that stands in for a query-string parser. It exists to state
  what the URL carries.
- `Client.GetAnimalsUrl`: takes the form data as its entries in
  enumeration order. The rule that JavaScript enumerates integer-like keys
  first is not modelled. The form's two keys are not integer-like.
- The browser side: `fetch`, the promise chain, `alert`, `console.log`,
  DOM queries, event listeners, and `printResults` with its upper-casing.
- In-place mutation: `push` changes the array that the routes share. The
  model returns the grown collection instead.
- Concurrency between simultaneous requests: nothing in the code handles it.
- JSON numbers are modelled as unbounded reals. Collection elements that
  are not objects are not modelled.
- `Animals.LoadAnimals`: returns nothing when some array element is not an
  object, whereas the destructuring would still load such an array. It
  also returns nothing when `animals` is missing or not an array, whereas
  the destructuring still binds it (to `undefined` or to that value).
