/** The browser script of the animals page: how the search form becomes a
    query URL (public/assets/js/animals.js). The DOM is reduced to the
    values the script reads from it. */
module Client {
  import opened Outcomes
  import opened Strings
  import opened Animals

  /** One `[key, value]` pair of `Object.entries(formData)`. */
  type Entry = (string, string)

  const UrlBase: string := "/api/animals?"

  // ---------------------------------------------------------------------
  // getAnimals: the query URL

  /** `key=value&` for every entry, in order, with nothing escaped. */
  function EncodeEntries(es: seq<Entry>): string {
    if |es| == 0 then ""
    else es[0].0 + "=" + es[0].1 + "&" + EncodeEntries(es[1..])
  }

  function QueryUrl(es: seq<Entry>): string {
    UrlBase + EncodeEntries(es)
  }

  lemma {:induction false} EncodeEntriesSnoc(es: seq<Entry>, e: Entry)
    ensures EncodeEntries(es + [e]) == EncodeEntries(es) + e.0 + "=" + e.1 + "&"
  {
    if |es| > 0 {
      assert (es + [e])[1..] == es[1..] + [e];
      EncodeEntriesSnoc(es[1..], e);
    }
  }

  lemma {:induction false} EncodeEntriesEndsWithAmpersand(es: seq<Entry>)
    requires |es| > 0
    ensures |EncodeEntries(es)| > 0 && EncodeEntries(es)[|EncodeEntries(es)| - 1] == '&'
  {
    if |es| > 1 {
      EncodeEntriesEndsWithAmpersand(es[1..]);
    }
  }

  /** The URL string the request is sent to; `formData` defaults to `{}`. */
  method GetAnimalsUrl(formData: seq<Entry>) returns (queryUrl: string)
    ensures queryUrl == QueryUrl(formData)
    ensures IsPrefix(UrlBase, queryUrl)
    ensures |formData| == 0 ==> queryUrl == UrlBase
    ensures |formData| > 0 ==> queryUrl[|queryUrl| - 1] == '&'
  {
    queryUrl := UrlBase;
    var i := 0;
    while i < |formData|
      invariant 0 <= i <= |formData|
      invariant queryUrl == UrlBase + EncodeEntries(formData[..i])
    {
      var (key, value) := formData[i];
      EncodeEntriesSnoc(formData[..i], formData[i]);
      assert formData[..i + 1] == formData[..i] + [formData[i]];
      queryUrl := queryUrl + key + "=" + value + "&";
      i := i + 1;
    }
    assert formData[..i] == formData;
    if |formData| > 0 {
      EncodeEntriesEndsWithAmpersand(formData);
    }
  }

  // ---------------------------------------------------------------------
  // Reading a query URL back

  /** A segment up to its first `=`: key before it, the rest as value. */
  function SplitPair(segment: string): Entry {
    var parts := Split(segment, '=');
    (parts[0], Join(parts[1..], '='))
  }

  /** The non-empty `&`-separated segments as entries. */
  function ParseSegments(segments: seq<string>): seq<Entry> {
    if |segments| == 0 then []
    else (if segments[0] == "" then [] else [SplitPair(segments[0])]) + ParseSegments(segments[1..])
  }

  /** The entries a literal reading of a query URL finds. */
  function ParseQueryUrl(url: string): Option<seq<Entry>> {
    if IsPrefix(UrlBase, url) then Some(ParseSegments(Split(url[|UrlBase|..], '&'))) else None
  }

  /** Keys and values that survive being written without escaping. */
  predicate Unreserved(es: seq<Entry>) {
    forall i :: 0 <= i < |es| ==> '&' !in es[i].0 && '=' !in es[i].0 && '&' !in es[i].1
  }

  lemma {:induction false} ParseEncodedEntries(es: seq<Entry>)
    requires Unreserved(es)
    ensures ParseSegments(Split(EncodeEntries(es), '&')) == es
  {
    if |es| > 0 {
      var (k, v) := es[0];
      var segment := k + "=" + v;
      var rest := EncodeEntries(es[1..]);
      assert EncodeEntries(es) == segment + ['&'] + rest;
      assert '&' !in segment;
      SplitAtSeparator(segment, '&', rest);
      assert segment == k + ['='] + v;
      SplitAtSeparator(k, '=', v);
      JoinSplit(v, '=');
      assert Unreserved(es[1..]);
      ParseEncodedEntries(es[1..]);
      var segments := [segment] + Split(rest, '&');
      assert segments[1..] == Split(rest, '&');
      assert [es[0]] + es[1..] == es;
    }
  }

  /** Entries free of `&` (and of `=` in keys) are read back exactly as
      they were written: the URL carries them verbatim. */
  lemma QueryUrlRoundTrip(es: seq<Entry>)
    requires Unreserved(es)
    ensures ParseQueryUrl(QueryUrl(es)) == Some(es)
  {
    var url := QueryUrl(es);
    assert url[|UrlBase|..] == EncodeEntries(es);
    ParseEncodedEntries(es);
  }

  /** Nothing is percent-encoded: a value `a&b` comes back as the value
      `a` followed by a separate, empty-valued entry `b`. */
  lemma AmpersandInValueIsNotEscaped(k: string, a: string, b: string)
    requires '&' !in k && '=' !in k && '&' !in a
    requires '&' !in b && '=' !in b && b != ""
    ensures ParseQueryUrl(QueryUrl([(k, a + "&" + b)])) == Some([(k, a), (b, "")])
  {
    var es := [(k, a + "&" + b)];
    assert es[1..] == [];
    var first := k + ['='] + a;
    var body := first + ['&'] + (b + ['&'] + "");
    assert EncodeEntries(es) == body;
    assert QueryUrl(es)[|UrlBase|..] == body;
    assert '&' !in first;
    SplitAtSeparator(first, '&', b + ['&'] + "");
    SplitAtSeparator(b, '&', "");
    var segments := Split(body, '&');
    assert segments == [first, b, ""];
    assert segments[1..] == [b, ""] && segments[1..][1..] == [""];
    SplitAtSeparator(k, '=', a);
    JoinSplit(a, '=');
    assert SplitPair(first) == (k, a);
    SplitNoSeparator(b, '=');
    assert SplitPair(b) == (b, "");
    assert ParseSegments([""]) == [];
    assert ParseSegments([b, ""]) == [(b, "")];
    assert first[|k|] == '=';
    assert ParseSegments(segments) == [(k, a), (b, "")];
    assert QueryUrl(es)[..|UrlBase|] == UrlBase;
  }

  // ---------------------------------------------------------------------
  // handleGetAnimalsSubmit: the form data

  /** A `[name="diet"]` radio button. */
  datatype Radio = Radio(value: string, checked: bool)

  /** `diet` is the value of the last checked radio, or `""` when none is
      checked. */
  predicate IsDietChoice(radios: seq<Radio>, diet: string) {
    && ((forall j :: 0 <= j < |radios| ==> !radios[j].checked) ==> diet == "")
    && ((exists j :: 0 <= j < |radios| && radios[j].checked) ==>
          exists j :: 0 <= j < |radios| && radios[j].checked && diet == radios[j].value &&
                      forall k :: j < k < |radios| ==> !radios[k].checked)
  }

  /** The loop over the radio buttons, then the `undefined` default. */
  method DietFromRadios(radios: seq<Radio>) returns (diet: string)
    ensures IsDietChoice(radios, diet)
  {
    var chosen: Option<string> := None;
    var i := 0;
    while i < |radios|
      invariant 0 <= i <= |radios|
      invariant chosen.None? <==> forall j :: 0 <= j < i ==> !radios[j].checked
      invariant chosen.Some? ==>
                  exists j :: 0 <= j < i && radios[j].checked && chosen.value == radios[j].value &&
                              forall k :: j < k < i ==> !radios[k].checked
    {
      if radios[i].checked {
        chosen := Some(radios[i].value);
      }
      i := i + 1;
    }
    diet := if chosen.None? then "" else chosen.value;
  }

  /** The selected option values collected in order and joined with `,`. */
  method TraitsFromSelection(selectedOptions: seq<string>) returns (personalityTraits: string)
    ensures personalityTraits == Join(selectedOptions, ',')
    ensures |selectedOptions| == 0 ==> personalityTraits == ""
  {
    var traitArr: seq<string> := [];
    var i := 0;
    while i < |selectedOptions|
      invariant 0 <= i <= |selectedOptions|
      invariant traitArr == selectedOptions[..i]
    {
      traitArr := traitArr + [selectedOptions[i]];
      i := i + 1;
    }
    assert traitArr == selectedOptions;
    personalityTraits := Join(traitArr, ',');
  }

  /** The submit handler: the form data object `{ diet, personalityTraits }`
      and the URL `getAnimals` requests for it. */
  method HandleGetAnimalsSubmit(radios: seq<Radio>, selectedOptions: seq<string>)
    returns (formData: seq<Entry>, queryUrl: string)
    ensures |formData| == 2
    ensures formData[0].0 == "diet" && formData[1].0 == "personalityTraits"
    ensures IsDietChoice(radios, formData[0].1)
    ensures formData[1].1 == Join(selectedOptions, ',')
    ensures queryUrl == QueryUrl(formData)
  {
    var diet := DietFromRadios(radios);
    var personalityTraits := TraitsFromSelection(selectedOptions);
    formData := [("diet", diet), ("personalityTraits", personalityTraits)];
    queryUrl := GetAnimalsUrl(formData);
  }

  /** The URL of a submitted form spelled out. */
  lemma SubmittedUrl(diet: string, personalityTraits: string)
    ensures QueryUrl([("diet", diet), ("personalityTraits", personalityTraits)]) ==
            UrlBase + "diet=" + diet + "&personalityTraits=" + personalityTraits + "&"
  {
    var es := [("diet", diet), ("personalityTraits", personalityTraits)];
    assert es[1..] == [("personalityTraits", personalityTraits)];
    assert es[1..][1..] == [];
    assert EncodeEntries(es[1..][1..]) == "";
    var tail := EncodeEntries(es[1..]);
    assert tail == "personalityTraits" + "=" + personalityTraits + "&";
    assert "personalityTraits" + "=" == "personalityTraits=";
    assert "&" + "personalityTraits=" == "&personalityTraits=";
    assert "diet" + "=" == "diet=";
    assert EncodeEntries(es) == "diet" + "=" + diet + "&" + tail;
  }

  // ---------------------------------------------------------------------
  // What the server makes of a submitted form

  /** The query object for a submitted form when the server's query-string
      parser hands both values over unchanged. */
  function SubmittedQuery(diet: string, personalityTraits: string): Query {
    map["diet" := QStr(diet), "personalityTraits" := QStr(personalityTraits)]
  }

  /** On the server an unchecked diet imposes no constraint, species and
      name are never set, and the joined traits are required as ONE trait. */
  lemma SubmittedQueryCriteria(diet: string, selectedOptions: seq<string>)
    ensures var q := SubmittedQuery(diet, Join(selectedOptions, ','));
            (diet == "" ==> !Active(q, "diet")) && !Active(q, "species") && !Active(q, "name")
    ensures var t := Join(selectedOptions, ',');
            TraitList(SubmittedQuery(diet, t)) == if t == "" then [] else [t]
  {
  }

  /** With two or more options selected, an animal whose traits are
      separate comma-free strings is never returned. */
  lemma SeparateTraitsNeverMatchJoined(diet: string, selectedOptions: seq<string>, a: Animal)
    requires |selectedOptions| >= 2
    requires a.Get("personalityTraits").Some? && a.Get("personalityTraits").value.JArr?
    requires forall x :: x in a.Get("personalityTraits").value.items ==> !(x.JStr? && ',' in x.s)
    ensures !Selected(SubmittedQuery(diet, Join(selectedOptions, ',')), a)
  {
    var t := Join(selectedOptions, ',');
    SubmittedQueryCriteria(diet, selectedOptions);
    assert t in TraitList(SubmittedQuery(diet, t));
    assert !HasTrait(a, t);
  }
}
