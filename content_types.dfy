/**
 * The site's content types (interaction, experiment, design), their labels and
 * URL filter values, and the mapping between filter labels and the URL.
 */
module ContentTypes {
  import opened Wrappers
  import JsString

  datatype ContentTypeDefinition = ContentTypeDefinition(
    id: string,
    labelSingular: string,
    labelPlural: string,
    urlFilterValue: string)

  const ContentTypeTable: seq<ContentTypeDefinition> := [
    ContentTypeDefinition("interaction", "Interaction", "Interactions", "interactions"),
    ContentTypeDefinition("experiment", "Experiment", "Experiments", "experiments"),
    ContentTypeDefinition("design", "Design", "Designs", "designs")
  ]

  const AllFilter: string := "All"
  const AllUrlValue: string := "all"

  /** `["All", ...labelPlural]`. */
  function AvailableFilters(): (r: seq<string>)
    ensures |r| == |ContentTypeTable| + 1 && r[0] == AllFilter
    ensures forall i :: 0 <= i < |ContentTypeTable| ==> r[i + 1] == ContentTypeTable[i].labelPlural
  {
    [AllFilter] + seq(|ContentTypeTable|, i requires 0 <= i < |ContentTypeTable| => ContentTypeTable[i].labelPlural)
  }

  lemma AvailableFiltersAre()
    ensures AvailableFilters() == ["All", "Interactions", "Experiments", "Designs"]
  {
  }

  /** `new Map(defs.map(d => [key(d), d]))`: one entry per key, the last definition with that key winning. */
  function IndexBy(defs: seq<ContentTypeDefinition>, key: ContentTypeDefinition -> string): (m: map<string, ContentTypeDefinition>)
    ensures m.Keys == set i | 0 <= i < |defs| :: key(defs[i])
    ensures forall k :: k in m ==> m[k] in defs && key(m[k]) == k
  {
    if defs == [] then map[]
    else
      var init := defs[..|defs| - 1];
      var last := defs[|defs| - 1];
      var m := IndexBy(init, key)[key(last) := last];
      assert forall i :: 0 <= i < |init| ==> init[i] == defs[i];
      assert (set i | 0 <= i < |defs| :: key(defs[i])) == (set i | 0 <= i < |init| :: key(init[i])) + {key(last)};
      m
  }

  function Id(d: ContentTypeDefinition): string { d.id }
  function UrlValue(d: ContentTypeDefinition): string { d.urlFilterValue }

  const IdToDefinition: map<string, ContentTypeDefinition> := IndexBy(ContentTypeTable, Id)
  const UrlFilterToDefinition: map<string, ContentTypeDefinition> := IndexBy(ContentTypeTable, UrlValue)

  /** Ids and URL values are each pairwise distinct, so each map gives back the definition it was built from. */
  lemma {:induction false} TablesInjective(i: nat)
    requires i < |ContentTypeTable|
    ensures ContentTypeTable[i].id in IdToDefinition && IdToDefinition[ContentTypeTable[i].id] == ContentTypeTable[i]
    ensures ContentTypeTable[i].urlFilterValue in UrlFilterToDefinition
         && UrlFilterToDefinition[ContentTypeTable[i].urlFilterValue] == ContentTypeTable[i]
  {
    var d := ContentTypeTable[i];
    assert Id(d) in IdToDefinition.Keys;
    assert UrlValue(d) in UrlFilterToDefinition.Keys;
    var e, f := IdToDefinition[d.id], UrlFilterToDefinition[d.urlFilterValue];
    assert e in ContentTypeTable && e.id == d.id;
    assert f in ContentTypeTable && f.urlFilterValue == d.urlFilterValue;
  }

  /** The keys of the two maps are exactly the three ids and the three URL values. */
  lemma TableKeys()
    ensures IdToDefinition.Keys == {"interaction", "experiment", "design"}
    ensures UrlFilterToDefinition.Keys == {"interactions", "experiments", "designs"}
  {
    var t := ContentTypeTable;
    assert Id(t[0]) == "interaction" && Id(t[1]) == "experiment" && Id(t[2]) == "design";
    assert UrlValue(t[0]) == "interactions" && UrlValue(t[1]) == "experiments" && UrlValue(t[2]) == "designs";
    assert |t| == 3;
  }

  /** `getDefinitionById`: the definition for a known id, an error for any other. */
  function GetDefinitionById(id: string): (r: Result<ContentTypeDefinition, string>)
    ensures r.Success? <==> id in {"interaction", "experiment", "design"}
    ensures r.Success? ==> r.value in ContentTypeTable && r.value.id == id
    ensures r.Failure? ==> r.error == "Unknown content type id: " + id
  {
    TableKeys();
    if id in IdToDefinition then Success(IdToDefinition[id])
    else Failure("Unknown content type id: " + id)
  }

  /** `typeIdToUrlFilterValue`: throws for an unknown id, like `getDefinitionById`. */
  function TypeIdToUrlFilterValue(id: string): (r: Result<string, string>)
    ensures r.Success? <==> GetDefinitionById(id).Success?
  {
    match GetDefinitionById(id)
    case Success(d) => Success(d.urlFilterValue)
    case Failure(e) => Failure(e)
  }

  /** The first definition whose plural label is `plural` (`CONTENT_TYPES.find`). */
  function FindByPlural(defs: seq<ContentTypeDefinition>, plural: string): (r: Option<ContentTypeDefinition>)
    ensures r.Some? ==> r.value in defs && r.value.labelPlural == plural
    ensures r.None? ==> forall i :: 0 <= i < |defs| ==> defs[i].labelPlural != plural
  {
    if defs == [] then None
    else if defs[0].labelPlural == plural then Some(defs[0])
    else FindByPlural(defs[1..], plural)
  }

  /** `toUrlFilterValue`: "all" for "All" and for anything that is not a plural label. */
  function ToUrlFilterValue(filter: string): (r: string)
    ensures r == AllUrlValue || exists i :: 0 <= i < |ContentTypeTable| && ContentTypeTable[i].urlFilterValue == r
  {
    if filter == AllFilter then AllUrlValue
    else match FindByPlural(ContentTypeTable, filter)
      case Some(d) => d.urlFilterValue
      case None => AllUrlValue
  }

  lemma ToUrlFilterValueCases(filter: string)
    ensures filter == "All" ==> ToUrlFilterValue(filter) == "all"
    ensures forall i :: 0 <= i < |ContentTypeTable| && filter == ContentTypeTable[i].labelPlural ==>
              ToUrlFilterValue(filter) == ContentTypeTable[i].urlFilterValue
    ensures filter !in AvailableFilters() ==> ToUrlFilterValue(filter) == "all"
  {
  }

  /** `filterFromUrlValue`: always one of the available filters; "All" when absent, empty, "all" or unknown. */
  function FilterFromUrlValue(urlValue: Option<string>): (r: string)
    ensures r in AvailableFilters()
    ensures urlValue.None? || urlValue.value == "" || urlValue.value == AllUrlValue ==> r == AllFilter
    ensures urlValue.Some? && JsString.ToLower(urlValue.value) !in UrlFilterToDefinition ==> r == AllFilter
    ensures urlValue.Some? && urlValue.value != "" && urlValue.value != AllUrlValue
            && JsString.ToLower(urlValue.value) in UrlFilterToDefinition
            ==> r == UrlFilterToDefinition[JsString.ToLower(urlValue.value)].labelPlural
  {
    if urlValue.None? || urlValue.value == "" || urlValue.value == AllUrlValue then AllFilter
    else
      var key := JsString.ToLower(urlValue.value);
      if key in UrlFilterToDefinition then
        var d := UrlFilterToDefinition[key];
        assert d.labelPlural in AvailableFilters() by {
          var i :| 0 <= i < |ContentTypeTable| && ContentTypeTable[i] == d;
          assert AvailableFilters()[i + 1] == d.labelPlural;
        }
        d.labelPlural
      else AllFilter
  }

  /** A known URL value other than "all", already in lower case, reads back as its type's plural label. */
  lemma FilterFromKnownUrlValue(u: string)
    requires u in UrlFilterToDefinition && u != "" && u != AllUrlValue && JsString.ToLower(u) == u
    ensures FilterFromUrlValue(Some(u)) == UrlFilterToDefinition[u].labelPlural
  {
  }

  /** Each type's URL value is its own lower-case form and is neither empty nor "all". */
  lemma UrlValueCanonical(i: nat)
    requires i < |ContentTypeTable|
    ensures ContentTypeTable[i].urlFilterValue != "" && ContentTypeTable[i].urlFilterValue != AllUrlValue
    ensures JsString.ToLower(ContentTypeTable[i].urlFilterValue) == ContentTypeTable[i].urlFilterValue
  {
    assert JsString.IsLower(ContentTypeTable[i].urlFilterValue);
    JsString.ToLowerOfLower(ContentTypeTable[i].urlFilterValue);
  }

  lemma PluralRoundTrip(i: nat)
    requires i < |ContentTypeTable|
    ensures FilterFromUrlValue(Some(ToUrlFilterValue(ContentTypeTable[i].labelPlural))) == ContentTypeTable[i].labelPlural
  {
    var d := ContentTypeTable[i];
    FindPluralLabel(i);
    assert ToUrlFilterValue(d.labelPlural) == d.urlFilterValue;
    TablesInjective(i);
    UrlValueCanonical(i);
    FilterFromKnownUrlValue(d.urlFilterValue);
  }

  /** Plural labels are pairwise distinct, so looking one up finds its own definition. */
  lemma FindPluralLabel(i: nat)
    requires i < |ContentTypeTable|
    ensures FindByPlural(ContentTypeTable, ContentTypeTable[i].labelPlural) == Some(ContentTypeTable[i])
  {
    var t := ContentTypeTable;
    assert t[0].labelPlural != t[1].labelPlural && t[1].labelPlural != t[2].labelPlural && t[0].labelPlural != t[2].labelPlural;
    if i > 0 {
      assert t[1..][0] == t[1];
    }
    if i > 1 {
      assert t[1..][1..][0] == t[2];
    }
  }

  /** Writing a filter to the URL and reading it back gives the same filter. */
  lemma FilterRoundTrip(filter: string)
    requires filter in AvailableFilters()
    ensures FilterFromUrlValue(Some(ToUrlFilterValue(filter))) == filter
  {
    if filter == AllFilter {
      assert ToUrlFilterValue(filter) == AllUrlValue;
    } else {
      var i :| 1 <= i < |AvailableFilters()| && AvailableFilters()[i] == filter;
      PluralLabelRoundTrip(filter, i - 1);
    }
  }

  lemma PluralLabelRoundTrip(filter: string, i: nat)
    requires i < |ContentTypeTable| && filter == ContentTypeTable[i].labelPlural
    ensures FilterFromUrlValue(Some(ToUrlFilterValue(filter))) == filter
  {
    PluralRoundTrip(i);
  }

  /** `urlFilterValueToTypeId`: the id of the type whose URL value is the lower-cased input, if any. */
  function UrlFilterValueToTypeId(urlValue: string): (r: Option<string>)
    ensures r.Some? <==> JsString.ToLower(urlValue) in UrlFilterToDefinition
  {
    var key := JsString.ToLower(urlValue);
    if key in UrlFilterToDefinition then Some(UrlFilterToDefinition[key].id) else None
  }

  /**
   * The lookup ignores case, and when it finds a type, that type's URL value is
   * exactly the lower-cased input.
   */
  lemma UrlFilterValueToTypeIdInverse(urlValue: string)
    ensures UrlFilterValueToTypeId(urlValue) == UrlFilterValueToTypeId(JsString.ToLower(urlValue))
    ensures UrlFilterValueToTypeId(urlValue).Some? ==>
      TypeIdToUrlFilterValue(UrlFilterValueToTypeId(urlValue).value) == Success(JsString.ToLower(urlValue))
  {
    JsString.ToLowerIdempotent(urlValue);
    var key := JsString.ToLower(urlValue);
    if key in UrlFilterToDefinition {
      var d := UrlFilterToDefinition[key];
      var i :| 0 <= i < |ContentTypeTable| && ContentTypeTable[i] == d;
      TablesInjective(i);
    }
  }
}
