/**
 * The tech-hubs component (src/app/components/tech-hubs.component.ts): the
 * signals computed from the insights payload, the keyword grouping of the
 * companies, and the template's visibility and demand-badge conditions.
 */
module TechHubs {
  import opened Wrappers
  import opened Strings

  /** A company card; only the category drives the grouping. */
  datatype Company = Company(name: string, category: Option<string>, cultureVibe: Option<string>)

  /** A row of the city or state demand table. */
  datatype LocationRow = LocationRow(location: string, salary: string, demand: Option<string>)

  /** The insights payload as the model returns it: every field may be missing. */
  datatype Insights = Insights(
    topCompanies: Option<seq<Company>>,
    topCities: Option<seq<LocationRow>>,
    topStates: Option<seq<LocationRow>>)

  /** `data()?.topCompanies || []`. */
  function Companies(data: Option<Insights>): (r: seq<Company>)
    ensures data.None? || data.value.topCompanies.None? ==> r == []
    ensures data.Some? && data.value.topCompanies.Some? ==> r == data.value.topCompanies.value
  {
    if data.Some? then data.value.topCompanies.GetOr([]) else []
  }

  /** `data()?.topCities || []`. */
  function TopCities(data: Option<Insights>): (r: seq<LocationRow>)
    ensures data.None? || data.value.topCities.None? ==> r == []
    ensures data.Some? && data.value.topCities.Some? ==> r == data.value.topCities.value
  {
    if data.Some? then data.value.topCities.GetOr([]) else []
  }

  /** `data()?.topStates || []`. */
  function TopStates(data: Option<Insights>): (r: seq<LocationRow>)
    ensures data.None? || data.value.topStates.None? ==> r == []
    ensures data.Some? && data.value.topStates.Some? ==> r == data.value.topStates.value
  {
    if data.Some? then data.value.topStates.GetOr([]) else []
  }

  /** `c.category?.includes(k1) || c.category?.includes(k2)`: a missing category matches nothing. */
  predicate Matches(c: Company, k1: string, k2: string)
  {
    c.category.Some? && (Contains(c.category.value, k1) || Contains(c.category.value, k2))
  }

  /** `r` is `s` with some elements left out, the rest in their original order. */
  predicate IsSubsequence<T(==)>(r: seq<T>, s: seq<T>)
    decreases |s|
  {
    || |r| == 0
    || (|s| > 0 && ((r[0] == s[0] && IsSubsequence(r[1..], s[1..])) || IsSubsequence(r, s[1..])))
  }

  /** `companies.filter(c => matches(c))`. */
  function FilterByKeywords(cs: seq<Company>, k1: string, k2: string): (r: seq<Company>)
    ensures IsSubsequence(r, cs)
    ensures forall c :: c in r <==> c in cs && Matches(c, k1, k2)
    ensures forall c :: multiset(r)[c] == if Matches(c, k1, k2) then multiset(cs)[c] else 0
    decreases |cs|
  {
    if |cs| == 0 then []
    else
      var rest := FilterByKeywords(cs[1..], k1, k2);
      assert cs == [cs[0]] + cs[1..];
      if Matches(cs[0], k1, k2) then
        assert ([cs[0]] + rest)[1..] == rest;
        [cs[0]] + rest
      else
        rest
  }

  /*
   * The three groups of the ecosystem landscape: each keeps exactly the
   * matching companies, as often as they occur and in their original order.
   */

  /** Companies whose category names "Global" or "MNC". */
  function GlobalTitans(data: Option<Insights>): (r: seq<Company>)
    ensures IsSubsequence(r, Companies(data))
    ensures forall c :: c in r <==> c in Companies(data) && Matches(c, "Global", "MNC")
    ensures forall c :: multiset(r)[c] == if Matches(c, "Global", "MNC") then multiset(Companies(data))[c] else 0
  {
    FilterByKeywords(Companies(data), "Global", "MNC")
  }

  /** Companies whose category names "National" or "Domestic". */
  function NationalLeaders(data: Option<Insights>): (r: seq<Company>)
    ensures IsSubsequence(r, Companies(data))
    ensures forall c :: c in r <==> c in Companies(data) && Matches(c, "National", "Domestic")
    ensures forall c :: multiset(r)[c] == if Matches(c, "National", "Domestic") then multiset(Companies(data))[c] else 0
  {
    FilterByKeywords(Companies(data), "National", "Domestic")
  }

  /** Companies whose category names "Startup" or "Growth". */
  function Startups(data: Option<Insights>): (r: seq<Company>)
    ensures IsSubsequence(r, Companies(data))
    ensures forall c :: c in r <==> c in Companies(data) && Matches(c, "Startup", "Growth")
    ensures forall c :: multiset(r)[c] == if Matches(c, "Startup", "Growth") then multiset(Companies(data))[c] else 0
  {
    FilterByKeywords(Companies(data), "Startup", "Growth")
  }

  /** A company without a category appears in no group. */
  lemma UncategorisedInNoGroup(data: Option<Insights>, c: Company)
    requires c.category.None?
    ensures c !in GlobalTitans(data) && c !in NationalLeaders(data) && c !in Startups(data)
  {
  }

  /** A category naming none of the six keywords lands in no group. */
  lemma NoKeywordInNoGroup(data: Option<Insights>, c: Company)
    requires c.category.Some?
    requires !Contains(c.category.value, "Global") && !Contains(c.category.value, "MNC")
    requires !Contains(c.category.value, "National") && !Contains(c.category.value, "Domestic")
    requires !Contains(c.category.value, "Startup") && !Contains(c.category.value, "Growth")
    ensures c !in GlobalTitans(data) && c !in NationalLeaders(data) && c !in Startups(data)
  {
  }

  /** The groups are not disjoint: a "Global Growth" company is both a titan and a startup. */
  lemma GroupsOverlap(name: string)
    ensures var c := Company(name, Some("Global Growth"), None);
            var data := Some(Insights(Some([c]), None, None));
            c in GlobalTitans(data) && c in Startups(data) && c !in NationalLeaders(data)
  {
    var c := Company(name, Some("Global Growth"), None);
    var data := Some(Insights(Some([c]), None, None));
    assert OccursAt("Global Growth", "Global", 0);
    assert OccursAt("Global Growth", "Growth", 7);
    NoFirstCharNoOccurrence("Global Growth", "National");
    NoFirstCharNoOccurrence("Global Growth", "Domestic");
    assert Companies(data) == [c];
  }

  /** The "Scanning Ecosystem" panel: loading and no company yet. */
  predicate LoadingPanelShown(isLoading: bool, data: Option<Insights>)
  {
    isLoading && |Companies(data)| == 0
  }

  /** The loading panel hides as soon as companies arrive, even while still loading. */
  lemma LoadingPanelCondition(isLoading: bool, data: Option<Insights>)
    ensures LoadingPanelShown(isLoading, data) <==>
            isLoading && (data.None? || data.value.topCompanies.None? || data.value.topCompanies.value == [])
  {
  }

  /** `loc.demand?.includes('High')`: case-sensitive, a missing demand is not high. */
  predicate DemandIsHigh(demand: Option<string>)
  {
    demand.Some? && Contains(demand.value, "High")
  }

  const HighDemandClass: string := "bg-emerald-500/10 text-emerald-400"
  const OtherDemandClass: string := "bg-amber-500/10 text-amber-400"

  /** The badge classes of the `[ngClass]` ternary. */
  function DemandBadgeClass(demand: Option<string>): (r: string)
    ensures r == HighDemandClass <==> DemandIsHigh(demand)
    ensures r == OtherDemandClass <==> !DemandIsHigh(demand)
  {
    if DemandIsHigh(demand) then HighDemandClass else OtherDemandClass
  }

  /** The match is case-sensitive: "high" does not count, "Very High" does. */
  lemma DemandCaseSensitive()
    ensures DemandBadgeClass(Some("high")) == OtherDemandClass
    ensures DemandBadgeClass(Some("Very High")) == HighDemandClass
    ensures DemandBadgeClass(None) == OtherDemandClass
  {
    assert OccursAt("Very High", "High", 5);
    NoFirstCharNoOccurrence("high", "High");
  }
}
