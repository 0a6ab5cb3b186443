/**
 * The older tech-hubs component (src/components/tech-hubs.component.ts). It
 * has no loading input, computes the same signals from the same payload, and
 * binds the demand badge through four separate class bindings instead of a
 * ternary.
 */
module LegacyTechHubs {
  import opened Wrappers
  import TechHubs

  /** The component's computed signals. */
  datatype Panels = Panels(
    companies: seq<TechHubs.Company>,
    topCities: seq<TechHubs.LocationRow>,
    topStates: seq<TechHubs.LocationRow>,
    globalTitans: seq<TechHubs.Company>,
    nationalLeaders: seq<TechHubs.Company>,
    startups: seq<TechHubs.Company>)

  /**
   * The `computed` block: defaults to empty lists when the payload or a field
   * is missing, and the three keyword groups as order-preserving filters of
   * `companies` — the same signals as the newer component.
   */
  function Derive(data: Option<TechHubs.Insights>): (p: Panels)
    ensures data.None? ==> p.companies == [] && p.topCities == [] && p.topStates == []
    ensures TechHubs.IsSubsequence(p.globalTitans, p.companies)
    ensures TechHubs.IsSubsequence(p.nationalLeaders, p.companies)
    ensures TechHubs.IsSubsequence(p.startups, p.companies)
    ensures forall c :: c in p.globalTitans <==> c in p.companies && TechHubs.Matches(c, "Global", "MNC")
    ensures forall c :: c in p.nationalLeaders <==> c in p.companies && TechHubs.Matches(c, "National", "Domestic")
    ensures forall c :: c in p.startups <==> c in p.companies && TechHubs.Matches(c, "Startup", "Growth")
    ensures p.topCities == TechHubs.TopCities(data) && p.topStates == TechHubs.TopStates(data)
    ensures p.companies == TechHubs.Companies(data) && p.globalTitans == TechHubs.GlobalTitans(data)
            && p.nationalLeaders == TechHubs.NationalLeaders(data) && p.startups == TechHubs.Startups(data)
  {
    var companies := TechHubs.Companies(data);
    Panels(
      companies,
      TechHubs.TopCities(data),
      TechHubs.TopStates(data),
      TechHubs.FilterByKeywords(companies, "Global", "MNC"),
      TechHubs.FilterByKeywords(companies, "National", "Domestic"),
      TechHubs.FilterByKeywords(companies, "Startup", "Growth"))
  }

  /**
   * The classes the four `[class.…]` bindings switch on for a demand value:
   * the emerald pair exactly when the demand contains "High", the amber pair
   * exactly otherwise, never a mix.
   */
  function DemandClasses(demand: Option<string>): (r: set<string>)
    ensures "bg-emerald-500-10" in r <==> TechHubs.DemandIsHigh(demand)
    ensures "text-emerald-400" in r <==> TechHubs.DemandIsHigh(demand)
    ensures "bg-amber-500-10" in r <==> !TechHubs.DemandIsHigh(demand)
    ensures "text-amber-400" in r <==> !TechHubs.DemandIsHigh(demand)
    ensures |r| == 2
  {
    var high := TechHubs.DemandIsHigh(demand);
    (if high then {"bg-emerald-500-10", "text-emerald-400"} else {})
    + (if !high then {"bg-amber-500-10", "text-amber-400"} else {})
  }
}
