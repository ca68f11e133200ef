/** The site catalog: site definitions, the usable-site filter of setup and the distrust filter. */
module Catalog {
  import opened Wrappers
  import opened Seqs

  /**
   * One catalog entry. Keys that an entry may lack are optional: `check_uri`,
   * `account_existence_code` and `account_existence_string` (read with `in` and `get`).
   */
  datatype Site = Site(
    name: string,
    category: string,
    checkUri: Option<string>,
    valid: bool,
    existenceCode: Option<string>,
    existenceString: Option<string>)

  predicate IsValid(site: Site) { site.valid }

  /** `[site for site in feed if site['valid']]`: the usable entries, in catalog order. */
  function ValidSites(feed: seq<Site>): (sites: seq<Site>)
    ensures SubseqOf(sites, feed)
    ensures forall s :: s in sites <==> s in feed && s.valid
  {
    Filter(feed, IsValid)
  }

  /** `[d for d in sites if d['name'] not in names]`: the sites whose name is not listed, in order. */
  function Without(sites: seq<Site>, names: seq<string>): (kept: seq<Site>)
    ensures SubseqOf(kept, sites)
    ensures forall s :: s in kept <==> s in sites && s.name !in names
  {
    Filter(sites, (s: Site) => s.name !in names)
  }

  /** Filtering against an empty name list keeps the whole catalog. */
  lemma {:induction false} WithoutNone(sites: seq<Site>)
    ensures Without(sites, []) == sites
    decreases |sites|
  {
    if sites != [] {
      WithoutNone(sites[1..]);
      assert Filter(sites[1..], (s: Site) => s.name !in []) == sites[1..];
      assert [sites[0]] + sites[1..] == sites;
    }
  }
}
