/** A concrete probing round: three sites, one of which hosts `bob`. */
module Scenario {
  import opened Wrappers
  import opened Seqs
  import opened Text
  import opened Catalog
  import opened Evaluator
  import opened Results

  const SiteA: Site := Site("Alpha", "social", Some("https://a/" + Placeholder), true, Some("200"), Some("profile"))
  const SiteB: Site := Site("Beta", "social", Some("https://b/" + Placeholder), true, Some("200"), Some("profile"))
  const SiteC: Site := Site("Gamma", "social", Some("https://c/" + Placeholder), true, Some("200"), Some("profile"))

  /** The network for the scenario: a profile page on A, a 404 on B and an unrelated page on C. */
  function Network(url: string): Response
  {
    if url == "https://a/bob" then Response(Some("200"), Some("profile of bob"))
    else if url == "https://b/bob" then Response(Some("404"), Some(""))
    else Response(Some("200"), Some("no match"))
  }

  /** Substituting `bob` into a template `prefix{account}`. */
  lemma UrlOf(prefix: string)
    requires '{' !in prefix && '}' !in prefix
    ensures Url(prefix + Placeholder, "bob") == prefix + "bob"
  {
    FormatOne(prefix, "", "bob");
    assert prefix + Placeholder + "" == prefix + Placeholder;
    assert prefix + "bob" + "" == prefix + "bob";
  }

  /** A site with a check URL that does not raise records its label and whether it was found. */
  lemma ProbeRecords(site: Site, url: string, fetch: string -> Response)
    requires site.checkUri.Some? && Url(site.checkUri.value, "bob") == url
    requires Judge(site, "bob", true, fetch(url)) != Raised
    ensures Probe(site, "bob", true, fetch) ==
              Some(Outcome(Label(site, url), Judge(site, "bob", true, fetch(url)) == Found))
  {
  }

  /** Site A's page passes every check for `bob`. */
  lemma PageAFacts(body: string)
    requires body == "profile of bob"
    ensures AllChecksPass(SiteA, "bob", true, Response(Some("200"), Some(body)))
  {
    assert OccursAt(body, "profile", 0);
    ContainsIffOccurs(body, "profile");
    assert OccursAt(body, "bob", 11);
    ContainsIffOccurs(body, "bob");
    ContainsLower(body, "bob");
  }

  /** Site C's page lacks the expected string. */
  lemma PageCFacts(body: string)
    requires body == "no match"
    ensures !Contains(body, "profile")
  {
    AbsentCharNotContained(body, "profile", 'p');
  }

  lemma ProbeA()
    ensures Probe(SiteA, "bob", true, Network) == Some(Outcome(Label(SiteA, "https://a/bob"), true))
  {
    UrlOf("https://a/");
    var res := Network("https://a/bob");
    assert res == Response(Some("200"), Some("profile of bob"));
    PageAFacts(res.content.value);
    JudgeFoundIff(SiteA, "bob", true, res);
    ProbeRecords(SiteA, "https://a/bob", Network);
  }

  lemma ProbeB()
    ensures Probe(SiteB, "bob", true, Network) == Some(Outcome(Label(SiteB, "https://b/bob"), false))
  {
    UrlOf("https://b/");
  }

  lemma ProbeC()
    ensures Probe(SiteC, "bob", true, Network) == Some(Outcome(Label(SiteC, "https://c/bob"), false))
  {
    UrlOf("https://c/");
    var res := Network("https://c/bob");
    assert res == Response(Some("200"), Some("no match"));
    PageCFacts(res.content.value);
    assert Judge(SiteC, "bob", true, res) == MissingString;
    ProbeRecords(SiteC, "https://c/bob", Network);
  }

  /** Recording three outcomes with distinct labels keeps them in order. */
  lemma FoldThree(la: string, lb: string, lc: string)
    requires la != lb && la != lc && lb != lc
    ensures Fold([Some(Outcome(la, true)), Some(Outcome(lb, false)), Some(Outcome(lc, false))]) ==
              Dict(map[la := true, lb := false, lc := false], [la, lb, lc])
  {
    var oa, ob, oc := Some(Outcome(la, true)), Some(Outcome(lb, false)), Some(Outcome(lc, false));
    assert [] + [oa] == [oa] && [oa] + [ob] == [oa, ob] && [oa, ob] + [oc] == [oa, ob, oc];
    FoldSnoc([], oa);
    FoldSnoc([oa], ob);
    FoldSnoc([oa, ob], oc);
    var d1 := Empty.Put(la, true);
    var d2 := d1.Put(lb, false);
    var d3 := d2.Put(lc, false);
    assert Fold([oa]) == d1;
    assert Fold([oa, ob]) == d2;
    assert Fold([oa, ob, oc]) == d3;
    assert d3.order == [la, lb, lc];
    assert d3.entries == map[la := true, lb := false, lc := false];
  }

  /** Only the label recorded as found is reported. */
  lemma TrueKeysThree(la: string, lb: string, lc: string)
    requires la != lb && la != lc && lb != lc
    ensures Dict(map[la := true, lb := false, lc := false], [la, lb, lc]).Valid()
    ensures TrueKeys(Dict(map[la := true, lb := false, lc := false], [la, lb, lc])) == [la]
  {
    var d := Dict(map[la := true, lb := false, lc := false], [la, lb, lc]);
    var keep := (k: string) => k in d.entries && d.entries[k];
    assert Filter([lc], keep) == [];
    assert Filter([lb, lc], keep) == [];
    assert [la, lb, lc][1..] == [lb, lc];
  }

  /** Scanning the three sites for `bob` reports exactly site A's label. */
  lemma ScenarioScan()
    ensures TrueKeys(Round("bob", [SiteA, SiteB, SiteC], true, Network)) == [Label(SiteA, "https://a/bob")]
  {
    ProbeA();
    ProbeB();
    ProbeC();
    var la, lb, lc := Label(SiteA, "https://a/bob"), Label(SiteB, "https://b/bob"), Label(SiteC, "https://c/bob");
    assert la[0] == 'A' && lb[0] == 'B' && lc[0] == 'G';
    var outs := Outcomes("bob", [SiteA, SiteB, SiteC], true, Network);
    assert outs == [Some(Outcome(la, true)), Some(Outcome(lb, false)), Some(Outcome(lc, false))];
    FoldThree(la, lb, lc);
    TrueKeysThree(la, lb, lc);
  }
}
