/** The per-site match decision of `checkSite` and the label it records the outcome under. */
module Evaluator {
  import opened Wrappers
  import opened Text
  import opened Catalog

  /** What the fetch collaborator returns: the status code and the body, either possibly absent. */
  datatype Response = Response(code: Option<string>, content: Option<string>)

  /** Why a probe decided as it did; `Raised` is the `TypeError` of testing a missing existence string. */
  datatype Verdict =
    | Found
    | EmptyBody
    | WrongCode
    | MissingString
    | NameNotMentioned
    | PunctuationClash
    | Raised

  /** One recorded probe outcome: the result-map key (the site's label) and whether it was found. */
  datatype Outcome = Outcome(key: string, found: bool)

  /** The probed URL: the username substituted into the site's check template. */
  function Url(template: string, name: string): string
  {
    Format(template, name)
  }

  /** The display label an outcome is stored under. */
  function Label(site: Site, url: string): string
  {
    site.name + " (Category: " + site.category + ")\n<SFURL>" + url + "</SFURL>"
  }

  /** The separator that ends the site name inside a label. */
  const CategoryMark: string := " (Category:"

  /** `label.split(" (Category:")[0]`: the site name recovered from a label. */
  function SiteNameOf(key: string): string
  {
    PrefixBefore(key, CategoryMark)
  }

  /** A body counts as empty when it is absent or the empty string (`not res['content']`). */
  predicate EmptyContent(res: Response)
  {
    res.content.None? || res.content.value == ""
  }

  /** The dot rule: the part of the name before its first `.`, followed by `<` or `"`, is in the body. */
  predicate PunctuationClashIn(name: string, body: string)
  {
    '.' in name &&
      var first := PrefixBefore(name, ".");
      Contains(body, first + "<") || Contains(body, first + "\"")
  }

  /** The chain of checks, in source order, stopping at the first that fails. */
  function Judge(site: Site, name: string, mustHaveName: bool, res: Response): Verdict
  {
    if EmptyContent(res) then EmptyBody
    else if res.code != site.existenceCode then WrongCode
    else if site.existenceString.None? then Raised
    else if !Contains(res.content.value, site.existenceString.value) then MissingString
    else if mustHaveName && !Contains(Lower(res.content.value), Lower(name)) then NameNotMentioned
    else if PunctuationClashIn(name, res.content.value) then PunctuationClash
    else Found
  }

  /**
   * One `checkSite(name, site)` call: no outcome for a site without a check URL or one whose
   * check raised; otherwise the label and whether the account was found.
   */
  function Probe(site: Site, name: string, mustHaveName: bool, fetch: string -> Response): Option<Outcome>
  {
    match site.checkUri
    case None => None
    case Some(template) =>
      var url := Url(template, name);
      var verdict := Judge(site, name, mustHaveName, fetch(url));
      if verdict == Raised then None else Some(Outcome(Label(site, url), verdict == Found))
  }

  /** Every individual check a found account has to pass. */
  predicate AllChecksPass(site: Site, name: string, mustHaveName: bool, res: Response)
  {
    && res.content.Some? && res.content.value != ""
    && res.code == site.existenceCode
    && site.existenceString.Some?
    && Contains(res.content.value, site.existenceString.value)
    && (mustHaveName ==> Contains(Lower(res.content.value), Lower(name)))
    && !PunctuationClashIn(name, res.content.value)
  }

  /** An account is found exactly when every check passes. */
  lemma JudgeFoundIff(site: Site, name: string, mustHaveName: bool, res: Response)
    ensures Judge(site, name, mustHaveName, res) == Found <==> AllChecksPass(site, name, mustHaveName, res)
  {
  }

  /**
   * The checks short-circuit in source order: each rejection is reported only when every
   * earlier check passed, and an earlier failure hides every later one.
   */
  lemma JudgeOrder(site: Site, name: string, mustHaveName: bool, res: Response)
    ensures EmptyContent(res) ==> Judge(site, name, mustHaveName, res) == EmptyBody
    ensures !EmptyContent(res) && res.code != site.existenceCode ==>
              Judge(site, name, mustHaveName, res) == WrongCode
    ensures !EmptyContent(res) && res.code == site.existenceCode && site.existenceString.Some? &&
            !Contains(res.content.value, site.existenceString.value) ==>
              Judge(site, name, mustHaveName, res) == MissingString
    ensures Judge(site, name, mustHaveName, res) == NameNotMentioned <==>
              !EmptyContent(res) && res.code == site.existenceCode && site.existenceString.Some? &&
              Contains(res.content.value, site.existenceString.value) &&
              mustHaveName && !Contains(Lower(res.content.value), Lower(name))
  {
  }

  /** With the name policy off, a name absent from the body never rejects. */
  lemma NamePolicyOff(site: Site, name: string, res: Response)
    ensures Judge(site, name, false, res) != NameNotMentioned
    ensures Judge(site, name, true, res) == Found ==> Judge(site, name, false, res) == Found
    ensures Judge(site, name, true, res) != NameNotMentioned ==>
              Judge(site, name, false, res) == Judge(site, name, true, res)
  {
  }

  /** A name without a dot is never rejected by the dot rule. */
  lemma NoDotNoClash(site: Site, name: string, mustHaveName: bool, res: Response)
    requires '.' !in name
    ensures Judge(site, name, mustHaveName, res) != PunctuationClash
  {
  }

  /** Labels give back their site's name when that name has no opening parenthesis. */
  lemma SiteNameOfLabel(site: Site, url: string)
    requires '(' !in site.name
    ensures SiteNameOf(Label(site, url)) == site.name
  {
    var tail := " (Category: " + site.category + ")\n<SFURL>" + url + "</SFURL>";
    var text := Label(site, url);
    assert text == site.name + tail;
    assert CategoryMark <= tail;
    forall i | 0 <= i < |site.name| ensures !(CategoryMark <= text[i..]) {
      if i + 1 < |site.name| {
        assert text[i + 1] == site.name[i + 1];
        assert site.name[i + 1] in site.name;
      } else {
        assert text[i + 1] == tail[0] == ' ';
      }
      assert text[i..][1] == text[i + 1] != '(';
    }
    PrefixBeforeFirst(site.name, tail, CategoryMark);
  }

  /** A probe records nothing for a site that has no check URL. */
  lemma NoCheckUriNoOutcome(site: Site, name: string, mustHaveName: bool, fetch: string -> Response)
    requires site.checkUri.None?
    ensures Probe(site, name, mustHaveName, fetch) == None
  {
  }

  /** A recorded outcome carries the label built from the site and its substituted URL. */
  lemma ProbeLabel(site: Site, name: string, mustHaveName: bool, fetch: string -> Response)
    requires Probe(site, name, mustHaveName, fetch).Some?
    ensures site.checkUri.Some?
    ensures var url := Url(site.checkUri.value, name);
            var o := Probe(site, name, mustHaveName, fetch).value;
            o.key == Label(site, url) &&
            (o.found <==> AllChecksPass(site, name, mustHaveName, fetch(url)))
  {
    JudgeFoundIff(site, name, mustHaveName, fetch(Url(site.checkUri.value, name)));
  }

  /** The dot rule rejects even a response that passes every earlier check. */
  lemma DotRuleOverrides(site: Site, name: string, mustHaveName: bool, res: Response)
    requires !EmptyContent(res) && res.code == site.existenceCode && site.existenceString.Some?
    requires Contains(res.content.value, site.existenceString.value)
    requires mustHaveName ==> Contains(Lower(res.content.value), Lower(name))
    requires '.' in name && Contains(res.content.value, PrefixBefore(name, ".") + "<")
    ensures Judge(site, name, mustHaveName, res) == PunctuationClash
  {
  }

  /** The example site used by the two dot-rule examples below. */
  const ExampleSite: Site := Site("Example", "social", Some("https://x/{account}"), true, Some("200"), Some("profile"))

  /** The part of `bob.abc` before its dot is `bob`. */
  lemma ExampleNameHead()
    ensures '.' in "bob.abc" && PrefixBefore("bob.abc", ".") == "bob"
  {
    assert "bob.abc" == "bob" + ".abc";
    PrefixBeforeChar("bob", ".abc", '.');
  }

  /** A body that names `bob.abc` verbatim passes the existence-string and name checks. */
  lemma ExampleBodyMentions(body: string, k: nat)
    requires OccursAt(body, "profile", 0) && OccursAt(body, "bob.abc", k)
    ensures Contains(body, "profile")
    ensures Contains(Lower(body), Lower("bob.abc"))
  {
    ContainsIffOccurs(body, "profile");
    ContainsIffOccurs(body, "bob.abc");
    ContainsLower(body, "bob.abc");
  }

  /** The facts about the rejected example page that the dot-rule example needs. */
  lemma RejectedPageFacts(body: string)
    requires body == "profile bob.abc bob<"
    ensures Contains(body, "profile") && Contains(Lower(body), Lower("bob.abc"))
    ensures Contains(body, PrefixBefore("bob.abc", ".") + "<")
  {
    ExampleNameHead();
    ExampleBodyMentions(body, 8);
    assert OccursAt(body, "bob<", 16);
    ContainsIffOccurs(body, "bob<");
    assert "bob" + "<" == "bob<";
  }

  /** The facts about the accepted example page that the dot-rule example needs. */
  lemma AcceptedPageFacts(body: string)
    requires body == "profile bob.abc"
    ensures Contains(body, "profile") && Contains(Lower(body), Lower("bob.abc"))
    ensures !PunctuationClashIn("bob.abc", body)
  {
    ExampleNameHead();
    ExampleBodyMentions(body, 8);
    AbsentCharNotContained(body, "bob" + "<", '<');
    AbsentCharNotContained(body, "bob" + "\"", '"');
  }

  /** `bob.abc` is not found on a page that mentions `bob<`, even when every other check passes. */
  lemma DotRuleRejects()
    ensures Judge(ExampleSite, "bob.abc", true, Response(Some("200"), Some("profile bob.abc bob<"))) == PunctuationClash
  {
    var body := "profile bob.abc bob<";
    ExampleNameHead();
    RejectedPageFacts(body);
    DotRuleOverrides(ExampleSite, "bob.abc", true, Response(Some("200"), Some(body)));
  }

  /** `bob.abc` is found on a page that names it verbatim and shows no `bob<` or `bob"`. */
  lemma DotRuleAccepts()
    ensures Judge(ExampleSite, "bob.abc", true, Response(Some("200"), Some("profile bob.abc"))) == Found
  {
    var res := Response(Some("200"), Some("profile bob.abc"));
    AcceptedPageFacts(res.content.value);
    JudgeFoundIff(ExampleSite, "bob.abc", true, res);
  }
}
