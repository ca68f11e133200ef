/** The account finder plugin: setup, probing rounds, calibration and event handling. */
module Accounts {
  import opened Wrappers
  import opened Seqs
  import opened Text
  import opened Catalog
  import opened Evaluator
  import opened Results
  import opened Distrust

  /** The options the event handler reads; the name and word dictionaries come with them. */
  datatype Options = Options(
    mustHaveName: bool,
    ignoreNameDict: bool,
    ignoreWordDict: bool,
    genericUsers: string,
    commonNames: set<string>,
    words: set<string>)

  /** An incoming event: its type, the module that produced it and its data. */
  datatype Event = Event(eventType: string, source: string, data: string)

  /** An event the plugin emits. */
  datatype Emitted = Username(user: string) | AccountExternalOwned(key: string)

  /** The plugin's own module name, used to recognise events it produced itself. */
  const ModuleName: string := "sfp_accounts"

  /** The candidate usernames an event yields; `None` when a domain has no keyword, which ends handling. */
  function DerivedUsers(ev: Event, keyword: Option<string>): (users: Option<seq<string>>)
    ensures users.None? <==> ev.eventType == "DOMAIN_NAME" && (keyword.None? || keyword.value == "")
    ensures ev.eventType == "USERNAME" ==> users == Some([ev.data])
    ensures ev.eventType == "DOMAIN_NAME" && keyword.Some? && keyword.value != "" ==> users == Some([keyword.value])
    ensures ev.eventType == "EMAILADDR" ==>
              users == Some([Lower(PrefixBefore(ev.data, "@"))]) && '@' !in users.value[0]
    ensures ev.eventType == "HUMAN_NAME" ==>
              users == Some([ReplaceChar(Lower(ev.data), ' ', ""), ReplaceChar(Lower(ev.data), ' ', ".")]) &&
              ' ' !in users.value[0] && ' ' !in users.value[1]
    ensures ev.eventType !in {"HUMAN_NAME", "DOMAIN_NAME", "EMAILADDR", "USERNAME"} ==> users == Some([])
  {
    if ev.eventType == "HUMAN_NAME" then
      var lower := Lower(ev.data);
      Some([ReplaceChar(lower, ' ', ""), ReplaceChar(lower, ' ', ".")])
    else if ev.eventType == "DOMAIN_NAME" then
      if keyword.None? || keyword.value == "" then None else Some([keyword.value])
    else if ev.eventType == "EMAILADDR" then
      var local := PrefixBefore(ev.data, "@");
      PrefixBeforeFree(ev.data, '@');
      LowerKeepsAbsent(local, '@');
      Some([Lower(local)])
    else if ev.eventType == "USERNAME" then Some([ev.data])
    else Some([])
  }

  /** Lower-casing does not introduce a character that is not an upper-case letter. */
  lemma LowerKeepsAbsent(s: string, c: char)
    requires c !in s && !('a' <= c <= 'z')
    ensures c !in Lower(s)
  {
    forall i | 0 <= i < |s| ensures Lower(s)[i] != c {
      assert s[i] in s;
    }
  }

  /** An e-mail address yields its lower-cased local part: the text before the first `@`. */
  lemma EmailUser(local: string, domain: string, source: string)
    requires '@' !in local
    ensures DerivedUsers(Event("EMAILADDR", source, local + "@" + domain), None) == Some([Lower(local)])
  {
    assert local + "@" + domain == local + ("@" + domain);
    PrefixBeforeChar(local, "@" + domain, '@');
  }

  /**
   * A human name yields the lower-cased name with its spaces dropped and with its spaces turned
   * into dots; both have no space, and the dotted one keeps the name's length.
   */
  lemma HumanNameUsers(name: string, source: string)
    ensures var users := DerivedUsers(Event("HUMAN_NAME", source, name), None).value;
            var lower := Lower(name);
            users[0] == Filter(lower, (x: char) => x != ' ') &&
            |users[1]| == |name| &&
            (forall i :: 0 <= i < |name| ==> users[1][i] == if lower[i] == ' ' then '.' else lower[i]) &&
            (' ' !in lower ==> users[0] == users[1] == lower)
  {
  }

  /** A candidate survives the generic-name, name-dictionary and word-dictionary filters. */
  predicate Accepted(user: string, opts: Options)
  {
    && user !in Split(opts.genericUsers, ',')
    && !(opts.ignoreNameDict && user in opts.commonNames)
    && !(opts.ignoreWordDict && user in opts.words)
  }

  /** The users newly reported, in order, when `users` are considered after `reported`. */
  function NewUsers(reported: seq<string>, users: seq<string>, data: string, opts: Options): seq<string>
    decreases |users|
  {
    if users == [] then []
    else
      var u := users[0];
      if Accepted(u, opts) && u !in reported && u != data then
        [u] + NewUsers(reported + [u], users[1..], data, opts)
      else NewUsers(reported, users[1..], data, opts)
  }

  /**
   * A user is reported exactly when it passes the filters, was not reported before and differs
   * from the event data; nothing is reported twice.
   */
  lemma {:induction false} NewUsersSpec(reported: seq<string>, users: seq<string>, data: string, opts: Options)
    requires NoDup(reported)
    ensures forall x :: x in NewUsers(reported, users, data, opts) <==>
              x in users && Accepted(x, opts) && x !in reported && x != data
    ensures NoDup(reported + NewUsers(reported, users, data, opts))
    decreases |users|
  {
    if users != [] {
      var u := users[0];
      assert forall x :: x in users <==> x == u || x in users[1..];
      if Accepted(u, opts) && u !in reported && u != data {
        AppendNoDup(reported, u);
        NewUsersSpec(reported + [u], users[1..], data, opts);
        assert reported + [u] + NewUsers(reported + [u], users[1..], data, opts) ==
               reported + NewUsers(reported, users, data, opts);
      } else {
        NewUsersSpec(reported, users[1..], data, opts);
      }
    }
  }

  /** The events announcing newly reported users. */
  function UsernameEvents(users: seq<string>): seq<Emitted>
  {
    seq(|users|, i requires 0 <= i < |users| => Username(users[i]))
  }

  /** The events announcing found accounts. */
  function AccountEvents(found: seq<string>): seq<Emitted>
  {
    seq(|found|, i requires 0 <= i < |found| => AccountExternalOwned(found[i]))
  }

  class AccountFinder {
    const opts: Options
    var sites: seq<Site>
    var results: set<string>
    var reportedUsers: seq<string>
    var siteResults: Dict
    var errorState: bool
    var distrustedChecked: bool

    ghost predicate Valid()
      reads this
    {
      NoDup(reportedUsers) && siteResults.Valid()
    }

    /** `setup`: `feed` is the parsed catalog, `None` when it could not be fetched or parsed. */
    constructor (opts: Options, feed: Option<seq<Site>>)
      ensures Valid() && this.opts == opts
      ensures errorState <==> feed.None?
      ensures sites == if feed.Some? then ValidSites(feed.value) else []
      ensures results == {} && reportedUsers == [] && !distrustedChecked && siteResults == Empty
    {
      this.opts := opts;
      results := {};
      reportedUsers := [];
      errorState := false;
      distrustedChecked := false;
      siteResults := Empty;
      sites := [];
      if feed.None? {
        errorState := true;
      } else {
        sites := ValidSites(feed.value);
      }
    }

    /** `checkSite(name, site)`, with the response supplied by `fetch`. */
    method CheckSite(name: string, site: Site, fetch: string -> Response)
      requires siteResults.Valid()
      modifies this`siteResults
      ensures siteResults == Record(old(siteResults), Probe(site, name, opts.mustHaveName, fetch))
    {
      if site.checkUri.None? {
        return;
      }
      var url := Url(site.checkUri.value, name);
      var retname := Label(site, url);
      var res := fetch(url);
      if EmptyContent(res) {
        siteResults := siteResults.Put(retname, false);
        return;
      }
      if res.code != site.existenceCode {
        siteResults := siteResults.Put(retname, false);
        return;
      }
      if site.existenceString.None? {
        // `None in content` raises; the worker swallows the error and nothing is recorded
        return;
      }
      if !Contains(res.content.value, site.existenceString.value) {
        siteResults := siteResults.Put(retname, false);
        return;
      }
      if opts.mustHaveName && !Contains(Lower(res.content.value), Lower(name)) {
        siteResults := siteResults.Put(retname, false);
        return;
      }
      if '.' in name {
        var firstname := PrefixBefore(name, ".");
        if Contains(res.content.value, firstname + "<") || Contains(res.content.value, firstname + "\"") {
          siteResults := siteResults.Put(retname, false);
          return;
        }
      }
      siteResults := siteResults.Put(retname, true);
    }

    /** `checkSites(name)`: probe every site in turn and return the labels found. */
    method CheckSites(name: string, fetch: string -> Response) returns (found: seq<string>)
      modifies this`siteResults
      ensures siteResults == Round(name, sites, opts.mustHaveName, fetch)
      ensures found == TrueKeys(siteResults)
    {
      siteResults := Empty;
      var i := 0;
      while i < |sites|
        invariant 0 <= i <= |sites|
        invariant siteResults == Round(name, sites[..i], opts.mustHaveName, fetch)
      {
        var outs := Outcomes(name, sites[..i + 1], opts.mustHaveName, fetch);
        assert outs[..i] == Outcomes(name, sites[..i], opts.mustHaveName, fetch);
        CheckSite(name, sites[i], fetch);
        i := i + 1;
      }
      assert sites[..i] == sites;
      found := TrueKeys(siteResults);
    }

    /** The calibration step of `handleEvent`: prune the catalog with the cached distrust list or a fresh calibration round. */
    method Calibrate(cached: Option<string>, randUser: string, fetch: string -> Response) returns (put: Option<CacheWrite>)
      requires Valid()
      modifies this`sites, this`siteResults
      ensures Valid()
      ensures CachedDistrust(cached).Some? ==>
                sites == Calibrated(old(sites), cached, []) && siteResults == old(siteResults) && put == None
      ensures CachedDistrust(cached).None? ==>
                var d := Round(randUser, old(sites), opts.mustHaveName, fetch);
                siteResults == d &&
                sites == Calibrated(old(sites), cached, TrueKeys(d)) &&
                put == Some(CalibrationWrite(TrueKeys(d)))
    {
      if cached.Some? && cached.value != "" {
        if cached.value != NoneMarker {
          var delsites := DistrustedFromCache(cached.value);
          sites := Without(sites, delsites);
        }
        put := None;
      } else {
        var res := CheckSites(randUser, fetch);
        if res != [] {
          var delsites := DistrustedFromLabels(res);
          assert delsites == SiteNames(res);
          sites := Without(sites, delsites);
          put := Some(DistrustList(delsites));
        } else {
          put := Some(NothingDistrusted);
        }
      }
    }

    /** The reporting loop of `handleEvent`: report each accepted, not yet reported user other than the event data. */
    method ReportUsers(users: seq<string>, data: string) returns (reported: seq<string>)
      requires NoDup(reportedUsers)
      modifies this`reportedUsers
      ensures reported == NewUsers(old(reportedUsers), users, data, opts)
      ensures reportedUsers == old(reportedUsers) + reported
      ensures NoDup(reportedUsers)
    {
      reported := [];
      var i := 0;
      while i < |users|
        invariant 0 <= i <= |users|
        invariant reportedUsers == old(reportedUsers) + reported
        invariant reported + NewUsers(reportedUsers, users[i..], data, opts) ==
                  NewUsers(old(reportedUsers), users, data, opts)
        invariant NoDup(reportedUsers)
      {
        var user := users[i];
        assert users[i..][0] == user && users[i..][1..] == users[i + 1..];
        if user in Split(opts.genericUsers, ',') {
        } else if opts.ignoreNameDict && user in opts.commonNames {
        } else if opts.ignoreWordDict && user in opts.words {
        } else if user !in reportedUsers && data != user {
          AppendNoDup(reportedUsers, user);
          reportedUsers := reportedUsers + [user];
          reported := reported + [user];
        }
        i := i + 1;
      }
    }

    /** The event is handled at all: no error, not an own non-username event, data not seen before. */
    ghost predicate Handles(ev: Event)
      reads this
    {
      !errorState && !(ev.eventType != "USERNAME" && ev.source == ModuleName) && ev.data !in results
    }

    /**
     * `handleEvent(event)`. The cached distrust text, the calibration name, the domain keyword
     * and the network are supplied; the emitted events and the cache write are returned.
     */
    method HandleEvent(ev: Event, cached: Option<string>, randUser: string, keyword: Option<string>,
                       fetch: string -> Response)
      returns (emitted: seq<Emitted>, put: Option<CacheWrite>)
      requires Valid()
      modifies this
      ensures Valid()
      ensures errorState == old(errorState)
      ensures !old(Handles(ev)) ==>
                emitted == [] && put == None && sites == old(sites) && results == old(results) &&
                reportedUsers == old(reportedUsers) && siteResults == old(siteResults) &&
                distrustedChecked == old(distrustedChecked)
      ensures old(Handles(ev)) ==> results == old(results) + {ev.data} && distrustedChecked
      ensures old(Handles(ev)) && old(distrustedChecked) ==> put == None
      ensures old(Handles(ev)) && !old(distrustedChecked) ==>
                var found := TrueKeys(Round(randUser, old(sites), opts.mustHaveName, fetch));
                sites == Calibrated(old(sites), cached, found) &&
                put == if CachedDistrust(cached).None? then Some(CalibrationWrite(found)) else None
      ensures old(Handles(ev)) && old(distrustedChecked) ==> sites == old(sites)
      ensures old(Handles(ev)) && DerivedUsers(ev, keyword).None? ==>
                reportedUsers == old(reportedUsers) && emitted == []
      ensures old(Handles(ev)) && DerivedUsers(ev, keyword).Some? ==>
                var added := NewUsers(old(reportedUsers), DerivedUsers(ev, keyword).value, ev.data, opts);
                reportedUsers == old(reportedUsers) + added &&
                emitted == UsernameEvents(added) +
                  if ev.eventType == "USERNAME"
                  then AccountEvents(TrueKeys(Round(ev.data, sites, opts.mustHaveName, fetch)))
                  else []
    {
      emitted := [];
      put := None;
      if errorState {
        return;
      }
      if ev.eventType != "USERNAME" && ev.source == ModuleName {
        return;
      }
      if ev.data in results {
        return;
      }
      results := results + {ev.data};

      if !distrustedChecked {
        put := Calibrate(cached, randUser, fetch);
        distrustedChecked := true;
      }

      var users := DerivedUsers(ev, keyword);
      if users.None? {
        return;
      }
      var reported := ReportUsers(users.value, ev.data);
      emitted := UsernameEvents(reported);

      // the source probes its loop variable `user`, which for a USERNAME event is the event data
      if ev.eventType == "USERNAME" {
        var found := CheckSites(ev.data, fetch);
        emitted := emitted + AccountEvents(found);
      }
    }
  }
}
