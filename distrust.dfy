/** Trust calibration: reading the cached distrust list and deriving one from a calibration round. */
module Distrust {
  import opened Wrappers
  import opened Seqs
  import opened Text
  import opened Catalog
  import opened Evaluator

  /** The cached text that means "calibrated, nothing distrusted". */
  const NoneMarker: string := "None"

  predicate NonEmpty(line: string) { line != "" }

  /** The non-empty lines of the cached text, in order. */
  function NonEmptyLines(content: string): (names: seq<string>)
    ensures forall x :: x in names <==> x != "" && x in Split(content, '\n')
    ensures forall x :: x in names ==> '\n' !in x
  {
    Filter(Split(content, '\n'), NonEmpty)
  }

  /** The `delsites` loop over the cached text: collect its non-empty lines. */
  method DistrustedFromCache(content: string) returns (delsites: seq<string>)
    ensures delsites == NonEmptyLines(content)
  {
    var lines := Split(content, '\n');
    delsites := [];
    var i := 0;
    while i < |lines|
      invariant 0 <= i <= |lines|
      invariant delsites == Filter(lines[..i], NonEmpty)
    {
      FilterAppend(lines[..i], [lines[i]], NonEmpty);
      assert lines[..i + 1] == lines[..i] + [lines[i]];
      if lines[i] != "" {
        delsites := delsites + [lines[i]];
      }
      i := i + 1;
    }
    assert lines[..i] == lines;
  }

  /** The names of the sites behind the given labels. */
  function SiteNames(found: seq<string>): seq<string>
  {
    seq(|found|, i requires 0 <= i < |found| => SiteNameOf(found[i]))
  }

  /** The `delsites` loop over a calibration round's found labels: recover each one's site name. */
  method DistrustedFromLabels(found: seq<string>) returns (delsites: seq<string>)
    ensures |delsites| == |found|
    ensures forall i :: 0 <= i < |found| ==> delsites[i] == PrefixBefore(found[i], " (Category:")
  {
    delsites := [];
    var i := 0;
    while i < |found|
      invariant 0 <= i <= |found|
      invariant |delsites| == i
      invariant forall j :: 0 <= j < i ==> delsites[j] == PrefixBefore(found[j], " (Category:")
    {
      delsites := delsites + [SiteNameOf(found[i])];
      i := i + 1;
    }
  }

  /**
   * The cached distrust state: `None` when there is nothing usable in the cache (absent or
   * empty text, so calibration must run), otherwise the list of distrusted names.
   */
  function CachedDistrust(cached: Option<string>): Option<seq<string>>
  {
    if cached.None? || cached.value == "" then None
    else if cached.value == NoneMarker then Some([])
    else Some(NonEmptyLines(cached.value))
  }

  /** What a calibration round asks the cache to store. */
  datatype CacheWrite = DistrustList(names: seq<string>) | NothingDistrusted

  /** The cache write after a calibration round that found the given labels. */
  function CalibrationWrite(found: seq<string>): CacheWrite
  {
    if found == [] then NothingDistrusted else DistrustList(SiteNames(found))
  }

  /**
   * The catalog after calibration: filtered by the cached list on a hit, by the names behind
   * the calibration round's `found` labels on a miss.
   */
  function Calibrated(sites: seq<Site>, cached: Option<string>, found: seq<string>): seq<Site>
  {
    match CachedDistrust(cached)
    case Some(names) => if cached.value == NoneMarker then sites else Without(sites, names)
    case None => if found == [] then sites else Without(sites, SiteNames(found))
  }

  /** The three cache states are told apart: miss, "calibrated, nothing distrusted", a list. */
  lemma CacheStates(cached: Option<string>)
    ensures CachedDistrust(cached).None? <==> cached.None? || cached.value == ""
    ensures cached == Some(NoneMarker) ==> CachedDistrust(cached) == Some([])
    ensures cached.Some? && cached.value != "" && cached.value != NoneMarker ==>
              forall x :: x in CachedDistrust(cached).value <==> x != "" && x in Split(cached.value, '\n')
  {
  }

  /** The "None" marker leaves the catalog as it was. */
  lemma NoneMarkerKeepsSites(sites: seq<Site>, found: seq<string>)
    ensures Calibrated(sites, Some(NoneMarker), found) == sites
  {
  }

  /** Calibration never changes or reorders a site; it only drops some. */
  lemma CalibratedKeepsOrder(sites: seq<Site>, cached: Option<string>, found: seq<string>)
    ensures SubseqOf(Calibrated(sites, cached, found), sites)
  {
    if Calibrated(sites, cached, found) == sites {
      SubseqRefl(sites);
    }
  }

  lemma {:induction false} SubseqRefl<T>(s: seq<T>)
    ensures SubseqOf(s, s)
    decreases |s|
  {
    if s != [] {
      SubseqRefl(s[1..]);
    }
  }

  /** A cache hit removes exactly the sites named on a non-empty line of the cached text. */
  lemma CachedListRemoves(sites: seq<Site>, content: string, found: seq<string>, s: Site)
    requires content != "" && content != NoneMarker
    ensures s in Calibrated(sites, Some(content), found) <==>
              s in sites && !(s.name != "" && s.name in Split(content, '\n'))
  {
  }

  /** A calibration round removes exactly the sites named by a label it found. */
  lemma ProbedListRemoves(sites: seq<Site>, cached: Option<string>, found: seq<string>, s: Site)
    requires cached.None? || cached.value == ""
    ensures s in Calibrated(sites, cached, found) <==>
              s in sites && forall k :: k in found ==> SiteNameOf(k) != s.name
  {
    if found != [] {
      var names := SiteNames(found);
      if s.name in names {
        var i :| 0 <= i < |names| && names[i] == s.name;
        assert found[i] in found;
      }
      forall k | k in found && SiteNameOf(k) == s.name ensures s.name in names {
        var i :| 0 <= i < |found| && found[i] == k;
        assert names[i] == s.name;
      }
    }
  }

  /** Names written one per line are read back as the same distrust list. */
  lemma DistrustListRoundTrip(names: seq<string>)
    requires |names| >= 1
    requires forall x :: x in names ==> x != "" && '\n' !in x
    requires Join(names, '\n') != NoneMarker
    ensures CachedDistrust(Some(Join(names, '\n'))) == Some(names)
  {
    SplitJoin(names, '\n');
    FilterAll(names, NonEmpty);
    JoinNonEmpty(names, '\n');
  }

  /** Keeping every element that passes keeps the whole list. */
  lemma {:induction false} FilterAll<T(!new)>(s: seq<T>, keep: T -> bool)
    requires forall x :: x in s ==> keep(x)
    ensures Filter(s, keep) == s
    decreases |s|
  {
    if s != [] {
      assert forall x :: x in s[1..] ==> x in s;
      FilterAll(s[1..], keep);
      assert [s[0]] + s[1..] == s;
    }
  }

  /** Joining a list that starts with a non-empty piece gives non-empty text. */
  lemma JoinNonEmpty(parts: seq<string>, sep: char)
    requires |parts| >= 1 && parts[0] != ""
    ensures Join(parts, sep) != ""
  {
    assert parts[0] <= Join(parts, sep);
  }
}
