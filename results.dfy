/** The result map of one probing round (`siteResults`) and the found labels drawn from it. */
module Results {
  import opened Wrappers
  import opened Seqs
  import opened Catalog
  import opened Evaluator

  /** A Python dict from label to outcome: its entries and the order in which keys were first set. */
  datatype Dict = Dict(entries: map<string, bool>, order: seq<string>) {

    /** The order lists every key exactly once. */
    ghost predicate Valid()
    {
      NoDup(order) && forall k :: k in entries <==> k in order
    }

    /** `d[k] = v`: a new key goes to the end, an existing key keeps its place. */
    function Put(k: string, v: bool): (d: Dict)
      requires Valid()
      ensures d.Valid()
      ensures d.entries == entries[k := v]
      ensures k in entries ==> d.order == order
      ensures k !in entries ==> d.order == order + [k]
    {
      Dict(entries[k := v], if k in entries then order else order + [k])
    }
  }

  /** `{}` */
  const Empty: Dict := Dict(map[], [])

  /** Records one probe: nothing for a site that produced no outcome. */
  function Record(d: Dict, o: Option<Outcome>): (r: Dict)
    requires d.Valid()
    ensures r.Valid()
  {
    match o
    case None => d
    case Some(outcome) => d.Put(outcome.key, outcome.found)
  }

  /** `[site for site, found in siteResults.items() if found]` */
  function TrueKeys(d: Dict): (found: seq<string>)
    requires d.Valid()
    ensures NoDup(found)
    ensures forall k :: k in found <==> k in d.entries && d.entries[k]
  {
    FilterNoDup(d.order, (k: string) => k in d.entries && d.entries[k]);
    Filter(d.order, (k: string) => k in d.entries && d.entries[k])
  }

  /** The result map after recording `outs` one after another, starting from `{}`. */
  function Fold(outs: seq<Option<Outcome>>): (d: Dict)
    ensures d.Valid()
    decreases |outs|
  {
    if outs == [] then Empty
    else Record(Fold(outs[..|outs| - 1]), outs[|outs| - 1])
  }

  /** Recording one more outcome extends the fold by one step. */
  lemma FoldSnoc(outs: seq<Option<Outcome>>, o: Option<Outcome>)
    ensures Fold(outs + [o]) == Record(Fold(outs), o)
  {
    assert (outs + [o])[..|outs|] == outs;
  }

  /** The outcome of probing each site for `name`, in catalog order. */
  function Outcomes(name: string, sites: seq<Site>, mustHaveName: bool, fetch: string -> Response): seq<Option<Outcome>>
  {
    seq(|sites|, j requires 0 <= j < |sites| => Probe(sites[j], name, mustHaveName, fetch))
  }

  /** The result map after probing `sites` one after another for `name`. */
  function Round(name: string, sites: seq<Site>, mustHaveName: bool, fetch: string -> Response): Dict
  {
    Fold(Outcomes(name, sites, mustHaveName, fetch))
  }

  /** Outcome `o` writes key `k`. */
  predicate Writes(o: Option<Outcome>, k: string)
  {
    o.Some? && o.value.key == k
  }

  /** A site without a check URL leaves the result map as it was. */
  lemma RoundSkipsUnchecked(name: string, sites: seq<Site>, site: Site, mustHaveName: bool, fetch: string -> Response)
    requires site.checkUri.None?
    ensures Round(name, sites + [site], mustHaveName, fetch) == Round(name, sites, mustHaveName, fetch)
  {
    var outs := Outcomes(name, sites + [site], mustHaveName, fetch);
    assert outs[..|sites|] == Outcomes(name, sites, mustHaveName, fetch);
  }

  /** How one more outcome changes the entry of key `k`. */
  lemma FoldStep(init: seq<Option<Outcome>>, o: Option<Outcome>, k: string)
    ensures Writes(o, k) ==> k in Fold(init + [o]).entries && Fold(init + [o]).entries[k] == o.value.found
    ensures !Writes(o, k) ==> (k in Fold(init + [o]).entries <==> k in Fold(init).entries)
    ensures !Writes(o, k) && k in Fold(init).entries ==> Fold(init + [o]).entries[k] == Fold(init).entries[k]
  {
    FoldSnoc(init, o);
  }

  /** The keys of the map are exactly the labels some outcome wrote. */
  lemma {:induction false} FoldKeys(outs: seq<Option<Outcome>>, k: string)
    ensures k in Fold(outs).entries <==> exists j :: 0 <= j < |outs| && Writes(outs[j], k)
    decreases |outs|
  {
    if outs != [] {
      var last := |outs| - 1;
      var init := outs[..last];
      assert outs == init + [outs[last]];
      FoldKeys(init, k);
      FoldStep(init, outs[last], k);
      forall j | 0 <= j < last ensures outs[j] == init[j] { }
    }
  }

  /** Each key holds the value of the last outcome that wrote it. */
  lemma {:induction false} FoldEntries(outs: seq<Option<Outcome>>, k: string)
    requires k in Fold(outs).entries
    ensures exists j :: 0 <= j < |outs| && outs[j] == Some(Outcome(k, Fold(outs).entries[k])) &&
              forall i :: j < i < |outs| ==> !Writes(outs[i], k)
    decreases |outs|
  {
    var last := |outs| - 1;
    assert outs != [];
    var init := outs[..last];
    assert outs == init + [outs[last]];
    FoldStep(init, outs[last], k);
    if Writes(outs[last], k) {
      assert outs[last] == Some(Outcome(k, Fold(outs).entries[k]));
    } else {
      FoldEntries(init, k);
      var j :| 0 <= j < |init| && init[j] == Some(Outcome(k, Fold(init).entries[k])) &&
               forall i :: j < i < |init| ==> !Writes(init[i], k);
      assert outs[j] == init[j];
      forall i | j < i < |outs| ensures !Writes(outs[i], k) {
        if i < last {
          assert outs[i] == init[i];
        }
      }
    }
  }

  /** Every label a round reports as found belongs to a probed site whose checks all passed. */
  lemma ScanSound(name: string, sites: seq<Site>, mustHaveName: bool, fetch: string -> Response, k: string)
    requires k in TrueKeys(Round(name, sites, mustHaveName, fetch))
    ensures exists j :: 0 <= j < |sites| && sites[j].checkUri.Some? &&
              k == Label(sites[j], Url(sites[j].checkUri.value, name)) &&
              AllChecksPass(sites[j], name, mustHaveName, fetch(Url(sites[j].checkUri.value, name)))
  {
    var outs := Outcomes(name, sites, mustHaveName, fetch);
    FoldKeys(outs, k);
    FoldEntries(outs, k);
    var d := Fold(outs);
    var j :| 0 <= j < |outs| && outs[j] == Some(Outcome(k, d.entries[k])) &&
             forall i :: j < i < |outs| ==> !Writes(outs[i], k);
    assert outs[j] == Probe(sites[j], name, mustHaveName, fetch);
    ProbeLabel(sites[j], name, mustHaveName, fetch);
  }

  /** No two probed sites write the same label. */
  predicate DistinctLabels(name: string, sites: seq<Site>, mustHaveName: bool, fetch: string -> Response)
  {
    var outs := Outcomes(name, sites, mustHaveName, fetch);
    forall i, j :: 0 <= i < j < |outs| && outs[i].Some? ==> !Writes(outs[j], outs[i].value.key)
  }

  /** With distinct labels, a site's label is reported found exactly when its own probe found it. */
  lemma ScanComplete(name: string, sites: seq<Site>, mustHaveName: bool, fetch: string -> Response, j: nat)
    requires DistinctLabels(name, sites, mustHaveName, fetch)
    requires j < |sites| && Probe(sites[j], name, mustHaveName, fetch).Some?
    ensures Probe(sites[j], name, mustHaveName, fetch).value.key in TrueKeys(Round(name, sites, mustHaveName, fetch)) <==>
              Probe(sites[j], name, mustHaveName, fetch).value.found
  {
    var outs := Outcomes(name, sites, mustHaveName, fetch);
    assert outs[j] == Probe(sites[j], name, mustHaveName, fetch);
    var o := outs[j].value;
    var d := Fold(outs);
    FoldKeys(outs, o.key);
    FoldEntries(outs, o.key);
    assert Writes(outs[j], o.key);
    var w :| 0 <= w < |outs| && outs[w] == Some(Outcome(o.key, d.entries[o.key])) &&
             forall i :: w < i < |outs| ==> !Writes(outs[i], o.key);
    assert w == j;
  }
}
