/** `main.go`: the scraper program. It selects the latest successful run of
    the scalability job, handles the links of the artifact listing pages
    (descending into the clusters directory, remembering the cluster name,
    fetching pod-startup artifacts), and publishes every numeric field of
    a pod-startup artifact, decoded as an untyped JSON tree, as a gauge. */
module Scraper {
  import opened Base
  import opened GoStrings
  import opened Util
  import opened Prom

  const JobName := "ci-kubernetes-e2e-azure-scalability"

  /** getLatestBuildId: GetLatestBuildID for the scalability job. */
  method GetLatestBuildId(feed: Fetched<seq<ProwJob>>) returns (r: Result<string>)
    ensures feed.GetFailed? ==> r == Err(HttpError)
    ensures feed.DecodeFailed? ==> r == Err(UnmarshalError)
    ensures feed.Decoded? ==> (r.Ok? <==> exists j :: j in feed.value && Matches(j, JobName))
    ensures feed.Decoded? && r.Err? ==> r.error == NoSuccessfulProwJobs(JobName)
    ensures r.Ok? ==> feed.Decoded? && IsLatest(r.value, feed.value, JobName)
  {
    r := GetLatestBuildID(JobName, feed);
  }

  // ---------------------------------------------------------------------
  // Untyped JSON publishing (addJsonMetricToPrometheus)

  /** A decoded JSON value, as `encoding/json` yields it for `interface{}`;
      every number is a float64. */
  datatype Json =
    | JNull
    | JBool(b: bool)
    | JNum(n: real)
    | JStr(s: string)
    | JArr(elems: seq<Json>)
    | JObj(fields: map<string, Json>)

  /** How one element of `dataItems` fares. `LabelsPanic` is the unchecked
      type assertion on `labels` failing, which panics in Go. */
  datatype ItemCheck =
    | Valid(metric: string, data: map<string, Json>)
    | Invalid(error: Error)
    | LabelsPanic

  /** The checks applied to one element of `dataItems`, in source order. */
  function CheckItem(e: Json): ItemCheck {
    if !e.JObj? then Invalid(InvalidDataItemFormat)
    else if "labels" !in e.fields || !e.fields["labels"].JObj? then LabelsPanic
    else
      var metric := MetricOf(e.fields["labels"].fields);
      if metric == "" then Invalid(MetricNameNotFound)
      else if "data" !in e.fields || !e.fields["data"].JObj? then Invalid(DataNotFound)
      else Valid(metric, e.fields["data"].fields)
  }

  /** An item is accepted exactly when it is an object with an object
      `labels` naming a non-empty metric and an object `data`; which check
      fails first decides the error. */
  lemma CheckItemCases(e: Json)
    ensures !e.JObj? ==> CheckItem(e) == Invalid(InvalidDataItemFormat)
    ensures CheckItem(e).LabelsPanic? <==> e.JObj? && ("labels" !in e.fields || !e.fields["labels"].JObj?)
    ensures CheckItem(e) == Invalid(MetricNameNotFound) <==>
      e.JObj? && "labels" in e.fields && e.fields["labels"].JObj? && MetricOf(e.fields["labels"].fields) == ""
    ensures CheckItem(e) == Invalid(DataNotFound) <==>
      e.JObj? && "labels" in e.fields && e.fields["labels"].JObj? && MetricOf(e.fields["labels"].fields) != "" &&
      ("data" !in e.fields || !e.fields["data"].JObj?)
    ensures CheckItem(e).Valid? <==>
      e.JObj? && "labels" in e.fields && e.fields["labels"].JObj? && MetricOf(e.fields["labels"].fields) != "" &&
      "data" in e.fields && e.fields["data"].JObj?
    ensures CheckItem(e).Valid? ==>
      CheckItem(e).metric == MetricOf(e.fields["labels"].fields) && e.fields["data"] == JObj(CheckItem(e).data)
  {
  }

  /** `labels["Metric"].(string)` in its two-result form: "" unless a string. */
  function MetricOf(labels: map<string, Json>): string {
    if "Metric" in labels && labels["Metric"].JStr? then labels["Metric"].s else ""
  }

  const PercLabelNames: seq<string> := ["perc", "cluster"]

  /** The gauges of the numeric fields of `d` among `keys`, labelled with
      the field name and the cluster. */
  function NumericGauges(d: map<string, Json>, keys: set<string>, cluster: string): map<seq<string>, real> {
    map k | k in keys && k in d && d[k].JNum? :: [k, cluster] := d[k].n
  }

  /** The family a valid data item yields: one gauge per numeric field of
      its `data`, and nothing for the other fields. */
  function JsonFamily(d: map<string, Json>, cluster: string): Family {
    Family(PercLabelNames, NumericGauges(d, d.Keys, cluster))
  }

  /** A valid item's family holds a gauge `(field, cluster)` set to the
      field's value for every numeric field, and no other gauge: one gauge
      per numeric field. */
  lemma JsonFamilyGauges(d: map<string, Json>, cluster: string)
    ensures var f := JsonFamily(d, cluster);
      && f.labelNames == ["perc", "cluster"]
      && WellFormed(f)
      && (forall k :: k in d && d[k].JNum? ==> [k, cluster] in f.values && f.values[[k, cluster]] == d[k].n)
      && (forall t :: t in f.values ==> |t| == 2 && t[1] == cluster && t[0] in d && d[t[0]].JNum?)
      && |f.values| == |NumericKeys(d, d.Keys)|
  {
    NumericGaugesCount(d, d.Keys, cluster);
  }

  /** The numeric fields of `d` among `keys`. */
  function NumericKeys(d: map<string, Json>, keys: set<string>): set<string> {
    set k | k in keys && k in d && d[k].JNum?
  }

  /** One gauge per numeric field: a family holds as many gauges as its
      data item has numeric fields. */
  lemma {:induction false} NumericGaugesCount(d: map<string, Json>, keys: set<string>, cluster: string)
    ensures |NumericGauges(d, keys, cluster)| == |NumericKeys(d, keys)|
    decreases keys
  {
    if keys != {} {
      var k :| k in keys;
      NumericGaugesCount(d, keys - {k}, cluster);
      if k in d && d[k].JNum? {
        NumericFieldCounted(d, keys, k, cluster);
      } else {
        OtherFieldIgnored(d, keys, k, cluster);
      }
    }
  }

  /** Adding a numeric field adds one gauge and one numeric key. */
  lemma NumericFieldCounted(d: map<string, Json>, keys: set<string>, k: string, cluster: string)
    requires k in keys && k in d && d[k].JNum?
    ensures |NumericGauges(d, keys, cluster)| == |NumericGauges(d, keys - {k}, cluster)| + 1
    ensures |NumericKeys(d, keys)| == |NumericKeys(d, keys - {k})| + 1
  {
    var rest := keys - {k};
    assert keys == rest + {k};
    NumericGaugesStep(d, rest, k, cluster);
    assert [k, cluster] !in NumericGauges(d, rest, cluster);
    assert NumericKeys(d, keys) == NumericKeys(d, rest) + {k};
  }

  /** Adding any other key changes neither the gauges nor the numeric keys. */
  lemma OtherFieldIgnored(d: map<string, Json>, keys: set<string>, k: string, cluster: string)
    requires k in keys && !(k in d && d[k].JNum?)
    ensures NumericGauges(d, keys, cluster) == NumericGauges(d, keys - {k}, cluster)
    ensures NumericKeys(d, keys) == NumericKeys(d, keys - {k})
  {
  }

  datatype Outcome = Done | Failed(error: Error) | Panicked

  /** The outcome of publishing and the registry it leaves behind. */
  datatype Publication = Publication(outcome: Outcome, families: map<FamilyKey, Family>)

  /** The publish loop over `dataItems`, item by item: an invalid item
      stops it with that item's error, a family key already registered
      panics (MustRegister), a valid item registers its family. */
  function PublishItems(families: map<FamilyKey, Family>, name: string, items: seq<Json>, cluster: string): Publication
    decreases |items|
  {
    if items == [] then Publication(Done, families)
    else match CheckItem(items[0])
      case Invalid(e) => Publication(Failed(e), families)
      case LabelsPanic => Publication(Panicked, families)
      case Valid(metric, d) =>
        var key := FamilyKey(Namespace, name, metric);
        if key in families then Publication(Panicked, families)
        else PublishItems(families[key := JsonFamily(d, cluster)], name, items[1..], cluster)
  }

  /** addJsonMetricToPrometheus once the document is decoded: a missing or
      non-array `dataItems` fails before anything is registered. */
  function PublishJson(families: map<FamilyKey, Family>, name: string, data: map<string, Json>, cluster: string): (p: Publication)
    ensures ("dataItems" !in data || !data["dataItems"].JArr?) ==> p == Publication(Failed(DataItemsNotFound), families)
  {
    if "dataItems" !in data || !data["dataItems"].JArr? then Publication(Failed(DataItemsNotFound), families)
    else PublishItems(families, name, data["dataItems"].elems, cluster)
  }

  /** One step of the publish loop when it does not panic: the first item's
      `labels` passes the type assertion, an invalid one fails with
      its error, and a valid one registers a new family and publishing
      goes on with the rest. */
  lemma PublishItemsStep(families: map<FamilyKey, Family>, name: string, items: seq<Json>, cluster: string)
    requires items != []
    requires PublishItems(families, name, items, cluster).outcome != Panicked
    ensures !CheckItem(items[0]).LabelsPanic?
    ensures CheckItem(items[0]).Invalid? ==>
      PublishItems(families, name, items, cluster) == Publication(Failed(CheckItem(items[0]).error), families)
    ensures CheckItem(items[0]).Valid? ==>
      var key := FamilyKey(Namespace, name, CheckItem(items[0]).metric);
      && key !in families
      && PublishItems(families, name, items, cluster) ==
         PublishItems(families[key := JsonFamily(CheckItem(items[0]).data, cluster)], name, items[1..], cluster)
  {
  }

  /** Publishing never removes or changes a family that was registered. */
  lemma {:induction false} PublishKeepsFamilies(families: map<FamilyKey, Family>, name: string, items: seq<Json>, cluster: string)
    ensures var p := PublishItems(families, name, items, cluster);
      forall k :: k in families ==> k in p.families && p.families[k] == families[k]
    decreases |items|
  {
    if items != [] && CheckItem(items[0]).Valid? {
      var c := CheckItem(items[0]);
      var key := FamilyKey(Namespace, name, c.metric);
      if key !in families {
        PublishKeepsFamilies(families[key := JsonFamily(c.data, cluster)], name, items[1..], cluster);
      }
    }
  }

  /** Every family publishing adds comes from a valid data item, named by
      its metric and holding the gauges of its numeric fields. */
  lemma {:induction false} PublishAddsItemFamilies(families: map<FamilyKey, Family>, name: string, items: seq<Json>, cluster: string)
    ensures var p := PublishItems(families, name, items, cluster);
      forall k :: k in p.families && k !in families ==>
        exists i :: (0 <= i < |items| && CheckItem(items[i]).Valid? &&
          k == FamilyKey(Namespace, name, CheckItem(items[i]).metric) &&
          p.families[k] == JsonFamily(CheckItem(items[i]).data, cluster))
    decreases |items|
  {
    var p := PublishItems(families, name, items, cluster);
    if items != [] && CheckItem(items[0]).Valid? {
      var c := CheckItem(items[0]);
      var key := FamilyKey(Namespace, name, c.metric);
      if key !in families {
        var next := families[key := JsonFamily(c.data, cluster)];
        PublishAddsItemFamilies(next, name, items[1..], cluster);
        PublishKeepsFamilies(next, name, items[1..], cluster);
        assert p == PublishItems(next, name, items[1..], cluster);
        forall k | k in p.families && k !in families
          ensures exists i :: (0 <= i < |items| && CheckItem(items[i]).Valid? &&
            k == FamilyKey(Namespace, name, CheckItem(items[i]).metric) &&
            p.families[k] == JsonFamily(CheckItem(items[i]).data, cluster))
        {
          if k == key {
            assert key in next;
            assert p.families[k] == JsonFamily(CheckItem(items[0]).data, cluster);
          } else {
            var i :| 0 <= i < |items[1..]| && CheckItem(items[1..][i]).Valid? &&
              k == FamilyKey(Namespace, name, CheckItem(items[1..][i]).metric) &&
              p.families[k] == JsonFamily(CheckItem(items[1..][i]).data, cluster);
            assert items[1..][i] == items[i + 1];
          }
        }
      }
    }
  }

  /** When every item is published, one family per item was added. */
  lemma {:induction false} PublishDoneCount(families: map<FamilyKey, Family>, name: string, items: seq<Json>, cluster: string)
    requires PublishItems(families, name, items, cluster).outcome == Done
    ensures |PublishItems(families, name, items, cluster).families| == |families| + |items|
    ensures forall i :: 0 <= i < |items| ==> CheckItem(items[i]).Valid?
    decreases |items|
  {
    if items != [] {
      var c := CheckItem(items[0]);
      var key := FamilyKey(Namespace, name, c.metric);
      PublishDoneCount(families[key := JsonFamily(c.data, cluster)], name, items[1..], cluster);
      forall i | 0 <= i < |items| ensures CheckItem(items[i]).Valid? {
        if i > 0 { assert items[i] == items[1..][i - 1]; }
      }
    }
  }

  /** Items are published in order: publishing a list is publishing a
      prefix of it and then the rest from where the prefix left off. */
  lemma {:induction false} PublishInOrder(families: map<FamilyKey, Family>, name: string, items: seq<Json>, cluster: string, k: nat)
    requires k <= |items|
    requires PublishItems(families, name, items[..k], cluster).outcome == Done
    ensures PublishItems(families, name, items, cluster) ==
      PublishItems(PublishItems(families, name, items[..k], cluster).families, name, items[k..], cluster)
    decreases k
  {
    if k == 0 {
      assert items[k..] == items;
    } else {
      assert items[..k][0] == items[0];
      var c := CheckItem(items[0]);
      var key := FamilyKey(Namespace, name, c.metric);
      assert items[..k][1..] == items[1..][..k - 1];
      PublishInOrder(families[key := JsonFamily(c.data, cluster)], name, items[1..], cluster, k - 1);
      assert items[1..][k - 1..] == items[k..];
    }
  }

  /** A failure is the error of the first invalid item; the families of the
      items before it stay registered and no later item is looked at. */
  lemma {:induction false} PublishStopsAtFirstError(families: map<FamilyKey, Family>, name: string, items: seq<Json>, cluster: string)
    requires PublishItems(families, name, items, cluster).outcome.Failed?
    ensures var p := PublishItems(families, name, items, cluster);
      exists k :: 0 <= k < |items| && CheckItem(items[k]) == Invalid(p.outcome.error) &&
        PublishItems(families, name, items[..k], cluster) == Publication(Done, p.families)
    decreases |items|
  {
    var p := PublishItems(families, name, items, cluster);
    var c := CheckItem(items[0]);
    if c.Invalid? {
      assert items[..0] == [];
    } else {
      var key := FamilyKey(Namespace, name, c.metric);
      var next := families[key := JsonFamily(c.data, cluster)];
      PublishStopsAtFirstError(next, name, items[1..], cluster);
      var k :| 0 <= k < |items[1..]| && CheckItem(items[1..][k]) == Invalid(p.outcome.error) &&
        PublishItems(next, name, items[1..][..k], cluster) == Publication(Done, p.families);
      assert items[1..][k] == items[k + 1];
      assert items[..k + 1][0] == items[0];
      assert items[..k + 1][1..] == items[1..][..k];
    }
  }

  /** The publish loop as written is not idempotent: publishing the same
      non-empty list again registers the same family twice and panics. */
  lemma RepublishPanics(families: map<FamilyKey, Family>, name: string, items: seq<Json>, cluster: string)
    requires items != []
    requires PublishItems(families, name, items, cluster).outcome == Done
    ensures var p := PublishItems(families, name, items, cluster);
      PublishItems(p.families, name, items, cluster).outcome == Panicked
  {
    var p := PublishItems(families, name, items, cluster);
    var c := CheckItem(items[0]);
    var key := FamilyKey(Namespace, name, c.metric);
    PublishKeepsFamilies(families[key := JsonFamily(c.data, cluster)], name, items[1..], cluster);
  }

  // ---------------------------------------------------------------------
  // The link handler (the OnHTML callback)

  const GcsWeb := "https://gcsweb.k8s.io"
  const ClustersDir := "artifacts/clusters/"
  const ClusterPrefix := "capz-"
  const ArtifactMarker := "PodStartupLatency"

  /** What handling one link asks of the collector and of the publisher. */
  datatype Action =
    | Visit(url: string)
    | FetchArtifact(url: string, fileName: string)

  datatype LinkEffect = LinkEffect(clusterName: string, actions: seq<Action>)

  /** One href: visit the clusters directory, adopt a cluster name, fetch a
      pod-startup artifact; each independently, in that order. */
  function OnLinkStep(cluster: string, link: string): LinkEffect {
    var visit := if HasSuffix(link, ClustersDir) then [Visit(GcsWeb + link)] else [];
    var base := PathBase(link);
    var cluster' := if Contains(link, ClustersDir) && HasPrefix(base, ClusterPrefix) then base else cluster;
    var fetch := if Contains(link, ArtifactMarker) then [FetchArtifact(link, FileNameFromURL(link))] else [];
    LinkEffect(cluster', visit + fetch)
  }

  /** A link is visited exactly when it ends in the clusters directory; it
      is fetched, under its own file name, exactly when it names a
      pod-startup artifact; a visit comes before a fetch. */
  lemma OnLinkStepActions(cluster: string, link: string)
    ensures var r := OnLinkStep(cluster, link);
      && (Visit(GcsWeb + link) in r.actions <==> HasSuffix(link, ClustersDir))
      && (forall a :: a in r.actions && a.Visit? ==> a == Visit(GcsWeb + link))
      && (FetchArtifact(link, FileNameFromURL(link)) in r.actions <==> Contains(link, ArtifactMarker))
      && (forall a :: a in r.actions && a.FetchArtifact? ==> a == FetchArtifact(link, FileNameFromURL(link)))
      && |r.actions| <= 2 && (|r.actions| == 2 ==> r.actions[0].Visit? && r.actions[1].FetchArtifact?)
  {
    var v := Visit(GcsWeb + link);
    var f := FetchArtifact(link, FileNameFromURL(link));
    var r := OnLinkStep(cluster, link);
    var visits, fetches := HasSuffix(link, ClustersDir), Contains(link, ArtifactMarker);
    if visits && fetches {
      assert r.actions == [v, f];
    } else if visits {
      assert r.actions == [v];
    } else if fetches {
      assert r.actions == [f];
    } else {
      assert r.actions == [];
    }
  }

  /** The cluster name changes only to the base name of a link into the
      clusters directory that starts with the cluster prefix, and always
      does for such a link. */
  lemma OnLinkStepCluster(cluster: string, link: string)
    ensures var r := OnLinkStep(cluster, link);
      && (r.clusterName != cluster ==>
            Contains(link, ClustersDir) && HasPrefix(r.clusterName, ClusterPrefix) && r.clusterName == PathBase(link))
      && (Contains(link, ClustersDir) && HasPrefix(PathBase(link), ClusterPrefix) ==> r.clusterName == PathBase(link))
      && (!(Contains(link, ClustersDir) && HasPrefix(PathBase(link), ClusterPrefix)) ==> r.clusterName == cluster)
  {
  }

  /** The clusters directory itself is not a cluster: following its link
      leaves the cluster name as it was. So the nested visit, which the
      collector runs before the rest of the handler, cannot be overtaken by
      a cluster-name change of the same link. */
  lemma ClustersDirLinkKeepsCluster(cluster: string, link: string)
    requires HasSuffix(link, ClustersDir)
    ensures OnLinkStep(cluster, link).clusterName == cluster
  {
    ClustersDirBase(link);
    assert !HasPrefix(PathBase(link), ClusterPrefix) by {
      assert "clusters"[1] != ClusterPrefix[1];
    }
  }

  /** The base name of the clusters directory's link is `clusters`. */
  lemma ClustersDirBase(link: string)
    requires HasSuffix(link, ClustersDir)
    ensures PathBase(link) == "clusters"
  {
    var dir := link[..|link| - |ClustersDir|];
    assert link == (dir + "artifacts") + "/" + "clusters" + "/";
    PathBaseOfDirectory(dir + "artifacts", "clusters");
  }

  /** The listing entry of a cluster's directory sets the cluster name to
      that directory's name, and is not visited. */
  lemma ClusterDirectoryLink(dir: string, name: string, cluster: string)
    requires HasPrefix(name, ClusterPrefix) && '/' !in name
    ensures var r := OnLinkStep(cluster, dir + ClustersDir + name + "/");
      r.clusterName == name && (forall a :: a in r.actions ==> !a.Visit?)
  {
    var link := dir + ClustersDir + name + "/";
    assert link == (dir + "artifacts/clusters") + "/" + name + "/";
    PathBaseOfDirectory(dir + "artifacts/clusters", name);
    ContainsInfix(dir, ClustersDir, name + "/");
    assert link == dir + ClustersDir + (name + "/");
    EntryNotClustersDir(dir + ClustersDir, name);
    OnLinkStepActions(cluster, link);
  }

  /** The entry of a cluster's directory does not end in the clusters
      directory itself: the last nineteen characters differ somewhere. */
  lemma EntryNotClustersDir(p: string, name: string)
    requires HasPrefix(name, ClusterPrefix) && '/' !in name
    ensures !HasSuffix(p + name + "/", ClustersDir)
  {
    var link := p + name + "/";
    var n := |ClustersDir|;
    if n <= |link| {
      var t := link[|link| - n..];
      if |name| >= 9 {
        assert t[9] == name[|name| - 9];
        assert name[|name| - 9] in name;
        assert t[9] != ClustersDir[9];
      } else {
        var j := n - 1 - |name|;
        assert t[j] == name[0] == 'c';
        assert t[j + 1] == name[1] == 'a';
        assert t[j] != ClustersDir[j] || t[j + 1] != ClustersDir[j + 1];
      }
    }
  }

  /** A pod-startup artifact's entry is fetched under its own file name. */
  lemma ArtifactLink(dir: string, file: string, cluster: string)
    requires '/' !in file && Contains(file, ArtifactMarker)
    ensures FetchArtifact(dir + "/" + file, file) in OnLinkStep(cluster, dir + "/" + file).actions
  {
    FileNameOf(dir, file);
    ContainsSuffix(dir + "/", file);
    OnLinkStepActions(cluster, dir + "/" + file);
  }

  lemma {:induction false} ContainsSuffix(a: string, b: string)
    ensures forall sub :: Contains(b, sub) ==> Contains(a + b, sub)
    decreases |a|
  {
    if |a| > 0 {
      ContainsSuffix(a[1..], b);
      assert (a + b)[1..] == a[1..] + b;
    } else {
      assert a + b == b;
    }
  }

  /** The state `main.go` keeps between callbacks: the cluster name and the
      default Prometheus registry. */
  class Crawler {
    var clusterName: string
    const registry: Registry

    constructor (registry: Registry)
      ensures this.registry == registry && clusterName == ""
    {
      this.registry := registry;
      clusterName := "";
    }

    /** addJsonMetricToPrometheus on a decoded document. A file name with
        fewer than two `_`-pieces, and a publication that would panic, are
        excluded. */
    method AddJsonMetricToPrometheus(data: map<string, Json>, fileName: string) returns (err: Option<Error>)
      requires registry.Valid()
      requires |Split(fileName, '_')| >= 2
      requires PublishJson(registry.families, SubsystemName(fileName), data, clusterName).outcome != Panicked
      modifies registry
      ensures registry.Valid()
      ensures var p := PublishJson(old(registry.families), SubsystemName(fileName), data, clusterName);
        registry.families == p.families && err == (if p.outcome.Failed? then Some(p.outcome.error) else None)
    {
      var fileNameParts := Split(fileName, '_');
      var name := Join(fileNameParts[..|fileNameParts| - 2], '_');
      if "dataItems" !in data || !data["dataItems"].JArr? {
        return Some(DataItemsNotFound);
      }
      err := PublishDataItems(name, data["dataItems"].elems);
    }

    /** The loop of addJsonMetricToPrometheus over `dataItems`: it stops at
        the first invalid item with its error. */
    method PublishDataItems(name: string, dataItems: seq<Json>) returns (err: Option<Error>)
      requires registry.Valid()
      requires PublishItems(registry.families, name, dataItems, clusterName).outcome != Panicked
      modifies registry
      ensures registry.Valid()
      ensures var p := PublishItems(old(registry.families), name, dataItems, clusterName);
        registry.families == p.families && err == (if p.outcome.Failed? then Some(p.outcome.error) else None)
    {
      ghost var p := PublishItems(registry.families, name, dataItems, clusterName);
      var i := 0;
      while i < |dataItems|
        invariant 0 <= i <= |dataItems|
        invariant registry.Valid()
        invariant PublishItems(registry.families, name, dataItems[i..], clusterName) == p
      {
        assert dataItems[i..][1..] == dataItems[i + 1..];
        err := PublishFirst(name, dataItems[i..]);
        if err.Some? {
          return;
        }
        i := i + 1;
      }
      assert dataItems[i..] == [];
      return None;
    }

    /** One turn of the loop over `dataItems`: publish the first remaining
        element. An error ends the reference publication of the rest with
        that error; otherwise the rest is published from the new registry. */
    method PublishFirst(name: string, rest: seq<Json>) returns (err: Option<Error>)
      requires registry.Valid()
      requires rest != []
      requires PublishItems(registry.families, name, rest, clusterName).outcome != Panicked
      modifies registry
      ensures registry.Valid()
      ensures var p := PublishItems(old(registry.families), name, rest, clusterName);
        err.Some? ==> p.outcome == Failed(err.value) && registry.families == p.families
      ensures err.None? ==>
        PublishItems(registry.families, name, rest[1..], clusterName) ==
        PublishItems(old(registry.families), name, rest, clusterName)
    {
      PublishItemsStep(registry.families, name, rest, clusterName);
      err := PublishItem(name, rest[0]);
    }

    /** The body of the loop over `dataItems` for one element: the checks in
        source order, then registering its family and setting its gauges. */
    method PublishItem(name: string, e: Json) returns (err: Option<Error>)
      requires registry.Valid()
      requires !CheckItem(e).LabelsPanic?
      requires CheckItem(e).Valid? ==> FamilyKey(Namespace, name, CheckItem(e).metric) !in registry.families
      modifies registry
      ensures registry.Valid()
      ensures CheckItem(e).Invalid? ==> err == Some(CheckItem(e).error) && registry.families == old(registry.families)
      ensures CheckItem(e).Valid? ==> (err == None &&
        registry.families == old(registry.families)[FamilyKey(Namespace, name, CheckItem(e).metric) :=
          JsonFamily(CheckItem(e).data, clusterName)])
    {
      CheckItemCases(e);
      if !e.JObj? {
        return Some(InvalidDataItemFormat);
      }
      var metricName := MetricOf(e.fields["labels"].fields);
      if metricName == "" {
        return Some(MetricNameNotFound);
      }
      if "data" !in e.fields || !e.fields["data"].JObj? {
        return Some(DataNotFound);
      }
      var dataItem := e.fields["data"].fields;
      var key := FamilyKey(Namespace, name, metricName);
      ghost var before := registry.families;
      registry.MustRegister(key, ["perc", "cluster"]);
      SetNumericFields(key, dataItem, before);
      return None;
    }

    /** The `range dataItem` loop: set the gauge of every numeric field, in
        whatever order the map yields them. */
    method SetNumericFields(key: FamilyKey, d: map<string, Json>, ghost base: map<FamilyKey, Family>)
      requires registry.Valid()
      requires registry.families == base[key := Family(PercLabelNames, map[])]
      modifies registry
      ensures registry.Valid()
      ensures registry.families == base[key := JsonFamily(d, clusterName)]
    {
      var pending := d.Keys;
      ghost var done: set<string> := {};
      ghost var gauges: map<seq<string>, real> := map[];
      while pending != {}
        invariant pending + done == d.Keys && pending !! done
        invariant registry.Valid()
        invariant registry.families == base[key := Family(PercLabelNames, gauges)]
        invariant gauges == NumericGauges(d, done, clusterName)
        decreases pending
      {
        var k :| k in pending;
        NumericGaugesStep(d, done, k, clusterName);
        SetField(key, k, d[k], base, gauges);
        if d[k].JNum? {
          gauges := gauges[[k, clusterName] := d[k].n];
        }
        pending := pending - {k};
        done := done + {k};
      }
      assert done == d.Keys;
    }

    /** One iteration of the `range dataItem` loop: a numeric field sets
        its gauge, any other field is skipped. */
    method SetField(key: FamilyKey, k: string, v: Json,
                    ghost base: map<FamilyKey, Family>, ghost gauges: map<seq<string>, real>)
      requires registry.Valid()
      requires registry.families == base[key := Family(PercLabelNames, gauges)]
      modifies registry
      ensures registry.Valid()
      ensures registry.families ==
        base[key := Family(PercLabelNames, if v.JNum? then gauges[[k, clusterName] := v.n] else gauges)]
    {
      if v.JNum? {
        registry.Set(key, [k, clusterName], v.n);
      }
    }

    /** The OnHTML callback for one href, with the outcome of fetching and
        decoding the artifact it may name. It returns the URLs handed to the
        collector to visit and the error the callback logs, if any. A decode
        failure, which panics in Go, is excluded, as is a publication that
        would panic. */
    method OnHTML(link: string, artifact: Fetched<map<string, Json>>) returns (visits: seq<string>, err: Option<Error>)
      requires registry.Valid()
      requires Contains(link, ArtifactMarker) && !artifact.GetFailed? ==>
        && artifact.Decoded?
        && |Split(FileNameFromURL(link), '_')| >= 2
        && PublishJson(registry.families, SubsystemName(FileNameFromURL(link)), artifact.value,
             OnLinkStep(clusterName, link).clusterName).outcome != Panicked
      modifies this, registry
      ensures registry.Valid()
      ensures clusterName == OnLinkStep(old(clusterName), link).clusterName
      ensures visits == (if HasSuffix(link, ClustersDir) then [GcsWeb + link] else [])
      ensures !Contains(link, ArtifactMarker) ==> err == None && registry.families == old(registry.families)
      ensures Contains(link, ArtifactMarker) && artifact.GetFailed? ==>
        err == Some(HttpError) && registry.families == old(registry.families)
      ensures Contains(link, ArtifactMarker) && artifact.Decoded? ==>
        var p := PublishJson(old(registry.families), SubsystemName(FileNameFromURL(link)), artifact.value, clusterName);
        registry.families == p.families && err == (if p.outcome.Failed? then Some(p.outcome.error) else None)
    {
      visits := [];
      err := None;
      if HasSuffix(link, ClustersDir) {
        visits := [GcsWeb + link];
      }
      if Contains(link, ClustersDir) {
        var base := PathBase(link);
        if HasPrefix(base, ClusterPrefix) {
          clusterName := base;
        }
      }
      if Contains(link, ArtifactMarker) {
        var fileName := FileNameFromURL(link);
        if artifact.GetFailed? {
          return visits, Some(HttpError);
        }
        err := AddJsonMetricToPrometheus(artifact.value, fileName);
      }
    }
  }

  lemma NumericGaugesStep(d: map<string, Json>, done: set<string>, k: string, cluster: string)
    requires k in d && k !in done
    ensures d[k].JNum? ==> NumericGauges(d, done + {k}, cluster) == NumericGauges(d, done, cluster)[[k, cluster] := d[k].n]
    ensures !d[k].JNum? ==> NumericGauges(d, done + {k}, cluster) == NumericGauges(d, done, cluster)
  {
    var before := NumericGauges(d, done, cluster);
    var after := NumericGauges(d, done + {k}, cluster);
    if d[k].JNum? {
      assert after.Keys == before.Keys + {[k, cluster]};
    } else {
      assert after.Keys == before.Keys;
    }
  }
}
