/** `internal/pod_startup_latency.go`: publishes a decoded pod-startup
    latency artifact as one gauge family per data item, each holding the
    50th, 90th and 99th percentile under the cluster and build labels. */
module PodStartup {
  import opened Base
  import opened GoStrings
  import opened Util
  import opened Prom

  /** The percentile fields of a data item; absent fields decode as 0. */
  datatype Data = Data(perc50: real, perc90: real, perc99: real)
  datatype Labels = Labels(metric: string)
  datatype DataItem = DataItem(data: Data, unit: string, labels: Labels)
  datatype PodStartupLatency = PodStartupLatency(version: string, dataItems: seq<DataItem>)

  const LabelNames: seq<string> := ["perc", "cluster", "buildID"]

  /** The family a data item is registered under. */
  function ItemKey(name: string, item: DataItem): FamilyKey {
    FamilyKey(Namespace, name, item.labels.metric)
  }

  /** The family a data item yields: three gauges, one per percentile. */
  function ItemFamily(item: DataItem, cluster: string, buildID: string): Family {
    Family(LabelNames, map[
      ["Perc50", cluster, buildID] := item.data.perc50,
      ["Perc90", cluster, buildID] := item.data.perc90,
      ["Perc99", cluster, buildID] := item.data.perc99])
  }

  /** A data item's family has exactly the three percentile tuples, each
      carrying the cluster and build labels and set to its field. */
  lemma ItemFamilyTuples(item: DataItem, cluster: string, buildID: string)
    ensures var f := ItemFamily(item, cluster, buildID);
      && f.labelNames == ["perc", "cluster", "buildID"]
      && WellFormed(f)
      && |f.values| == 3
      && f.values.Keys == {["Perc50", cluster, buildID], ["Perc90", cluster, buildID], ["Perc99", cluster, buildID]}
      && f.values[["Perc50", cluster, buildID]] == item.data.perc50
      && f.values[["Perc90", cluster, buildID]] == item.data.perc90
      && f.values[["Perc99", cluster, buildID]] == item.data.perc99
  {
    var t50: seq<string> := ["Perc50", cluster, buildID];
    var t90: seq<string> := ["Perc90", cluster, buildID];
    var t99: seq<string> := ["Perc99", cluster, buildID];
    assert t50[0] != t90[0] && t50[0] != t99[0] && t90[0] != t99[0];
    assert |{t50, t90}| == 2;
    assert |{t50, t90} + {t99}| == 3;
    assert {t50, t90, t99} == {t50, t90} + {t99};
  }

  /** The families registered for the first |items| data items, in order. */
  function ItemFamilies(name: string, items: seq<DataItem>, cluster: string, buildID: string): map<FamilyKey, Family>
    decreases |items|
  {
    if items == [] then map[]
    else
      var last := items[|items| - 1];
      ItemFamilies(name, items[..|items| - 1], cluster, buildID)[ItemKey(name, last) := ItemFamily(last, cluster, buildID)]
  }

  /** MustRegister does not panic for any item: every family key is new to
      the registry and no two items name the same metric. */
  ghost predicate Registrable(families: map<FamilyKey, Family>, name: string, items: seq<DataItem>) {
    && (forall i :: 0 <= i < |items| ==> ItemKey(name, items[i]) !in families)
    && (forall i, j :: 0 <= i < j < |items| ==> items[i].labels.metric != items[j].labels.metric)
  }

  /** The families registered are exactly those of the items. */
  lemma {:induction false} ItemFamiliesKeys(name: string, items: seq<DataItem>, cluster: string, buildID: string)
    ensures forall k :: k in ItemFamilies(name, items, cluster, buildID) <==>
      exists i :: 0 <= i < |items| && k == ItemKey(name, items[i])
    decreases |items|
  {
    if items != [] {
      var init := items[..|items| - 1];
      ItemFamiliesKeys(name, init, cluster, buildID);
      forall k ensures k in ItemFamilies(name, items, cluster, buildID) <==>
        exists i :: 0 <= i < |items| && k == ItemKey(name, items[i])
      {
        if k in ItemFamilies(name, init, cluster, buildID) {
          var i :| 0 <= i < |init| && k == ItemKey(name, init[i]);
          assert items[i] == init[i];
        } else if exists i :: 0 <= i < |items| && k == ItemKey(name, items[i]) {
          var i :| 0 <= i < |items| && k == ItemKey(name, items[i]);
          if i < |init| { assert init[i] == items[i]; }
        }
      }
    }
  }

  /** With distinct metrics, each item's family is the one it yields. */
  lemma {:induction false} ItemFamiliesAt(name: string, items: seq<DataItem>, cluster: string, buildID: string, i: nat)
    requires Registrable(map[], name, items)
    requires i < |items|
    ensures ItemKey(name, items[i]) in ItemFamilies(name, items, cluster, buildID)
    ensures ItemFamilies(name, items, cluster, buildID)[ItemKey(name, items[i])] == ItemFamily(items[i], cluster, buildID)
    decreases |items|
  {
    var init := items[..|items| - 1];
    if i < |items| - 1 {
      assert Registrable(map[], name, init) by {
        forall p, q | 0 <= p < q < |init| ensures init[p].labels.metric != init[q].labels.metric {
          assert init[p] == items[p] && init[q] == items[q];
        }
      }
      ItemFamiliesAt(name, init, cluster, buildID, i);
      assert init[i] == items[i];
      assert ItemKey(name, items[i]) != ItemKey(name, items[|items| - 1]);
    }
  }

  /** With distinct metrics, one family per item is registered. */
  lemma {:induction false} ItemFamiliesCount(name: string, items: seq<DataItem>, cluster: string, buildID: string)
    requires Registrable(map[], name, items)
    ensures |ItemFamilies(name, items, cluster, buildID)| == |items|
    decreases |items|
  {
    if items != [] {
      var init := items[..|items| - 1];
      var last := items[|items| - 1];
      assert Registrable(map[], name, init) by {
        forall p, q | 0 <= p < q < |init| ensures init[p].labels.metric != init[q].labels.metric {
          assert init[p] == items[p] && init[q] == items[q];
        }
      }
      ItemFamiliesCount(name, init, cluster, buildID);
      ItemFamiliesKeys(name, init, cluster, buildID);
      forall i | 0 <= i < |init| ensures ItemKey(name, last) != ItemKey(name, init[i]) {
        assert init[i] == items[i];
      }
    }
  }

  /** Registering the items of a file into a registry where none of their
      families exists adds exactly one family per item and keeps every
      family that was there. */
  lemma RegisterGrowth(families: map<FamilyKey, Family>, name: string, items: seq<DataItem>, cluster: string, buildID: string)
    requires Registrable(families, name, items)
    ensures var after := families + ItemFamilies(name, items, cluster, buildID);
      && |after| == |families| + |items|
      && (forall k :: k in families ==> k in after && after[k] == families[k])
  {
    var added := ItemFamilies(name, items, cluster, buildID);
    assert Registrable(map[], name, items);
    ItemFamiliesCount(name, items, cluster, buildID);
    ItemFamiliesKeys(name, items, cluster, buildID);
    assert families.Keys !! added.Keys;
    assert (families + added).Keys == families.Keys + added.Keys;
    assert |families.Keys + added.Keys| == |families.Keys| + |added.Keys|;
  }

  /** The next item's family is not yet registered. */
  lemma NextKeyFresh(families: map<FamilyKey, Family>, name: string, items: seq<DataItem>, cluster: string, buildID: string, i: nat)
    requires Registrable(families, name, items)
    requires i < |items|
    ensures ItemKey(name, items[i]) !in families + ItemFamilies(name, items[..i], cluster, buildID)
  {
    ItemFamiliesKeys(name, items[..i], cluster, buildID);
    forall p | 0 <= p < i ensures ItemKey(name, items[i]) != ItemKey(name, items[..i][p]) {
      assert items[..i][p] == items[p];
    }
  }

  /** Registering one more item adds its family. */
  lemma ItemFamiliesStep(families: map<FamilyKey, Family>, name: string, items: seq<DataItem>, cluster: string, buildID: string, i: nat)
    requires i < |items|
    ensures families + ItemFamilies(name, items[..i + 1], cluster, buildID)
      == (families + ItemFamilies(name, items[..i], cluster, buildID))[ItemKey(name, items[i]) := ItemFamily(items[i], cluster, buildID)]
  {
    assert items[..i + 1][..i] == items[..i];
  }

  /** The body of the registration loop for one data item: register its
      family, then set its three percentile gauges. */
  method RegisterItem(reg: Registry, name: string, item: DataItem, clusterName: string, buildID: string)
    requires reg.Valid()
    requires ItemKey(name, item) !in reg.families
    modifies reg
    ensures reg.Valid()
    ensures reg.families == old(reg.families)[ItemKey(name, item) := ItemFamily(item, clusterName, buildID)]
  {
    var key := FamilyKey(Namespace, name, item.labels.metric);
    ghost var base := reg.families;
    ghost var t50: seq<string>, t90: seq<string> := ["Perc50", clusterName, buildID], ["Perc90", clusterName, buildID];
    reg.MustRegister(key, ["perc", "cluster", "buildID"]);
    reg.Set(key, ["Perc50", clusterName, buildID], item.data.perc50);
    UpdateTwice(base, key, Family(LabelNames, map[]), Family(LabelNames, map[t50 := item.data.perc50]));
    reg.Set(key, ["Perc90", clusterName, buildID], item.data.perc90);
    UpdateTwice(base, key, Family(LabelNames, map[t50 := item.data.perc50]),
      Family(LabelNames, map[t50 := item.data.perc50, t90 := item.data.perc90]));
    reg.Set(key, ["Perc99", clusterName, buildID], item.data.perc99);
    UpdateTwice(base, key, Family(LabelNames, map[t50 := item.data.perc50, t90 := item.data.perc90]),
      ItemFamily(item, clusterName, buildID));
  }

  /** RegisterPodStartupMetricsToProm on an artifact whose fetch and decode
      outcome is given. The subsystem comes from the artifact's file name,
      the build label from its URL. */
  method RegisterPodStartupMetricsToProm(reg: Registry, link: string, clusterName: string, body: Fetched<PodStartupLatency>)
    returns (err: Option<Error>)
    requires reg.Valid()
    requires !body.GetFailed? ==> |Split(FileNameFromURL(link), '_')| >= 2
    requires body.Decoded? ==> Registrable(reg.families, SubsystemName(FileNameFromURL(link)), body.value.dataItems)
    modifies reg
    ensures reg.Valid()
    ensures body.GetFailed? ==> err == Some(HttpError) && reg.families == old(reg.families)
    ensures body.DecodeFailed? ==> err == Some(UnmarshalError) && reg.families == old(reg.families)
    ensures body.Decoded? ==> (err == None &&
      reg.families == old(reg.families) + ItemFamilies(SubsystemName(FileNameFromURL(link)),
        body.value.dataItems, clusterName, ParseBuildIDFromURL(link)))
  {
    var buildID := ParseBuildIDFromURL(link);
    var fileName := FileNameFromURL(link);
    if body.GetFailed? { return Some(HttpError); }
    var name := SubsystemName(fileName);
    if body.DecodeFailed? { return Some(UnmarshalError); }
    RegisterItems(reg, name, body.value.dataItems, clusterName, buildID);
    return None;
  }

  /** The loop of RegisterPodStartupMetricsToProm over the data items. */
  method RegisterItems(reg: Registry, name: string, items: seq<DataItem>, clusterName: string, buildID: string)
    requires reg.Valid()
    requires Registrable(reg.families, name, items)
    modifies reg
    ensures reg.Valid()
    ensures reg.families == old(reg.families) + ItemFamilies(name, items, clusterName, buildID)
  {
    for i := 0 to |items|
      invariant reg.Valid()
      invariant reg.families == old(reg.families) + ItemFamilies(name, items[..i], clusterName, buildID)
    {
      var item := items[i];
      NextKeyFresh(old(reg.families), name, items, clusterName, buildID, i);
      ItemFamiliesStep(old(reg.families), name, items, clusterName, buildID, i);
      RegisterItem(reg, name, item, clusterName, buildID);
    }
    assert items[..|items|] == items;
  }
}
