/** `internal/api_availability.go`: publishes the cluster-wide API server
    availability of a decoded artifact as one gauge under the cluster and
    build labels. */
module ApiAvailability {
  import opened Base
  import opened GoStrings
  import opened Util
  import opened Prom

  /** Absent fields decode as 0 and "". */
  datatype ClusterMetrics = ClusterMetrics(availabilityPercentage: real, longestUnavailablePeriod: string)
  datatype HostMetrics = HostMetrics(ip: string, availabilityPercentage: real, longestUnavailablePeriod: string)
  datatype APIAvailability = APIAvailability(clusterMetrics: ClusterMetrics, hostMetrics: seq<HostMetrics>)

  const GaugeName := "APIServerAvailabilityPercentage"

  /** The family an artifact is registered under. */
  function AvailabilityKey(name: string): FamilyKey {
    FamilyKey(Namespace, name, GaugeName)
  }

  /** The family an artifact yields: a single gauge. */
  function AvailabilityFamily(a: APIAvailability, cluster: string, buildID: string): (f: Family)
    ensures f.labelNames == ["cluster", "buildID"]
    ensures WellFormed(f)
    ensures f.values.Keys == {[cluster, buildID]} && |f.values| == 1
    ensures f.values[[cluster, buildID]] == a.clusterMetrics.availabilityPercentage
  {
    Family(["cluster", "buildID"], map[[cluster, buildID] := a.clusterMetrics.availabilityPercentage])
  }

  /** Only the cluster-wide percentage is published: the per-host
      breakdown and the longest unavailable period change nothing. */
  lemma OnlyClusterPercentagePublished(a: APIAvailability, b: APIAvailability, cluster: string, buildID: string)
    requires a.clusterMetrics.availabilityPercentage == b.clusterMetrics.availabilityPercentage
    ensures AvailabilityFamily(a, cluster, buildID) == AvailabilityFamily(b, cluster, buildID)
  {
  }

  /** RegisterAPIAvailabilityMetricsToProm on an artifact whose fetch and
      decode outcome is given. */
  method RegisterAPIAvailabilityMetricsToProm(reg: Registry, link: string, clusterName: string, body: Fetched<APIAvailability>)
    returns (err: Option<Error>)
    requires reg.Valid()
    requires !body.GetFailed? ==> |Split(FileNameFromURL(link), '_')| >= 2
    requires body.Decoded? ==> AvailabilityKey(SubsystemName(FileNameFromURL(link))) !in reg.families
    modifies reg
    ensures reg.Valid()
    ensures body.GetFailed? ==> err == Some(HttpError) && reg.families == old(reg.families)
    ensures body.DecodeFailed? ==> err == Some(UnmarshalError) && reg.families == old(reg.families)
    ensures body.Decoded? ==> (err == None &&
      reg.families == old(reg.families)[AvailabilityKey(SubsystemName(FileNameFromURL(link))) :=
        AvailabilityFamily(body.value, clusterName, ParseBuildIDFromURL(link))])
    ensures body.Decoded? ==> |reg.families| == |old(reg.families)| + 1
  {
    var buildID := ParseBuildIDFromURL(link);
    var fileName := FileNameFromURL(link);
    if body.GetFailed? { return Some(HttpError); }
    var name := SubsystemName(fileName);
    if body.DecodeFailed? { return Some(UnmarshalError); }
    SetAvailability(reg, name, body.value, clusterName, buildID);
    return None;
  }

  /** Register the artifact's family, then set its one gauge. */
  method SetAvailability(reg: Registry, name: string, a: APIAvailability, clusterName: string, buildID: string)
    requires reg.Valid()
    requires AvailabilityKey(name) !in reg.families
    modifies reg
    ensures reg.Valid()
    ensures reg.families == old(reg.families)[AvailabilityKey(name) := AvailabilityFamily(a, clusterName, buildID)]
    ensures |reg.families| == |old(reg.families)| + 1
  {
    var key := FamilyKey(Namespace, name, GaugeName);
    ghost var base := reg.families;
    reg.MustRegister(key, ["cluster", "buildID"]);
    reg.Set(key, [clusterName, buildID], a.clusterMetrics.availabilityPercentage);
    UpdateTwice(base, key, Family(["cluster", "buildID"], map[]), AvailabilityFamily(a, clusterName, buildID));
    RegisterAddsOneFamily(base, name, AvailabilityFamily(a, clusterName, buildID));
  }

  /** A successful call adds exactly one family and keeps the others. */
  lemma RegisterAddsOneFamily(families: map<FamilyKey, Family>, name: string, f: Family)
    requires AvailabilityKey(name) !in families
    ensures |families[AvailabilityKey(name) := f]| == |families| + 1
    ensures forall k :: k in families ==> families[AvailabilityKey(name) := f][k] == families[k]
  {
  }
}
