/** The helpers of `internal/util.go`: file names and build IDs taken from
    artifact URLs, the metric subsystem derived from a file name, and the
    selection of the latest successful build of a Prow job. */
module Util {
  import opened Base
  import opened GoStrings

  /** The storage location under which every build of the job keeps its
      artifacts; `parseBuildIDFromURL` strips it. */
  const StoragePrefix := "https://storage.googleapis.com/kubernetes-ci-logs/logs/ci-kubernetes-e2e-azure-scalability/"

  /** getFileNameFromURL: the text after the last `/`. */
  function FileNameFromURL(url: string): (r: string)
    ensures '/' !in r
    ensures HasSuffix(url, r)
    ensures |r| < |url| ==> url[|url| - |r| - 1] == '/'
    ensures '/' !in url ==> r == url
  {
    LastSegment(url, '/')
  }

  /** A URL that ends in `/` names no file. */
  lemma FileNameOfDirectory(url: string)
    requires |url| > 0 && url[|url| - 1] == '/'
    ensures FileNameFromURL(url) == ""
  {
    LastSegmentOf(url, '/', url[..|url| - 1], "");
  }

  /** The file name of `dir/file` is `file`. */
  lemma FileNameOf(dir: string, file: string)
    requires '/' !in file
    ensures FileNameFromURL(dir + "/" + file) == file
  {
    LastSegmentOf(dir + "/" + file, '/', dir, file);
  }

  /** parseBuildIDFromURL: the first `/`-separated piece of the URL once
      the storage prefix, if present, is removed. */
  function ParseBuildIDFromURL(url: string): (r: string)
    ensures '/' !in r
    ensures HasPrefix(TrimPrefix(url, StoragePrefix), r)
    ensures !HasPrefix(url, StoragePrefix) ==> HasPrefix(url, r) && (|r| < |url| ==> url[|r|] == '/')
    ensures var t := TrimPrefix(url, StoragePrefix); |r| < |t| ==> t[|r|] == '/'
  {
    FirstSegment(TrimPrefix(url, StoragePrefix), '/')
  }

  /** The build ID of a URL inside a build's storage directory is that
      directory's name. */
  lemma ParseBuildIDOf(id: string, rest: string)
    requires '/' !in id
    ensures ParseBuildIDFromURL(StoragePrefix + id + "/" + rest) == id
  {
    var url := StoragePrefix + id + "/" + rest;
    assert url == StoragePrefix + (id + "/" + rest);
    assert url[..|StoragePrefix|] == StoragePrefix;
    assert TrimPrefix(url, StoragePrefix) == id + "/" + rest;
    FirstSegmentOf(id + "/" + rest, '/', id, rest);
  }

  /** The metric subsystem of an artifact: its file name split at `_`
      without the last two pieces, joined again. Slicing off two pieces
      panics in Go when there are fewer, so that is excluded. */
  function SubsystemName(fileName: string): (name: string)
    requires |Split(fileName, '_')| >= 2
  {
    var parts := Split(fileName, '_');
    Join(parts[..|parts| - 2], '_')
  }

  /** The subsystem name followed by the last two pieces gives the file
      name back; with exactly two pieces the subsystem name is empty. */
  lemma SubsystemNameRoundTrip(fileName: string)
    requires |Split(fileName, '_')| >= 2
    ensures var s := Split(fileName, '_');
      && (|s| == 2 ==> SubsystemName(fileName) == "" && fileName == s[0] + "_" + s[1])
      && (|s| >= 3 ==> SubsystemName(fileName) + "_" + s[|s| - 2] + "_" + s[|s| - 1] == fileName)
  {
    var s := Split(fileName, '_');
    JoinSplit(fileName, '_');
    if |s| == 2 {
      JoinPair(s[0], s[1], '_');
      assert s == [s[0], s[1]];
    } else {
      JoinLastTwo(s, '_');
    }
  }

  /** The subsystem name of `a_b_..._x_y` is `a_b_...`. */
  lemma SubsystemNameOf(parts: seq<string>, x: string, y: string)
    requires |parts| >= 1
    requires forall i :: 0 <= i < |parts| ==> '_' !in parts[i]
    requires '_' !in x && '_' !in y
    ensures |Split(Join(parts, '_') + "_" + x + "_" + y, '_')| >= 2
    ensures SubsystemName(Join(parts, '_') + "_" + x + "_" + y) == Join(parts, '_')
  {
    var all := parts + [x, y];
    JoinAppend(parts, [x, y], '_');
    JoinAppend([x], [y], '_');
    assert [x] + [y] == [x, y];
    assert Join(all, '_') == Join(parts, '_') + "_" + x + "_" + y;
    forall i | 0 <= i < |all| ensures '_' !in all[i] {
      if i >= |parts| { assert all[i] == x || all[i] == y; }
    }
    SplitJoin(all, '_');
    assert all[..|all| - 2] == parts;
  }

  // ---------------------------------------------------------------------
  // Latest-build selection

  /** The state Prow records for a job that passed. */
  const SuccessState := "success"

  /** The three fields of a ProwJob that the scraper reads:
      Spec.Job, Status.State and Status.BuildID. */
  datatype ProwJob = ProwJob(job: string, state: string, buildID: string)

  predicate Matches(j: ProwJob, jobName: string) {
    j.job == jobName && j.state == SuccessState
  }

  /** The successful runs of `jobName`, in feed order. */
  function Filter(jobs: seq<ProwJob>, jobName: string): (r: seq<ProwJob>)
    ensures forall j :: j in r <==> j in jobs && Matches(j, jobName)
    ensures |r| <= |jobs|
    decreases |jobs|
  {
    if jobs == [] then []
    else
      var init := Filter(jobs[..|jobs| - 1], jobName);
      assert jobs == jobs[..|jobs| - 1] + [jobs[|jobs| - 1]];
      if Matches(jobs[|jobs| - 1], jobName) then init + [jobs[|jobs| - 1]] else init
  }

  /** `id` is the build ID of a successful run of `jobName`, and no such
      run has a greater build ID. */
  ghost predicate IsLatest(id: string, jobs: seq<ProwJob>, jobName: string) {
    && (exists j :: j in jobs && Matches(j, jobName) && j.buildID == id)
    && (forall j :: j in jobs && Matches(j, jobName) ==> !Less(id, j.buildID))
  }

  /** The greatest build ID among `jobs`. */
  function MaxBuildID(jobs: seq<ProwJob>): string
    requires |jobs| > 0
    decreases |jobs|
  {
    if |jobs| == 1 then jobs[0].buildID
    else
      var m := MaxBuildID(jobs[1..]);
      if Less(jobs[0].buildID, m) then m else jobs[0].buildID
  }

  lemma {:induction false} MaxBuildIDIsMax(jobs: seq<ProwJob>)
    requires |jobs| > 0
    ensures exists j :: j in jobs && j.buildID == MaxBuildID(jobs)
    ensures forall j :: j in jobs ==> !Less(MaxBuildID(jobs), j.buildID)
    decreases |jobs|
  {
    if |jobs| == 1 {
      assert jobs[0] in jobs;
      LessIrreflexive(jobs[0].buildID);
    } else {
      MaxBuildIDIsMax(jobs[1..]);
      var m := MaxBuildID(jobs[1..]);
      var h := jobs[0].buildID;
      assert jobs == [jobs[0]] + jobs[1..];
      forall j | j in jobs ensures !Less(MaxBuildID(jobs), j.buildID) {
        if j == jobs[0] {
          LessIrreflexive(h);
          if Less(h, m) { LessAsymmetric(m, h); }
        } else {
          assert j in jobs[1..];
          if !Less(h, m) { NotLessTransitive(h, m, j.buildID); }
        }
      }
      var w :| w in jobs[1..] && w.buildID == m;
      assert w in jobs;
      assert jobs[0] in jobs;
    }
  }

  /** Reference definition of the latest build: the greatest build ID of
      the matching runs, if there is any. */
  function LatestSpec(jobs: seq<ProwJob>, jobName: string): Option<string> {
    var m := Filter(jobs, jobName);
    if m == [] then None else Some(MaxBuildID(m))
  }

  /** The reference definition finds a latest build exactly when the feed
      has a matching run. */
  lemma LatestSpecCorrect(jobs: seq<ProwJob>, jobName: string)
    ensures LatestSpec(jobs, jobName).Some? <==> exists j :: j in jobs && Matches(j, jobName)
    ensures LatestSpec(jobs, jobName).Some? ==> IsLatest(LatestSpec(jobs, jobName).value, jobs, jobName)
  {
    var m := Filter(jobs, jobName);
    if m != [] {
      MaxBuildIDIsMax(m);
      assert m[0] in m;
    }
  }

  /** There is at most one latest build ID. */
  lemma LatestUnique(a: string, b: string, jobs: seq<ProwJob>, jobName: string)
    requires IsLatest(a, jobs, jobName) && IsLatest(b, jobs, jobName)
    ensures a == b
  {
    var ja :| ja in jobs && Matches(ja, jobName) && ja.buildID == a;
    var jb :| jb in jobs && Matches(jb, jobName) && jb.buildID == b;
    LessAntisymmetric(a, b);
  }

  /** The latest build does not depend on the order of the feed. */
  lemma LatestOrderIndependent(jobs: seq<ProwJob>, jobs': seq<ProwJob>, jobName: string)
    requires multiset(jobs) == multiset(jobs')
    ensures LatestSpec(jobs, jobName) == LatestSpec(jobs', jobName)
  {
    forall j ensures j in jobs <==> j in jobs' {
      assert j in jobs <==> j in multiset(jobs);
      assert j in jobs' <==> j in multiset(jobs');
    }
    LatestSpecCorrect(jobs, jobName);
    LatestSpecCorrect(jobs', jobName);
    if LatestSpec(jobs, jobName).Some? {
      var a := LatestSpec(jobs, jobName).value;
      assert IsLatest(a, jobs', jobName);
      LatestUnique(a, LatestSpec(jobs', jobName).value, jobs', jobName);
    }
  }

  /** Descending by build ID, as the `sort.Slice` comparator orders them. */
  ghost predicate SortedDesc(s: seq<ProwJob>) {
    forall p, q :: 0 <= p < q < |s| ==> !Less(s[p].buildID, s[q].buildID)
  }

  /** sort.Slice(capzProwJobs, BuildID greater-than), by insertion. */
  method SortByBuildIDDesc(a: array<ProwJob>)
    modifies a
    ensures SortedDesc(a[..])
    ensures multiset(a[..]) == multiset(old(a[..]))
  {
    if a.Length == 0 { return; }
    var i := 1;
    while i < a.Length
      invariant 1 <= i <= a.Length
      invariant SortedDesc(a[..i])
      invariant multiset(a[..]) == multiset(old(a[..]))
    {
      InsertDesc(a, i);
      i := i + 1;
    }
    assert a[..i] == a[..];
  }

  /** Moves `a[i]` left into the sorted prefix `a[..i]`. */
  method InsertDesc(a: array<ProwJob>, i: nat)
    requires i < a.Length
    requires SortedDesc(a[..i])
    modifies a
    ensures SortedDesc(a[..i + 1])
    ensures multiset(a[..]) == multiset(old(a[..]))
  {
    var j := i;
    while j > 0 && Less(a[j - 1].buildID, a[j].buildID)
      invariant 0 <= j <= i
      invariant forall p, q :: 0 <= p < q <= i && p != j && q != j ==> !Less(a[p].buildID, a[q].buildID)
      invariant forall p, q :: 0 <= p < j < q <= i ==> !Less(a[p].buildID, a[q].buildID)
      invariant forall q :: j < q <= i ==> Less(a[q].buildID, a[j].buildID)
      invariant multiset(a[..]) == multiset(old(a[..]))
    {
      SwapAdjacent(a, j);
      j := j - 1;
    }
    InsertedSorted(a[..], i, j);
  }

  /** Exchanges `a[j - 1]` and `a[j]`. */
  method SwapAdjacent(a: array<ProwJob>, j: nat)
    requires 0 < j < a.Length
    modifies a
    ensures a[j - 1] == old(a[j]) && a[j] == old(a[j - 1])
    ensures forall k :: 0 <= k < a.Length && k != j - 1 && k != j ==> a[k] == old(a[k])
    ensures multiset(a[..]) == multiset(old(a[..]))
  {
    a[j - 1], a[j] := a[j], a[j - 1];
  }

  /** Where the insertion loop stops, the prefix up to `i` is sorted: the
      moved record is not greater than its left neighbour and is greater
      than everything to its right. */
  lemma InsertedSorted(s: seq<ProwJob>, i: nat, j: nat)
    requires j <= i < |s|
    requires forall p, q :: 0 <= p < q <= i && p != j && q != j ==> !Less(s[p].buildID, s[q].buildID)
    requires forall p, q :: 0 <= p < j < q <= i ==> !Less(s[p].buildID, s[q].buildID)
    requires forall q :: j < q <= i ==> Less(s[q].buildID, s[j].buildID)
    requires j > 0 ==> !Less(s[j - 1].buildID, s[j].buildID)
    ensures SortedDesc(s[..i + 1])
  {
    forall p, q | 0 <= p < q <= i ensures !Less(s[p].buildID, s[q].buildID) {
      if q == j && p < j - 1 {
        NotLessTransitive(s[p].buildID, s[j - 1].buildID, s[j].buildID);
      } else if p == j {
        LessAsymmetric(s[p].buildID, s[q].buildID);
      }
    }
  }

  /** GetLatestBuildID on a feed whose fetch and decode outcome is given:
      keep the successful runs of `jobName`, sort them by descending build
      ID and return the first one's. */
  method GetLatestBuildID(jobName: string, feed: Fetched<seq<ProwJob>>) returns (r: Result<string>)
    ensures feed.GetFailed? ==> r == Err(HttpError)
    ensures feed.DecodeFailed? ==> r == Err(UnmarshalError)
    ensures feed.Decoded? ==> (r.Ok? <==> exists j :: j in feed.value && Matches(j, jobName))
    ensures feed.Decoded? && r.Err? ==> r.error == NoSuccessfulProwJobs(jobName)
    ensures r.Ok? ==> feed.Decoded? && IsLatest(r.value, feed.value, jobName)
    ensures r.Ok? ==> LatestSpec(feed.value, jobName) == Some(r.value)
  {
    if feed.GetFailed? { return Err(HttpError); }
    if feed.DecodeFailed? { return Err(UnmarshalError); }
    var items := feed.value;
    var capz: seq<ProwJob> := [];
    for i := 0 to |items|
      invariant capz == Filter(items[..i], jobName)
    {
      assert items[..i + 1][..i] == items[..i];
      if items[i].job == jobName && items[i].state == SuccessState {
        capz := capz + [items[i]];
      }
    }
    assert items[..|items|] == items;
    var a := new ProwJob[|capz|](k requires 0 <= k < |capz| => capz[k]);
    assert a[..] == capz;
    SortByBuildIDDesc(a);
    if a.Length == 0 {
      LatestSpecCorrect(items, jobName);
      assert capz == [];
      return Err(NoSuccessfulProwJobs(jobName));
    }
    r := Ok(a[0].buildID);
    SortedHeadIsLatest(a[..], items, jobName);
  }

  /** The first of the successful runs sorted by descending build ID has
      the latest build. */
  lemma SortedHeadIsLatest(s: seq<ProwJob>, items: seq<ProwJob>, jobName: string)
    requires |s| > 0 && SortedDesc(s)
    requires multiset(s) == multiset(Filter(items, jobName))
    ensures IsLatest(s[0].buildID, items, jobName)
    ensures LatestSpec(items, jobName) == Some(s[0].buildID)
  {
    var capz := Filter(items, jobName);
    LatestSpecCorrect(items, jobName);
    assert s[0] in multiset(capz) by { assert s[0] in multiset(s); }
    forall j | j in items && Matches(j, jobName) ensures !Less(s[0].buildID, j.buildID) {
      assert j in multiset(s);
      var k :| 0 <= k < |s| && s[k] == j;
      if k == 0 { LessIrreflexive(j.buildID); }
    }
    assert IsLatest(s[0].buildID, items, jobName);
    LatestUnique(s[0].buildID, LatestSpec(items, jobName).value, items, jobName);
  }
}
