# perf-test-scraper, modelled in Dafny

The scraper finds the latest successful run of the Prow job
`ci-kubernetes-e2e-azure-scalability`. It crawls that run's artifact listing
on gcsweb and publishes the numbers in its performance-test artifacts as
Prometheus gauges. This project models the deterministic core of that
program and proves what it promises:

- **Latest-build selection** (`getLatestBuildId` in `main.go`,
  `GetLatestBuildID` in `internal/util.go`). Keep the runs of the job whose
  state is `success`, sort them by descending build ID with an in-place
  sort (`sort.Slice`), and return the first. With no such run, return an
  error. The sort is an insertion sort on an `array`, proved sorted and a
  permutation. The result is proved to agree with a reference definition,
  `LatestSpec`: the greatest build ID of the matching runs.
- **URL and file-name helpers**: the last `/` piece of a URL, the build ID
  after the storage prefix, and the metric subsystem. The subsystem is the
  file name split at `_` and joined again without its last two pieces.
  Go's `strings.Split`, `Join`, `HasPrefix`, `HasSuffix`, `Contains` and
  `TrimPrefix`, `path.Base`, and Go's `<` on strings are written out in
  `GoStrings`.
- **The link handler**, the `OnHTML` callback of the colly collector, and
  the global `clusterName` it updates. The state lives in the class
  `Scraper.Crawler`. The pure step `OnLinkStep` returns the new cluster
  name and the actions the link asks for (`Visit`, `FetchArtifact`).
- **Gauge publication into a registry.** `Prom.Registry` is a class holding
  a map from the family key `(namespace, subsystem, name)` to a family. A
  family is a label schema plus the value of every label tuple set so far.
  - `main.go` walks an untyped JSON tree: a `Json` datatype with an object
    case `JObj(map)`. Only numeric fields become gauges.
  - `internal/pod_startup_latency.go` and `internal/api_availability.go`
    take typed, already-decoded records.
  - The typed publishers are module-level methods that take a `Registry`
    (`PodStartup.RegisterPodStartupMetricsToProm`,
    `ApiAvailability.RegisterAPIAvailabilityMetricsToProm`). The untyped one
    is `AddJsonMetricToPrometheus`, a method of `Scraper.Crawler`. Each is
    proved to leave the registry a pure function of the old one describes.
    Lemmas about those functions state the counts, the order, that existing
    families are kept, and which error a malformed item gives.

The network, the JSON decoder and the Prometheus library are not called.
The outcome of a fetch and decode is an input, a `Fetched` value
(`GetFailed | DecodeFailed | Decoded(value)`).

A panic in Go becomes a precondition. These are:
- slicing the `_` pieces of a file name with fewer than two pieces;
- `MustRegister` of a family key that is already registered;
- `json.Unmarshal` failing in `addJsonMetricToPrometheus`;
- the single-result type assertion on `labels`.

In the untyped publisher, a panic is also an explicit outcome, `Panicked`,
of the reference function `PublishItems`, so that lemmas can talk about it.

Some of what the code does is evidently not what the program means to do.
The model follows the code in each case:
- **Publishing is not idempotent.** Scraping the same artifact twice should
  do no harm. The code calls `MustRegister` a second time, which panics.
  `RepublishPanics` proves this for every non-empty list the code publishes
  successfully.
- **A malformed artifact is published in part.** A malformed artifact
  should leave the gauges alone. The untyped loop instead registers each
  element as it goes and returns at the first malformed one, so the
  families of the earlier elements stay registered.
  `PublishStopsAtFirstError` proves that exactly the elements before the
  first invalid one are published.
- **Not every numeric field is published by the typed publisher.** The
  untyped publisher in `main.go` publishes every numeric field of `data`.
  The typed publisher in `internal/pod_startup_latency.go` sets exactly
  `Perc50`, `Perc90` and `Perc99`, and an absent percentile reads as 0.
- **Malformed input panics instead of failing.** The code panics on a
  missing or non-object `labels` and on undecodable JSON in `main.go`.
  Both are preconditions in the model.

## Model

| member | source | states |
|---|---|---|
| GoStrings.ContainsInfix | main.go:177 | A string contains every string that occurs in it: `a + sub + b` contains `sub`. |
| GoStrings.TrimPrefix | internal/util.go:36 | When `s` starts with the prefix, `s` is the prefix followed by the result; otherwise the result is `s`. |
| GoStrings.Split | internal/util.go:15 | `strings.Split` with a one-character separator: at least one piece; no piece contains the separator; a string without the separator is its own only piece, and a single piece is the whole string. |
| GoStrings.SplitConcat | internal/util.go:15 | Splitting `a + sep + b` gives the pieces of `a` followed by the pieces of `b`. |
| GoStrings.JoinSplit | main.go:90-91 | Joining the pieces of a split with the separator gives the string back. |
| GoStrings.SplitJoin | main.go:90-91 | Splitting the join of a non-empty list of separator-free pieces gives the pieces back. |
| GoStrings.JoinAppend | main.go:91 | Joining a concatenation of two non-empty lists is joining each, with one separator between them. |
| GoStrings.JoinPair | main.go:91 | Two pieces join around exactly one separator. |
| GoStrings.JoinLastTwo | main.go:90-91 | With at least three pieces, the join of all but the last two, then a separator and the second-to-last piece, then a separator and the last piece, is the join of all pieces. |
| GoStrings.LastSegment | internal/util.go:15-16 | The last piece of a split is a suffix free of the separator and preceded by it unless it is the whole string; a string without the separator is its own last piece. |
| GoStrings.SplitLast | internal/util.go:15-16 | The last piece of a split is a suffix of the string, preceded by the separator when shorter. |
| GoStrings.FirstSegment | internal/util.go:37-38 | The first piece of a split is a prefix free of the separator and followed by it unless it is the whole string. |
| GoStrings.SplitFirst | internal/util.go:37-38 | The first piece of a split is a prefix of the string, followed by the separator when shorter. |
| GoStrings.FirstSegmentOf | internal/util.go:37-38 | For `s = a + sep + b` with `a` free of the separator, the first piece is `a`. |
| GoStrings.LastSegmentOf | internal/util.go:15-16 | For `s = a + sep + b` with `b` free of the separator, the last piece is `b`. |
| GoStrings.TrimTrailingSlashes | main.go:178 | The result is a prefix of the path that does not end in `/`, and everything removed is `/`. |
| GoStrings.PathBase | main.go:178 | `path.Base`: never empty; `.` for the empty path; `/` for a path of slashes only; otherwise the last `/`-separated element of the path once its trailing slashes are removed: `/`-free, a suffix of the trimmed path and preceded there by `/` unless it is all of it. |
| GoStrings.PathBaseOfDirectory | main.go:178 | The base of `dir/name/` is `name` for a non-empty, `/`-free `name`. |
| GoStrings.LessIrreflexive | internal/util.go:73-75 | Go's string `<` is irreflexive. |
| GoStrings.LessTransitive | internal/util.go:73-75 | Go's string `<` is transitive. |
| GoStrings.LessTotal | internal/util.go:73-75 | Any two strings are equal or one is less than the other. |
| GoStrings.NotLessTransitive | internal/util.go:73-75 | "Not less than" is transitive, so the comparator of the sort is a total preorder. |
| GoStrings.LessAsymmetric | internal/util.go:73-75 | `a < b` and `b < a` never both hold. |
| GoStrings.LessAntisymmetric | internal/util.go:73-75 | Two strings neither of which is less than the other are equal. |
| GoStrings.HasPrefix | main.go:179 | `strings.HasPrefix`, defined on the value; `GoStrings.FirstSegment`, `GoStrings.HasPrefixContains` and `Scraper.ClusterDirectoryLink` state its use. |
| GoStrings.HasSuffix | main.go:173 | `strings.HasSuffix`, defined on the value; `Scraper.OnLinkStepActions` and `Scraper.EntryNotClustersDir` state its use. |
| GoStrings.Contains | main.go:177 | `strings.Contains`: some suffix of the string starts with `sub`; `GoStrings.ContainsInfix` states that every occurrence is found. |
| GoStrings.Join | main.go:91 | `strings.Join`; its inverse relation to `Split` is stated by `GoStrings.JoinSplit` and `GoStrings.SplitJoin`. |
| GoStrings.Less | main.go:75 | Go's `<` on strings, lexicographic with a proper prefix first; `GoStrings.LessIrreflexive`, `LessTransitive`, `LessTotal` and `LessAntisymmetric` state that it is a strict total order. |
| Prom.Registry.MustRegister | internal/pod_startup_latency.go:54-63 | Registering a fresh key adds a family with the given label names and no gauges; every other family is unchanged; the registry stays well formed. |
| Prom.Registry.Set | internal/pod_startup_latency.go:65-67 | `WithLabelValues(t...).Set(v)` on a registered family whose label count matches: that tuple now holds `v`, last write wins, and nothing else changes. |
| Util.FileNameFromURL | internal/util.go:14-17 | The file name is `/`-free and a suffix of the URL, preceded by `/` unless it is the whole URL; a URL without `/` is its own file name. |
| Util.FileNameOfDirectory | internal/util.go:15-16 | A URL ending in `/` has the empty file name. |
| Util.FileNameOf | internal/util.go:14-17 | The file name of `dir/file` is `file` for a `/`-free `file`. |
| Util.ParseBuildIDFromURL | internal/util.go:35-41 | The build ID is the whole first `/` piece of the URL with the storage prefix removed: a `/`-free prefix of it, followed there by `/` unless it is all of it; without the storage prefix it is the first `/` piece of the URL itself. |
| Util.ParseBuildIDOf | internal/util.go:35-40 | The build ID of `prefix + id + "/" + rest` is `id` for a `/`-free `id`. |
| Util.SubsystemName | internal/pod_startup_latency.go:44-45 | The name built from all but the last two `_` pieces of the file name; requires at least two pieces, where Go's slice would panic. Its meaning is stated by `Util.SubsystemNameRoundTrip` and `Util.SubsystemNameOf`. |
| Util.SubsystemNameRoundTrip | internal/pod_startup_latency.go:44-45 | With exactly two `_` pieces the subsystem is empty; with three or more, subsystem + `_` + second-to-last piece + `_` + last piece is the file name. |
| Util.SubsystemNameOf | internal/api_availability.go:38-39 | The subsystem of `p1_..._pn_x_y`, with every piece `_`-free, is `p1_..._pn`. |
| Util.Filter | internal/util.go:64-70 | The kept runs are exactly the feed's runs with the job name and the success state, and there are no more of them than runs in the feed. |
| Util.MaxBuildID | internal/util.go:73-83 | The greatest build ID of a non-empty list; `Util.MaxBuildIDIsMax` states that it is attained and maximal. |
| Util.LatestSpec | internal/util.go:64-83 | The reference selection: the greatest build ID among the matching runs, or none; `Util.LatestSpecCorrect` states its meaning. |
| Util.MaxBuildIDIsMax | internal/util.go:73-75 | The greatest build ID of a non-empty list belongs to one of its runs and no run's build ID is greater. |
| Util.LatestSpecCorrect | internal/util.go:77-83 | The reference selection finds a build exactly when some run matches, and what it finds is a matching run's build ID that no matching run exceeds. |
| Util.LatestUnique | internal/util.go:73-82 | At most one build ID is latest, since equal-ranked IDs are equal strings. |
| Util.LatestOrderIndependent | internal/util.go:73-82 | Two feeds with the same runs in any order select the same build. |
| Util.SortByBuildIDDesc | internal/util.go:72-75 | After the sort, no record's build ID is less than a later record's, and the array is a permutation of what it was. |
| Util.InsertDesc | internal/util.go:73-75 | Inserting the next record into the sorted prefix leaves the prefix one longer, still sorted, and the array a permutation. |
| Util.SortedHeadIsLatest | internal/util.go:77-84 | The first of the matching runs sorted descending has the latest build ID, the one the reference selection returns. |
| Util.GetLatestBuildID | internal/util.go:43-85 | Fetch and decode failures give their errors; otherwise the call succeeds exactly when some run matches, fails with no-successful-jobs otherwise, and returns the latest build ID, equal to the reference selection. |
| PodStartup.ItemFamily | internal/pod_startup_latency.go:54-67 | The family one data item yields; `PodStartup.ItemFamilyTuples` states its schema and its three gauges. |
| PodStartup.ItemFamilies | internal/pod_startup_latency.go:52-68 | The families the loop adds, keyed by item; `PodStartup.ItemFamiliesKeys`, `ItemFamiliesAt` and `ItemFamiliesCount` state its keys, values and size. |
| PodStartup.ItemFamilyTuples | internal/pod_startup_latency.go:65-67 | A data item's family has schema `[perc, cluster, buildID]` and exactly three tuples, `Perc50`, `Perc90` and `Perc99` with the cluster and build labels, each set to its field. |
| PodStartup.ItemFamiliesKeys | internal/pod_startup_latency.go:52-63 | The keys the loop registers are exactly `(capz, name, metric)` of the items, in both directions. |
| PodStartup.ItemFamiliesAt | internal/pod_startup_latency.go:52-67 | With distinct metrics, every item's key is registered with that item's family. |
| PodStartup.ItemFamiliesCount | internal/pod_startup_latency.go:52-63 | With distinct metrics, the loop registers exactly one family per item. |
| PodStartup.RegisterGrowth | internal/pod_startup_latency.go:52-68 | When no item's key is registered yet, the registry grows by exactly the number of items and every family that was there is kept. |
| PodStartup.RegisterItem | internal/pod_startup_latency.go:53-67 | One item registers its fresh family and sets its three percentile gauges; the rest of the registry is unchanged. |
| PodStartup.RegisterItems | internal/pod_startup_latency.go:52-68 | The loop over the items leaves the old registry plus the families of all items. |
| PodStartup.RegisterPodStartupMetricsToProm | internal/pod_startup_latency.go:36-71 | A fetch or decode failure returns its error and leaves the registry unchanged; success returns no error and adds the items' families under the subsystem of the file name and the build ID of the URL. |
| ApiAvailability.AvailabilityFamily | internal/api_availability.go:46-56 | The family has schema `[cluster, buildID]` and exactly one tuple, `(cluster, buildID)`, set to the cluster-wide availability percentage. |
| ApiAvailability.OnlyClusterPercentagePublished | internal/api_availability.go:56 | Artifacts that agree on the cluster-wide percentage publish the same family, whatever their per-host data and unavailable periods. |
| ApiAvailability.SetAvailability | internal/api_availability.go:46-56 | Registers the fresh family and sets its one gauge; nothing else changes, and the registry holds one family more. |
| ApiAvailability.RegisterAPIAvailabilityMetricsToProm | internal/api_availability.go:30-59 | A fetch or decode failure returns its error and leaves the registry unchanged; success adds exactly the artifact's family under `(capz, subsystem, APIServerAvailabilityPercentage)`, so the registry holds exactly one family more. |
| ApiAvailability.RegisterAddsOneFamily | internal/api_availability.go:55 | Registering a fresh key adds exactly one family and keeps all the others; `SetAvailability` uses it for its count. |
| Scraper.GetLatestBuildId | main.go:44-86 | For the fixed job name: fetch and decode failures give their errors; otherwise it succeeds exactly when a successful run of the job exists, fails with no-successful-jobs otherwise, and returns a build ID that is latest among those runs. |
| Scraper.CheckItem | main.go:105-118 | The checks one element of `dataItems` goes through, in source order; `Scraper.CheckItemCases` states each outcome. |
| Scraper.MetricOf | main.go:110-113 | The `Metric` string of `labels`, or `""` when it is absent or not a string, as the two-result type assertion yields; an empty one is rejected by `Scraper.CheckItem`. |
| Scraper.CheckItemCases | main.go:104-118 | Which check an element of `dataItems` fails, in source order: not an object, then missing `labels` object (panic), then empty metric, then missing `data` object; it is accepted exactly when all pass. |
| Scraper.NumericGauges | main.go:131-135 | The gauges the inner loop sets for a set of visited keys; `Scraper.NumericGaugesStep` and `Scraper.NumericGaugesCount` state each step and the count. |
| Scraper.JsonFamily | main.go:120-135 | The family one valid element yields; `Scraper.JsonFamilyGauges` states its schema and gauges. |
| Scraper.JsonFamilyGauges | main.go:120-135 | A valid item's family has schema `[perc, cluster]` and one gauge `(field, cluster)` per numeric field of `data`, set to its value; non-numeric fields add nothing. |
| Scraper.NumericGaugesCount | main.go:131-135 | As many gauges are set as there are numeric fields. |
| Scraper.PublishItems | main.go:104-136 | The reference publication of `dataItems`: registry and outcome (`Done`, `Failed`, `Panicked`); its properties are the `Publish…` lemmas below. |
| Scraper.PublishJson | main.go:99-102 | A missing or non-array `dataItems` fails before anything is registered. |
| Scraper.PublishItemsStep | main.go:104-129 | Without a panic, an invalid first item fails with its error and registers nothing, and a valid one registers its fresh family before the rest is published. |
| Scraper.PublishKeepsFamilies | main.go:104-136 | Publishing never removes or changes a family that was registered. |
| Scraper.PublishAddsItemFamilies | main.go:104-136 | Every family publishing adds is `(capz, name, metric)` of some valid item, holding that item's gauges. |
| Scraper.PublishDoneCount | main.go:104-138 | When the whole list is published, every item was valid and the registry grew by exactly one family per item. |
| Scraper.PublishInOrder | main.go:104-136 | Items are handled in order: publishing a list is publishing a prefix and then the rest from the registry the prefix left. |
| Scraper.PublishStopsAtFirstError | main.go:104-118 | A failure carries the error of the first invalid item; exactly the items before it were published and nothing after it. |
| Scraper.RepublishPanics | main.go:129 | Publishing a successfully published non-empty list again panics in `MustRegister`. |
| Scraper.OnLinkStep | main.go:173-188 | The pure step of the link handler: new cluster name and requested actions; `Scraper.OnLinkStepActions` and `Scraper.OnLinkStepCluster` state its meaning. |
| Scraper.OnLinkStepActions | main.go:173-188 | A link is visited at `https://gcsweb.k8s.io + link` exactly when it ends in `artifacts/clusters/`; it is fetched under its last `/` piece exactly when it contains `PodStartupLatency`; a visit comes before a fetch and there are no other actions. |
| Scraper.OnLinkStepCluster | main.go:177-183 | The cluster name becomes the base of the link when the link contains `artifacts/clusters/` and the base starts with `capz-`, and is unchanged in every other case. |
| Scraper.ClustersDirLinkKeepsCluster | main.go:173-183 | The link that is visited never changes the cluster name, so running the nested visit first does not reorder anything. |
| Scraper.ClustersDirBase | main.go:178 | The base name of a link ending in `artifacts/clusters/` is `clusters`. |
| Scraper.ClusterDirectoryLink | main.go:173-183 | The entry `.../artifacts/clusters/capz-x/` sets the cluster name to `capz-x` and is not visited. |
| Scraper.ArtifactLink | main.go:185-188 | An entry `dir/file` with `PodStartupLatency` in its file name is fetched under that file name. |
| Scraper.Crawler.constructor | main.go:40-42 | The cluster name starts empty. |
| Scraper.Crawler.AddJsonMetricToPrometheus | main.go:88-139 | The registry becomes what the reference publication of the decoded document leaves, and the error is that publication's failure, if any. |
| Scraper.Crawler.PublishDataItems | main.go:104-138 | The loop over `dataItems` leaves the registry and the error of the reference publication of the list. |
| Scraper.Crawler.PublishFirst | main.go:104-135 | One turn of the loop: an error is the reference publication's failure and leaves its registry; otherwise publishing the rest from the new registry gives the same publication. |
| Scraper.Crawler.PublishItem | main.go:105-135 | An invalid element returns its error and changes nothing; a valid one registers its family with the gauges of its numeric fields. |
| Scraper.Crawler.SetNumericFields | main.go:131-135 | Ranging over `data` in any order leaves the family holding exactly the gauges of the numeric fields. |
| Scraper.Crawler.SetField | main.go:132-134 | A numeric field sets its gauge `(field, cluster)`; any other field changes nothing. |
| Scraper.Crawler.OnHTML | main.go:169-210 | The cluster name becomes that of `OnLinkStep`; the visit happens exactly for a clusters-directory link; a link without `PodStartupLatency` changes no gauge; a failed fetch reports its error and changes no gauge; otherwise the registry and error are those of publishing the artifact under the updated cluster name. |

## Left out

- HTTP (`http.Get`, `io.ReadAll`) and JSON decoding are not modelled. Their outcome is an input (`Fetched`), and a decoded value is given directly: a `Json` tree, or typed records in which absent fields are Go zero values.
- The Prow `ProwJobList` type is reduced to the three fields the scraper reads: job name, state and build ID.
- The goroutine that polls every hour, the channel, `time.Sleep`, the seed visit of the build's artifact listing, the `/metrics` endpoint and `ListenAndServe` are left out. They are concurrency and I/O around the core.
- Colly's scheduling is not modelled. The nested `c.Visit` runs inside the callback before the rest of the handler; the model returns the visit as an action instead. `ClustersDirLinkKeepsCluster` shows that the cluster name is unaffected. A link that is both a clusters-directory link and a `PodStartupLatency` link would fetch after the nested crawl has run; that interleaving is not modelled. Colly's de-duplication of visited URLs is not modelled either.
- Logging (`fmt.Println`, `log.Println`) is left out. An error the handler only prints is returned as `err`.
- Gauge values are Dafny `real`s, so float64 rounding is not modelled. The values are passed through untouched.
- Prom.Registry.MustRegister: the Prometheus library builds one fully qualified name `capz_subsystem_name` and rejects invalid or colliding names. The model keys families by the triple and requires only that the triple is new. Two triples that join into the same name, and invalid metric names, are not modelled.
- Prom.Registry.Set: the library also panics on label values that are not valid UTF-8. Dafny strings are always valid, so this case does not arise in the model.
- Scraper.Crawler.OnHTML: the panic of `json.Unmarshal` on an undecodable artifact is a precondition (`artifact.Decoded?`), not an outcome.
- Scraper.Crawler.AddJsonMetricToPrometheus and OnHTML exclude the panicking cases by precondition: the panic of the `labels` type assertion, and `MustRegister` of a taken key. `PublishItems` has these cases as its `Panicked` outcome.
- Util.SubsystemNameRoundTrip: the round trip holds from three `_` pieces on. With exactly two pieces the subsystem is empty, and the lemma states that instead.
- Util.SortByBuildIDDesc: `sort.Slice` is not a stable sort and its algorithm is not specified. The model uses an insertion sort. Only the first element is used, and any sorted permutation has the same first build ID (`LatestUnique`), so the result does not depend on the algorithm.
- Build IDs are compared as Go compares strings, byte by byte. Dafny characters are Unicode scalar values, and their order agrees with the order of their UTF-8 bytes. The model does not assume that IDs have a fixed width.
