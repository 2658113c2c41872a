/** The process-wide Prometheus registry, reduced to what the scraper uses:
    gauge families registered once under a (namespace, subsystem, name)
    key, each with a label schema and the gauges set so far, one per
    tuple of label values. Gauge values are passed through untouched and
    are modelled as reals. */
module Prom {

  /** The namespace of every family the scraper registers. */
  const Namespace := "capz"

  datatype FamilyKey = FamilyKey(namespace: string, subsystem: string, name: string)

  /** A registered GaugeVec: its label names and the value of every label
      tuple that has been set. */
  datatype Family = Family(labelNames: seq<string>, values: map<seq<string>, real>)

  /** Every tuple of a family has one value per label name. */
  ghost predicate WellFormed(f: Family) {
    forall t :: t in f.values ==> |t| == |f.labelNames|
  }

  ghost predicate AllWellFormed(families: map<FamilyKey, Family>) {
    forall k :: k in families ==> WellFormed(families[k])
  }

  /** A later update of a key overrides an earlier one. */
  lemma UpdateTwice<K, V>(m: map<K, V>, k: K, a: V, b: V)
    ensures m[k := a][k := b] == m[k := b]
  {
  }

  class Registry {
    var families: map<FamilyKey, Family>

    ghost predicate Valid()
      reads this
    {
      AllWellFormed(families)
    }

    constructor ()
      ensures Valid() && families == map[]
    {
      families := map[];
    }

    /** prometheus.MustRegister of a fresh GaugeVec. Registering a key that
        is already taken panics in the Go library, so it is excluded here. */
    method MustRegister(key: FamilyKey, labelNames: seq<string>)
      requires Valid()
      requires key !in families
      modifies this
      ensures Valid()
      ensures families == old(families)[key := Family(labelNames, map[])]
    {
      families := families[key := Family(labelNames, map[])];
    }

    /** WithLabelValues(labelValues...).Set(v) on a registered GaugeVec:
        the gauge of that tuple now holds `v`, last write wins. A tuple of
        the wrong length panics in the Go library, so it is excluded. */
    method Set(key: FamilyKey, labelValues: seq<string>, v: real)
      requires Valid()
      requires key in families && |labelValues| == |families[key].labelNames|
      modifies this
      ensures Valid()
      ensures key in families
      ensures families == old(families)[key := old(families)[key].(values := old(families)[key].values[labelValues := v])]
    {
      var f := families[key];
      families := families[key := f.(values := f.values[labelValues := v])];
    }
  }
}
