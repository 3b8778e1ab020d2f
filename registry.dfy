/** The metrics registry: one metrics record per class name ever referenced, created lazily
    on first lookup, and the selection of the records that are reported. */
module Registry {

  /** The metrics of one class. `afferent` holds the names of the classes coupled to it. */
  datatype ClassMetrics = ClassMetrics(
    visited: bool,
    isPublic: bool,
    dit: int,
    noc: int,
    cbo: int,
    rfc: int,
    lcom: int,
    wmc: int,
    npm: int,
    afferent: set<string>)

  /** A freshly constructed record: nothing visited, every count zero. */
  function NewClassMetrics(): ClassMetrics {
    ClassMetrics(false, false, 0, 0, 0, 0, 0, 0, 0, {})
  }

  /** The record a lookup of `name` yields: the stored one, or a fresh one. */
  function Entry(m: map<string, ClassMetrics>, name: string): ClassMetrics {
    if name in m then m[name] else NewClassMetrics()
  }

  /** The registry after looking `name` up: the name is a key, no other key is added and
      no record changes. */
  function Lookup(m: map<string, ClassMetrics>, name: string): (r: map<string, ClassMetrics>)
    ensures r.Keys == m.Keys + {name}
    ensures forall k :: k in m ==> r[k] == m[k]
    ensures name !in m ==> r[name] == NewClassMetrics()
    ensures forall k :: Entry(r, k) == Entry(m, k)
  {
    if name in m then m else m[name := NewClassMetrics()]
  }

  /** The registry after `source` is recorded as coupled to `target`. */
  function AddAfferent(m: map<string, ClassMetrics>, target: string, source: string): (r: map<string, ClassMetrics>)
    ensures r.Keys == m.Keys + {target}
    ensures forall k :: k != target ==> Entry(r, k) == Entry(m, k)
    ensures Entry(r, target) == Entry(m, target).(afferent := Entry(m, target).afferent + {source})
  {
    var e := Entry(m, target);
    m[target := e.(afferent := e.afferent + {source})]
  }

  /** The registry after `source` is recorded as coupled to every name of `targets`. */
  function AddAfferentAll(m: map<string, ClassMetrics>, targets: set<string>, source: string): (r: map<string, ClassMetrics>)
    ensures r.Keys == m.Keys + targets
    ensures forall k :: k !in targets ==> Entry(r, k) == Entry(m, k)
    ensures forall k :: k in targets ==> Entry(r, k) == Entry(m, k).(afferent := Entry(m, k).afferent + {source})
  {
    map k | k in m.Keys + targets ::
      if k in targets then Entry(m, k).(afferent := Entry(m, k).afferent + {source}) else m[k]
  }

  /** The registry after one more subclass of `name` is found. */
  function IncNoc(m: map<string, ClassMetrics>, name: string): (r: map<string, ClassMetrics>)
    ensures r.Keys == m.Keys + {name}
    ensures forall k :: k != name ==> Entry(r, k) == Entry(m, k)
    ensures Entry(r, name) == Entry(m, name).(noc := Entry(m, name).noc + 1)
  {
    var e := Entry(m, name);
    m[name := e.(noc := e.noc + 1)]
  }

  /** Two maps with the same entries for every name are equal once they have the same keys. */
  lemma SameEntries(m1: map<string, ClassMetrics>, m2: map<string, ClassMetrics>)
    requires m1.Keys == m2.Keys
    requires forall k :: Entry(m1, k) == Entry(m2, k)
    ensures m1 == m2
  {
    forall k | k in m1 ensures m1[k] == m2[k] {
      assert Entry(m1, k) == m1[k] && Entry(m2, k) == m2[k];
    }
  }

  /** Recording one target is recording the singleton set of targets. */
  lemma AddAfferentIsAll(m: map<string, ClassMetrics>, target: string, source: string)
    ensures AddAfferent(m, target, source) == AddAfferentAll(m, {target}, source)
  {
    SameEntries(AddAfferent(m, target, source), AddAfferentAll(m, {target}, source));
  }

  /** Recording no target changes nothing. */
  lemma AddAfferentNone(m: map<string, ClassMetrics>, source: string)
    ensures AddAfferentAll(m, {}, source) == m
  {
    SameEntries(AddAfferentAll(m, {}, source), m);
  }

  /** Recording two sets of targets in turn is recording their union: the result depends
      neither on the order of the targets nor on repetitions. */
  lemma AddAfferentAllThen(m: map<string, ClassMetrics>, a: set<string>, b: set<string>, source: string)
    ensures AddAfferentAll(AddAfferentAll(m, a, source), b, source) == AddAfferentAll(m, a + b, source)
  {
    SameEntries(AddAfferentAll(AddAfferentAll(m, a, source), b, source), AddAfferentAll(m, a + b, source));
  }

  /** Writing a record back under a name just looked up is writing it to the registry as
      it was before the lookup. */
  lemma LookupThenWrite(m: map<string, ClassMetrics>, name: string, e: ClassMetrics)
    ensures Lookup(m, name)[name := e] == m[name := e]
  {
    SameEntries(Lookup(m, name)[name := e], m[name := e]);
  }

  /** The reporting filter: visited, and public unless every class is to be included. */
  function ShouldReport(c: ClassMetrics, includeAll: bool): (b: bool)
    ensures b ==> c.visited
    ensures includeAll ==> (b <==> c.visited)
    ensures !includeAll ==> (b <==> c.visited && c.isPublic)
  {
    c.visited && (includeAll || c.isPublic)
  }

  /** The registry shared by every class analysis of a run. */
  class ClassMetricsContainer {
    var metrics: map<string, ClassMetrics>

    constructor()
      ensures metrics == map[]
    {
      metrics := map[];
    }

    /** Returns the metrics of `name`, creating a fresh record on its first lookup. */
    method GetMetrics(name: string) returns (r: ClassMetrics)
      modifies this
      ensures metrics == Lookup(old(metrics), name)
      ensures r == metrics[name] && r == Entry(old(metrics), name)
      ensures name in old(metrics) ==> metrics == old(metrics)
    {
      if name !in metrics {
        metrics := metrics[name := NewClassMetrics()];
      }
      r := metrics[name];
    }

    /** Delivers every entry that passes the reporting filter, each exactly once, in no
        particular order. */
    method PrintMetrics(includeAll: bool) returns (reported: seq<(string, ClassMetrics)>)
      ensures forall n :: (exists i :: 0 <= i < |reported| && reported[i].0 == n)
                          <==> n in metrics && ShouldReport(metrics[n], includeAll)
      ensures forall i :: 0 <= i < |reported| ==> reported[i].0 in metrics && reported[i].1 == metrics[reported[i].0]
      ensures forall i, j :: 0 <= i < j < |reported| ==> reported[i].0 != reported[j].0
    {
      reported := [];
      var pending := metrics.Keys;
      while pending != {}
        invariant pending <= metrics.Keys
        invariant forall i :: 0 <= i < |reported| ==> reported[i].0 in metrics && reported[i].1 == metrics[reported[i].0]
        invariant forall i :: 0 <= i < |reported| ==> reported[i].0 !in pending
        invariant forall n :: (exists i :: 0 <= i < |reported| && reported[i].0 == n)
                              <==> n in metrics && n !in pending && ShouldReport(metrics[n], includeAll)
        invariant forall i, j :: 0 <= i < j < |reported| ==> reported[i].0 != reported[j].0
        decreases pending
      {
        var name :| name in pending;
        ghost var before := reported;
        if ShouldReport(metrics[name], includeAll) {
          reported := reported + [(name, metrics[name])];
        }
        pending := pending - {name};
        forall n
          ensures (exists i :: 0 <= i < |reported| && reported[i].0 == n)
                  <==> n in metrics && n !in pending && ShouldReport(metrics[n], includeAll)
        {
          if exists i :: 0 <= i < |before| && before[i].0 == n {
            var i :| 0 <= i < |before| && before[i].0 == n;
            assert reported[i] == before[i];
          }
          if n == name && ShouldReport(metrics[name], includeAll) {
            assert reported[|reported| - 1].0 == n;
          }
        }
      }
    }
  }
}
