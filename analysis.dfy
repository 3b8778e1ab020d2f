/** A run: each class is analysed by a fresh class analyser (constructed, started, ended)
    against the one shared registry. The properties here are about what a run leaves in
    the registry: each class's own record, the records of the classes it refers to, and
    the counts that accumulate over many classes. */
module Analysis {
  import opened Bytecode
  import opened Naming
  import opened Registry
  import opened Cohesion
  import opened Effects
  import opened ClassEffects
  import opened Visitors

  /** The analyser's state after construction, before `start`: empty sets, and the
      class's own record looked up. */
  function Start(reg: map<string, ClassMetrics>, c: JavaClass): Tally {
    Tally({}, {}, [], Lookup(reg, c.name))
  }

  /** The analyser's state after `start`, before `end`. */
  function Visited(env: Environment, reg: map<string, ClassMetrics>, c: JavaClass): Tally {
    AfterClass(Ctx(c.name, env), Start(reg, c), c)
  }

  /** The registry after one class is analysed. */
  function AnalyzeClass(env: Environment, reg: map<string, ClassMetrics>, c: JavaClass): map<string, ClassMetrics> {
    AfterEnd(Ctx(c.name, env), Visited(env, reg, c)).registry
  }

  /** The registry after the classes are analysed in order. */
  function AnalyzeAll(env: Environment, reg: map<string, ClassMetrics>, cs: seq<JavaClass>): map<string, ClassMetrics>
    decreases |cs|
  {
    if |cs| == 0 then reg else AnalyzeClass(env, AnalyzeAll(env, reg, cs[..|cs| - 1]), cs[|cs| - 1])
  }

  /** One class analysis as the tool runs it: a fresh analyser, its visit, its final
      accounting. */
  method RunClassAnalysis(container: ClassMetricsContainer, env: Environment, c: JavaClass)
    modifies container
    ensures container.metrics == AnalyzeClass(env, old(container.metrics), c)
  {
    var visitor := new ClassVisitor(c, container, env);
    visitor.Start();
    visitor.End();
  }

  /** The signatures of a class's own methods. */
  function OwnSignatures(c: JavaClass): set<string> {
    set m | m in c.methods :: Signature(c.name, m.name, m.argumentTypes)
  }

  /** After the analysis of a class, its own record is visited, public exactly when it was
      already or the class is, has DIT from the ancestor lookup when that succeeded (and
      keeps it otherwise), has WMC and NPM raised by the number of methods and of public
      methods, and keeps its afferent set and, unless the class names itself as its
      superclass, its child count. */
  lemma OwnCountsAfterAnalysis(env: Environment, reg: map<string, ClassMetrics>, c: JavaClass)
    ensures var e, e0 := Entry(AnalyzeClass(env, reg, c), c.name), Entry(reg, c.name);
      && c.name in AnalyzeClass(env, reg, c)
      && e.visited
      && e.isPublic == (e0.isPublic || c.isPublic)
      && e.dit == (if c.superclassCount.Some? then c.superclassCount.value else e0.dit)
      && e.wmc == e0.wmc + |c.methods| && e.npm == e0.npm + PublicCount(c.methods)
      && e.noc == e0.noc + (if c.superclassName == c.name then 1 else 0)
      && e.afferent == e0.afferent
  {
    var ctx := Ctx(c.name, env);
    ClassOwnRecord(ctx, Start(reg, c), c);
  }

  /** After the analysis of a class, CBO is the number of distinct class names the class
      refers to (at class level, in method signatures, in dispatched instructions and in
      catch types) that pass the coupling gate, which never counts the class itself; RFC is
      the number of distinct signatures among its own methods and the methods they invoke;
      and LCOM is the pair counter, floored at zero, over the field sets of its methods in
      order, each the fields of the class that method's body uses. */
  lemma OwnMeasuresAfterAnalysis(env: Environment, reg: map<string, ClassMetrics>, c: JavaClass)
    ensures var e, ctx := Entry(AnalyzeClass(env, reg, c), c.name), Ctx(c.name, env);
      && e.cbo == |Coupled(ctx, ClassCouplingNames(env, c))|
      && c.name !in Coupled(ctx, ClassCouplingNames(env, c))
      && e.rfc == |MethodsResponses(ctx, c.methods)|
      && OwnSignatures(c) <= MethodsResponses(ctx, c.methods)
      && e.lcom == Lcom(MethodsFieldUsage(ctx, c.methods))
  {
    VisitedSets(env, reg, c);
  }

  /** After the analysis of a class, LCOM is at most the number of pairs of its methods,
      and zero for fewer than two methods. */
  lemma LcomAfterAnalysis(env: Environment, reg: map<string, ClassMetrics>, c: JavaClass)
    ensures var e := Entry(AnalyzeClass(env, reg, c), c.name);
      && 2 * e.lcom <= |c.methods| * (|c.methods| - 1)
      && (|c.methods| <= 1 ==> e.lcom == 0)
  {
    var u := MethodsFieldUsage(Ctx(c.name, env), c.methods);
    var n := |c.methods|;
    var lcom := Entry(AnalyzeClass(env, reg, c), c.name).lcom;
    OwnMeasuresAfterAnalysis(env, reg, c);
    assert lcom == Lcom(u) && |u| == n;
    LcomBounds(u);
    assert 2 * lcom <= n * (n - 1);
  }

  /** The analyser's sets just before `end`: exactly the class's coupled names, its
      response signatures and its methods' field sets. */
  lemma VisitedSets(env: Environment, reg: map<string, ClassMetrics>, c: JavaClass)
    ensures var v, ctx := Visited(env, reg, c), Ctx(c.name, env);
      && v.efferent == Coupled(ctx, ClassCouplingNames(env, c))
      && v.responses == MethodsResponses(ctx, c.methods)
      && v.fieldUsage == MethodsFieldUsage(ctx, c.methods)
      && OwnSignatures(c) <= v.responses
  {
    var ctx := Ctx(c.name, env);
    ClassTransients(ctx, Start(reg, c), c);
    assert [] + MethodsFieldUsage(ctx, c.methods) == MethodsFieldUsage(ctx, c.methods);
  }

  /** A class none of whose methods uses a field of its own has the largest LCOM: one for
      every pair of methods. */
  lemma NoOwnFieldsLcom(env: Environment, reg: map<string, ClassMetrics>, c: JavaClass)
    requires forall m :: m in c.methods ==> BodyFields(Ctx(c.name, env), m) == {}
    ensures 2 * Entry(AnalyzeClass(env, reg, c), c.name).lcom == |c.methods| * (|c.methods| - 1)
  {
    var u := MethodsFieldUsage(Ctx(c.name, env), c.methods);
    OwnMeasuresAfterAnalysis(env, reg, c);
    forall i, j | 0 <= i < j < |u| ensures u[i] * u[j] == {} {
      assert c.methods[i] in c.methods;
    }
    PairwiseDisjointLcom(u);
  }

  /** A class all of whose methods use the same non-empty set of its own fields has LCOM
      zero. */
  lemma SharedFieldsLcom(env: Environment, reg: map<string, ClassMetrics>, c: JavaClass, fields: set<string>)
    requires fields != {}
    requires forall m :: m in c.methods ==> BodyFields(Ctx(c.name, env), m) == fields
    ensures Entry(AnalyzeClass(env, reg, c), c.name).lcom == 0
  {
    var u := MethodsFieldUsage(Ctx(c.name, env), c.methods);
    OwnMeasuresAfterAnalysis(env, reg, c);
    forall i | 0 <= i < |u| ensures u[i] == u[0] && u[i] != {} {
      assert c.methods[i] in c.methods && c.methods[0] in c.methods;
    }
    IdenticalFieldSetsLcom(u);
  }

  /** After the analysis of a class, every other record changes in two ways only: the
      superclass gains exactly one child, and each name the class couples to (the names
      counted by its CBO) gains exactly the analysed class in its afferent set. The keys
      gained are exactly the class itself, its superclass and those coupled names. */
  lemma OtherRecordsAfterAnalysis(env: Environment, reg: map<string, ClassMetrics>, c: JavaClass)
    ensures var a, n := AnalyzeClass(env, reg, c), Coupled(Ctx(c.name, env), ClassCouplingNames(env, c));
      && a.Keys == reg.Keys + {c.name, c.superclassName} + n
      && forall k :: k != c.name ==> Entry(a, k) == Marked(WithChild(Entry(reg, k), k, c), k, n, c.name)
    ensures forall k :: k in Visited(env, reg, c).efferent ==> c.name in Entry(AnalyzeClass(env, reg, c), k).afferent
  {
    var ctx := Ctx(c.name, env);
    var s := Start(reg, c);
    ClassOtherRecords(ctx, s, c);
    VisitedSets(env, reg, c);
  }

  /** Each class analysis adds one child to its superclass's record and none elsewhere. */
  lemma NocStep(env: Environment, reg: map<string, ClassMetrics>, c: JavaClass, k: string)
    ensures Entry(AnalyzeClass(env, reg, c), k).noc
            == Entry(reg, k).noc + (if k == c.superclassName then 1 else 0)
  {
    if k == c.name {
      OwnCountsAfterAnalysis(env, reg, c);
    } else {
      OtherRecordsAfterAnalysis(env, reg, c);
    }
  }

  /** Number of classes whose superclass is `k`. */
  function Subclasses(cs: seq<JavaClass>, k: string): nat
    decreases |cs|
  {
    if |cs| == 0 then 0
    else Subclasses(cs[..|cs| - 1], k) + (if cs[|cs| - 1].superclassName == k then 1 else 0)
  }

  /** After a run, the child count of every record has grown by the number of analysed
      classes that name it as their superclass. */
  lemma {:induction false} NocAfterAll(env: Environment, reg: map<string, ClassMetrics>, cs: seq<JavaClass>, k: string)
    ensures Entry(AnalyzeAll(env, reg, cs), k).noc == Entry(reg, k).noc + Subclasses(cs, k)
    decreases |cs|
  {
    if |cs| > 0 {
      NocAfterAll(env, reg, cs[..|cs| - 1], k);
      NocStep(env, AnalyzeAll(env, reg, cs[..|cs| - 1]), cs[|cs| - 1], k);
    }
  }

  lemma {:induction false} SubclassesAppend(a: seq<JavaClass>, b: seq<JavaClass>, k: string)
    ensures Subclasses(a + b, k) == Subclasses(a, k) + Subclasses(b, k)
    decreases |b|
  {
    if |b| == 0 {
      assert a + b == a;
    } else {
      assert (a + b)[..|a + b| - 1] == a + b[..|b| - 1];
      SubclassesAppend(a, b[..|b| - 1], k);
    }
  }

  /** Taking one class out of a sequence takes its contribution out of the count. */
  lemma SubclassesRemove(ds: seq<JavaClass>, j: nat, k: string)
    requires j < |ds|
    ensures Subclasses(ds, k)
            == Subclasses(ds[..j] + ds[j + 1..], k) + (if ds[j].superclassName == k then 1 else 0)
  {
    var x := ds[j];
    assert ds == ds[..j] + [x] + ds[j + 1..];
    SubclassesAppend(ds[..j] + [x], ds[j + 1..], k);
    SubclassesAppend(ds[..j], [x], k);
    SubclassesAppend(ds[..j], ds[j + 1..], k);
    assert Subclasses([x], k) == (if x.superclassName == k then 1 else 0) by {
      assert [x][..0] == [];
    }
  }

  /** Removing the same class from two permutations of each other leaves permutations. */
  lemma PermutationRemove(cs: seq<JavaClass>, ds: seq<JavaClass>, j: nat)
    requires multiset(cs) == multiset(ds) && |cs| > 0
    requires j < |ds| && ds[j] == cs[|cs| - 1]
    ensures multiset(cs[..|cs| - 1]) == multiset(ds[..j] + ds[j + 1..])
  {
    var p, x, rest := cs[..|cs| - 1], cs[|cs| - 1], ds[..j] + ds[j + 1..];
    assert cs == p + [x];
    assert ds == ds[..j] + [x] + ds[j + 1..];
    forall y
      ensures multiset(p)[y] == multiset(rest)[y]
    {
      assert multiset(p)[y] + multiset([x])[y] == multiset(cs)[y] == multiset(ds)[y];
      assert multiset(ds)[y] == multiset(ds[..j])[y] + multiset([x])[y] + multiset(ds[j + 1..])[y];
    }
    assert multiset(p) == multiset(rest);
  }

  /** The number of subclasses does not depend on the order of the classes. */
  lemma {:induction false} SubclassesPermutation(cs: seq<JavaClass>, ds: seq<JavaClass>, k: string)
    requires multiset(cs) == multiset(ds)
    ensures Subclasses(cs, k) == Subclasses(ds, k)
    decreases |cs|
  {
    if |cs| == 0 {
      assert |ds| == |multiset(ds)| == 0;
    } else {
      var x := cs[|cs| - 1];
      assert x in multiset(ds);
      var j :| 0 <= j < |ds| && ds[j] == x;
      PermutationRemove(cs, ds, j);
      SubclassesPermutation(cs[..|cs| - 1], ds[..j] + ds[j + 1..], k);
      SubclassesRemove(ds, j, k);
    }
  }

  /** The child counts a run leaves do not depend on the order in which the classes are
      analysed. */
  lemma NocOrderIrrelevant(env: Environment, reg: map<string, ClassMetrics>, cs: seq<JavaClass>, ds: seq<JavaClass>, k: string)
    requires multiset(cs) == multiset(ds)
    ensures Entry(AnalyzeAll(env, reg, cs), k).noc == Entry(AnalyzeAll(env, reg, ds), k).noc
  {
    NocAfterAll(env, reg, cs, k);
    NocAfterAll(env, reg, ds, k);
    SubclassesPermutation(cs, ds, k);
  }

  /** Number of methods of the analysed classes named `k`. */
  function MethodsOf(cs: seq<JavaClass>, k: string): nat
    decreases |cs|
  {
    if |cs| == 0 then 0
    else MethodsOf(cs[..|cs| - 1], k) + (if cs[|cs| - 1].name == k then |cs[|cs| - 1].methods| else 0)
  }

  /** After a run, WMC of every record has grown by the number of methods visited for that
      class; a class analysed once from a fresh record has WMC equal to its method count. */
  lemma {:induction false} WmcAfterAll(env: Environment, reg: map<string, ClassMetrics>, cs: seq<JavaClass>, k: string)
    ensures Entry(AnalyzeAll(env, reg, cs), k).wmc == Entry(reg, k).wmc + MethodsOf(cs, k)
    decreases |cs|
  {
    if |cs| > 0 {
      var p, c := cs[..|cs| - 1], cs[|cs| - 1];
      WmcAfterAll(env, reg, p, k);
      if k == c.name {
        OwnCountsAfterAnalysis(env, AnalyzeAll(env, reg, p), c);
      } else {
        OtherRecordsAfterAnalysis(env, AnalyzeAll(env, reg, p), c);
      }
    }
  }

  /** A class analysis marks its own record visited and no other. */
  lemma VisitedStep(env: Environment, reg: map<string, ClassMetrics>, c: JavaClass, k: string)
    ensures Entry(AnalyzeClass(env, reg, c), k).visited <==> Entry(reg, k).visited || k == c.name
  {
    if k == c.name {
      OwnCountsAfterAnalysis(env, reg, c);
    } else {
      OtherRecordsAfterAnalysis(env, reg, c);
    }
  }

  /** The names of the analysed classes. */
  function ClassNames(cs: seq<JavaClass>): set<string> {
    set c | c in cs :: c.name
  }

  lemma ClassNamesLast(cs: seq<JavaClass>)
    requires |cs| > 0
    ensures ClassNames(cs) == ClassNames(cs[..|cs| - 1]) + {cs[|cs| - 1].name}
  {
    var p := cs[..|cs| - 1];
    assert cs == p + [cs[|cs| - 1]];
    forall n | n in ClassNames(cs)
      ensures n in ClassNames(p) + {cs[|cs| - 1].name}
    {
      var c :| c in cs && c.name == n;
      if c != cs[|cs| - 1] {
        assert c in p;
      }
    }
  }

  /** After a run, a record is marked visited exactly when it was before or some analysed
      class has its name. */
  lemma {:induction false} VisitedAfterAll(env: Environment, reg: map<string, ClassMetrics>, cs: seq<JavaClass>, k: string)
    ensures Entry(AnalyzeAll(env, reg, cs), k).visited <==> Entry(reg, k).visited || k in ClassNames(cs)
    decreases |cs|
  {
    if |cs| > 0 {
      var p, c := cs[..|cs| - 1], cs[|cs| - 1];
      VisitedAfterAll(env, reg, p, k);
      VisitedStep(env, AnalyzeAll(env, reg, p), c, k);
      ClassNamesLast(cs);
    }
  }

  /** A class that was only referenced during a run (coupled to, or extended) and never
      analysed is not reported, whatever its afferent set or child count. */
  lemma ReferencedOnlyNotReported(env: Environment, reg: map<string, ClassMetrics>, cs: seq<JavaClass>, k: string, includeAll: bool)
    requires !Entry(reg, k).visited
    requires forall c :: c in cs ==> c.name != k
    ensures k in AnalyzeAll(env, reg, cs) ==> !ShouldReport(AnalyzeAll(env, reg, cs)[k], includeAll)
  {
    VisitedAfterAll(env, reg, cs, k);
  }
}
