/** What visiting a method, visiting a whole class and the final accounting do to the
    analyser's state and to the shared registry. */
module ClassEffects {
  import opened Bytecode
  import opened Naming
  import opened Registry
  import opened Cohesion
  import opened Effects

  /** The record of a class after one more method: WMC up by one, NPM up by one for a
      public method. */
  function CountMethod(e: ClassMetrics, isPublic: bool): ClassMetrics {
    e.(wmc := e.wmc + 1, npm := if isPublic then e.npm + 1 else e.npm)
  }

  /** The class names a method's signature couples to: its return type, its argument
      types and its declared exceptions. */
  function SignatureNames(m: Method): set<string> {
    {GetClassName(m.returnType)} + TypeNames(m.argumentTypes) + (set e | e in m.exceptions)
  }

  /** The couplings at the start of visitMethod: the return type, then each argument type,
      then each declared exception. */
  function MethodCouplings(ctx: Ctx, s: Tally, m: Method): Tally {
    var s1 := AfterCoupling(ctx, s, GetClassName(m.returnType));
    AfterCouplings(ctx, AfterTypeCouplings(ctx, s1, m.argumentTypes), m.exceptions)
  }

  lemma MethodCouplingsAsAbsorb(ctx: Ctx, s: Tally, m: Method)
    ensures MethodCouplings(ctx, s, m) == Absorb(ctx, s, SignatureNames(m), {}, {})
  {
    var ret := {GetClassName(m.returnType)};
    var s1 := AfterCoupling(ctx, s, GetClassName(m.returnType));
    var s2 := AfterTypeCouplings(ctx, s1, m.argumentTypes);
    CouplingAsAbsorb(ctx, s, GetClassName(m.returnType));
    TypeCouplingsAsAbsorb(ctx, s1, m.argumentTypes);
    AbsorbThen(ctx, s, ret, {}, {}, TypeNames(m.argumentTypes), {}, {});
    CouplingsAsAbsorb(ctx, s2, m.exceptions);
    AbsorbThen(ctx, s, ret + TypeNames(m.argumentTypes), {}, {}, set e | e in m.exceptions, {}, {});
  }

  /** The part of visitMethod before the body scan: the signature couplings, the method's
      own signature as a response, the method counted, and its field set opened. */
  function OpenMethod(ctx: Ctx, s: Tally, m: Method): Tally {
    var c := MethodCouplings(ctx, s, m);
    c.(responses := c.responses + {Signature(ctx.self, m.name, m.argumentTypes)},
       registry := c.registry[ctx.self := CountMethod(Entry(c.registry, ctx.self), m.isPublic)],
       fieldUsage := c.fieldUsage + [{}])
  }

  /** visitMethod: the header part, then the body scan. */
  function AfterMethod(ctx: Ctx, s: Tally, m: Method): Tally {
    AfterBody(ctx, OpenMethod(ctx, s, m), m)
  }

  /** Writing the class's own record and adding responses is a growth step. */
  lemma OwnRecordGrows(ctx: Ctx, s: Tally, r: Tally, e: ClassMetrics)
    requires r.efferent == s.efferent && s.responses <= r.responses
    requires r.registry == s.registry[ctx.self := e]
    ensures Grows(ctx, s, r)
  {
    forall k | k != ctx.self
      ensures OnlyAfferentGrows(Entry(s.registry, k), Entry(r.registry, k))
    {
      assert Entry(s.registry, k) == Entry(r.registry, k);
    }
  }

  /** The header of visitMethod grows the state, adds the method's own signature, counts
      the method on the class's own record and appends one empty field set. */
  lemma OpenMethodEffect(ctx: Ctx, s: Tally, m: Method)
    ensures var o := OpenMethod(ctx, s, m);
      && Grows(ctx, s, o)
      && Signature(ctx.self, m.name, m.argumentTypes) in o.responses
      && ctx.self in o.registry
      && Entry(o.registry, ctx.self) == CountMethod(Entry(s.registry, ctx.self), m.isPublic)
      && o.fieldUsage == s.fieldUsage + [{}]
  {
    var c := MethodCouplings(ctx, s, m);
    var o := OpenMethod(ctx, s, m);
    MethodCouplingsAsAbsorb(ctx, s, m);
    AbsorbStep(ctx, s, SignatureNames(m), {}, {});
    AddToLastNothing(s.fieldUsage);
    OwnRecordGrows(ctx, c, o, CountMethod(Entry(c.registry, ctx.self), m.isPublic));
    GrowsTrans(ctx, s, c, o);
  }

  /** The class names visiting a method couples to: the types of its signature and what
      its body refers to. */
  function MethodNames(env: Environment, m: Method): set<string> {
    SignatureNames(m) + BodyNames(env, m)
  }

  /** The signatures visiting a method adds: its own, and those its body invokes. */
  function MethodResponses(ctx: Ctx, m: Method): set<string> {
    {Signature(ctx.self, m.name, m.argumentTypes)} + BodyResponses(ctx.env, m)
  }

  /** visitMethod on the registry: the names of the method that pass the gate gain this
      class as afferent (and a record if they had none), the class's own record is looked
      up, and no other record changes. */
  lemma MethodRecords(ctx: Ctx, s: Tally, m: Method)
    ensures var r := AfterMethod(ctx, s, m);
      && r.registry.Keys == s.registry.Keys + {ctx.self} + Coupled(ctx, MethodNames(ctx.env, m))
      && forall k :: k != ctx.self ==>
           Entry(r.registry, k) == Marked(Entry(s.registry, k), k, Coupled(ctx, MethodNames(ctx.env, m)), ctx.self)
  {
    var c := MethodCouplings(ctx, s, m);
    var o := OpenMethod(ctx, s, m);
    var a, b := Coupled(ctx, SignatureNames(m)), Coupled(ctx, BodyNames(ctx.env, m));
    MethodCouplingsAsAbsorb(ctx, s, m);
    AbsorbRecords(ctx, s, SignatureNames(m), {}, {});
    BodyAsAbsorb(ctx, o, m);
    AbsorbRecords(ctx, o, BodyNames(ctx.env, m), BodyResponses(ctx.env, m), BodyFields(ctx, m));
    CoupledUnion(ctx, SignatureNames(m), BodyNames(ctx.env, m));
    forall k | k != ctx.self
      ensures Entry(AfterMethod(ctx, s, m).registry, k) == Marked(Entry(s.registry, k), k, a + b, ctx.self)
    {
      assert Entry(o.registry, k) == Entry(c.registry, k);
      MarkedThen(Entry(s.registry, k), k, a, b, ctx.self);
    }
  }

  /** visitMethod grows the state, couples exactly the method's names that pass the gate
      and records this class as afferent of exactly those names, adds exactly its own signature and the signatures its body invokes, raises WMC by one
      and NPM by one for a public method, and appends exactly one field set: the fields of
      this class the body uses, and none for an abstract or native method. */
  lemma MethodEffect(ctx: Ctx, s: Tally, m: Method)
    ensures var r := AfterMethod(ctx, s, m);
      && Grows(ctx, s, r)
      && r.efferent == s.efferent + Coupled(ctx, MethodNames(ctx.env, m))
      && r.responses == s.responses + MethodResponses(ctx, m)
      && Signature(ctx.self, m.name, m.argumentTypes) in r.responses
      && ctx.self in r.registry
      && Entry(r.registry, ctx.self) == CountMethod(Entry(s.registry, ctx.self), m.isPublic)
      && r.registry.Keys == s.registry.Keys + {ctx.self} + Coupled(ctx, MethodNames(ctx.env, m))
      && (forall k :: k != ctx.self ==>
            Entry(r.registry, k) == Marked(Entry(s.registry, k), k, Coupled(ctx, MethodNames(ctx.env, m)), ctx.self))
      && r.fieldUsage == s.fieldUsage + [BodyFields(ctx, m)]
      && |r.fieldUsage| == |s.fieldUsage| + 1 && r.fieldUsage[..|s.fieldUsage|] == s.fieldUsage
      && (m.isAbstract || m.isNative ==> r.fieldUsage[|s.fieldUsage|] == {})
      && (!m.isAbstract && !m.isNative ==> r.fieldUsage[|s.fieldUsage|] == CodeFields(ctx, m.code))
  {
    var o := OpenMethod(ctx, s, m);
    var r := AfterMethod(ctx, s, m);
    var f := BodyFields(ctx, m);
    OpenMethodEffect(ctx, s, m);
    MethodCouplingsAsAbsorb(ctx, s, m);
    BodyStep(ctx, o, m);
    BodyAsAbsorb(ctx, o, m);
    CoupledUnion(ctx, SignatureNames(m), BodyNames(ctx.env, m));
    assert r.fieldUsage == s.fieldUsage + [f] by {
      assert o.fieldUsage == s.fieldUsage + [{}];
      assert {} + f == f;
    }
    assert r.fieldUsage[..|s.fieldUsage|] == s.fieldUsage;
    GrowsTrans(ctx, s, o, r);
    MethodRecords(ctx, s, m);
  }

  /** Number of public methods. */
  function PublicCount(ms: seq<Method>): (n: nat)
    ensures n <= |ms|
    decreases |ms|
  {
    if |ms| == 0 then 0
    else PublicCount(ms[..|ms| - 1]) + (if ms[|ms| - 1].isPublic then 1 else 0)
  }

  /** The methods of a class, in order. */
  function AfterMethods(ctx: Ctx, s: Tally, ms: seq<Method>): Tally
    decreases |ms|
  {
    if |ms| == 0 then s else AfterMethod(ctx, AfterMethods(ctx, s, ms[..|ms| - 1]), ms[|ms| - 1])
  }

  /** The class names visiting a list of methods couples to. */
  function MethodsNames(env: Environment, ms: seq<Method>): set<string>
    decreases |ms|
  {
    if |ms| == 0 then {} else MethodsNames(env, ms[..|ms| - 1]) + MethodNames(env, ms[|ms| - 1])
  }

  /** The signatures visiting a list of methods adds. */
  function MethodsResponses(ctx: Ctx, ms: seq<Method>): set<string>
    decreases |ms|
  {
    if |ms| == 0 then {} else MethodsResponses(ctx, ms[..|ms| - 1]) + MethodResponses(ctx, ms[|ms| - 1])
  }

  /** The field sets of a list of methods: one per method, in order, each the fields of
      this class its body uses. */
  function MethodsFieldUsage(ctx: Ctx, ms: seq<Method>): (u: seq<set<string>>)
    ensures |u| == |ms|
    ensures forall k :: 0 <= k < |ms| ==> u[k] == BodyFields(ctx, ms[k])
    decreases |ms|
  {
    if |ms| == 0 then [] else MethodsFieldUsage(ctx, ms[..|ms| - 1]) + [BodyFields(ctx, ms[|ms| - 1])]
  }

  /** Visiting a list of methods couples exactly their names that pass the gate, adds
      exactly their signatures and invoked signatures, and appends their field sets in
      order. */
  lemma {:induction false} MethodsExact(ctx: Ctx, s: Tally, ms: seq<Method>)
    ensures var r := AfterMethods(ctx, s, ms);
      && r.efferent == s.efferent + Coupled(ctx, MethodsNames(ctx.env, ms))
      && r.responses == s.responses + MethodsResponses(ctx, ms)
      && r.fieldUsage == s.fieldUsage + MethodsFieldUsage(ctx, ms)
    decreases |ms|
  {
    if |ms| == 0 {
      assert s.fieldUsage + [] == s.fieldUsage;
    } else {
      var q, m := ms[..|ms| - 1], ms[|ms| - 1];
      MethodsExact(ctx, s, q);
      MethodEffect(ctx, AfterMethods(ctx, s, q), m);
      CoupledUnion(ctx, MethodsNames(ctx.env, q), MethodNames(ctx.env, m));
      assert s.fieldUsage + MethodsFieldUsage(ctx, q) + [BodyFields(ctx, m)] == s.fieldUsage + MethodsFieldUsage(ctx, ms);
    }
  }

  /** Visiting a list of methods records this class as afferent of exactly the methods'
      names that pass the gate, and changes no other record but the class's own. */
  lemma {:induction false} MethodsRecords(ctx: Ctx, s: Tally, ms: seq<Method>)
    ensures var r := AfterMethods(ctx, s, ms);
      && r.registry.Keys == s.registry.Keys + (if |ms| == 0 then {} else {ctx.self}) + Coupled(ctx, MethodsNames(ctx.env, ms))
      && forall k :: k != ctx.self ==>
           Entry(r.registry, k) == Marked(Entry(s.registry, k), k, Coupled(ctx, MethodsNames(ctx.env, ms)), ctx.self)
    decreases |ms|
  {
    if |ms| == 0 {
      assert Coupled(ctx, {}) == {};
    } else {
      var q, m := ms[..|ms| - 1], ms[|ms| - 1];
      var p := AfterMethods(ctx, s, q);
      var a, b := Coupled(ctx, MethodsNames(ctx.env, q)), Coupled(ctx, MethodNames(ctx.env, m));
      MethodsRecords(ctx, s, q);
      MethodRecords(ctx, p, m);
      CoupledUnion(ctx, MethodsNames(ctx.env, q), MethodNames(ctx.env, m));
      forall k | k != ctx.self
        ensures Entry(AfterMethods(ctx, s, ms).registry, k) == Marked(Entry(s.registry, k), k, a + b, ctx.self)
      {
        MarkedThen(Entry(s.registry, k), k, a, b, ctx.self);
      }
    }
  }

  /** Visiting the methods of a class grows the state and appends one field set per
      method after the existing ones. */
  lemma {:induction false} MethodsGrow(ctx: Ctx, s: Tally, ms: seq<Method>)
    ensures var r := AfterMethods(ctx, s, ms);
      && Grows(ctx, s, r)
      && |r.fieldUsage| == |s.fieldUsage| + |ms| && r.fieldUsage[..|s.fieldUsage|] == s.fieldUsage
    decreases |ms|
  {
    var r := AfterMethods(ctx, s, ms);
    if |ms| > 0 {
      var q := ms[..|ms| - 1];
      var p := AfterMethods(ctx, s, q);
      MethodsGrow(ctx, s, q);
      MethodEffect(ctx, p, ms[|ms| - 1]);
      GrowsTrans(ctx, s, p, r);
      assert r.fieldUsage[..|s.fieldUsage|] == r.fieldUsage[..|p.fieldUsage|][..|s.fieldUsage|];
    }
  }

  /** Every visited method's own signature is in the response set. */
  lemma {:induction false} MethodsRespond(ctx: Ctx, s: Tally, ms: seq<Method>)
    ensures forall k :: 0 <= k < |ms| ==>
              Signature(ctx.self, ms[k].name, ms[k].argumentTypes) in AfterMethods(ctx, s, ms).responses
    decreases |ms|
  {
    if |ms| > 0 {
      var q := ms[..|ms| - 1];
      var p := AfterMethods(ctx, s, q);
      var r := AfterMethods(ctx, s, ms);
      MethodsRespond(ctx, s, q);
      MethodEffect(ctx, p, ms[|ms| - 1]);
      assert p.responses <= r.responses;
      forall k | 0 <= k < |ms|
        ensures Signature(ctx.self, ms[k].name, ms[k].argumentTypes) in r.responses
      {
        if k < |q| {
          assert q[k] == ms[k];
        } else {
          assert k == |ms| - 1;
        }
      }
    }
  }

  /** Visiting the methods of a class raises WMC by the number of methods and NPM by the
      number of public ones, and changes no other count of the class's own record. */
  lemma {:induction false} MethodsCount(ctx: Ctx, s: Tally, ms: seq<Method>)
    ensures var r := AfterMethods(ctx, s, ms);
      && (ctx.self in s.registry || |ms| > 0 ==> ctx.self in r.registry)
      && Entry(r.registry, ctx.self)
         == Entry(s.registry, ctx.self).(wmc := Entry(s.registry, ctx.self).wmc + |ms|,
                                          npm := Entry(s.registry, ctx.self).npm + PublicCount(ms))
    decreases |ms|
  {
    if |ms| > 0 {
      var q := ms[..|ms| - 1];
      var p, m := AfterMethods(ctx, s, q), ms[|ms| - 1];
      MethodsCount(ctx, s, q);
      OpenMethodEffect(ctx, p, m);
      BodyStep(ctx, OpenMethod(ctx, p, m), m);
      assert PublicCount(ms) == PublicCount(q) + (if ms[|ms| - 1].isPublic then 1 else 0);
    }
  }

  /** visitField for each field: couple to the field's declared type. */
  function AfterFields(ctx: Ctx, s: Tally, fs: seq<Field>): Tally
    decreases |fs|
  {
    if |fs| == 0 then s
    else AfterCoupling(ctx, AfterFields(ctx, s, fs[..|fs| - 1]), GetClassName(fs[|fs| - 1].fieldType))
  }

  /** The class names the declared types of some fields couple to. */
  function FieldTypeNames(fs: seq<Field>): set<string> {
    set f | f in fs :: GetClassName(f.fieldType)
  }

  lemma FieldTypeNamesLast(fs: seq<Field>)
    requires |fs| > 0
    ensures FieldTypeNames(fs) == FieldTypeNames(fs[..|fs| - 1]) + {GetClassName(fs[|fs| - 1].fieldType)}
  {
    var p := fs[..|fs| - 1];
    assert fs == p + [fs[|fs| - 1]];
    forall n | n in FieldTypeNames(fs)
      ensures n in FieldTypeNames(p) + {GetClassName(fs[|fs| - 1].fieldType)}
    {
      var f :| f in fs && GetClassName(f.fieldType) == n;
      if f != fs[|fs| - 1] {
        assert f in p;
      }
    }
  }

  lemma {:induction false} FieldsAsAbsorb(ctx: Ctx, s: Tally, fs: seq<Field>)
    ensures AfterFields(ctx, s, fs) == Absorb(ctx, s, FieldTypeNames(fs), {}, {})
    decreases |fs|
  {
    if |fs| == 0 {
      AbsorbNothing(ctx, s);
      assert FieldTypeNames(fs) == {};
    } else {
      var p, x := fs[..|fs| - 1], GetClassName(fs[|fs| - 1].fieldType);
      FieldsAsAbsorb(ctx, s, p);
      CouplingStep(ctx, s, FieldTypeNames(p), x);
      FieldTypeNamesLast(fs);
    }
  }

  /** The record of the class itself once its class-level facts are in: visited, public if
      the class is, and the ancestor count when the decoder could resolve it. */
  function MarkVisited(e: ClassMetrics, c: JavaClass): ClassMetrics {
    var v := e.(visited := true, isPublic := e.isPublic || c.isPublic);
    match c.superclassCount
    case Some(d) => v.(dit := d)
    case None => v
  }

  /** One more child on the record of `k` exactly when `k` is the superclass. */
  function WithChild(e: ClassMetrics, k: string, c: JavaClass): ClassMetrics {
    e.(noc := e.noc + if k == c.superclassName then 1 else 0)
  }

  /** The class-level bookkeeping at the start of visitJavaClass: mark the class visited
      (and public), add a child to the superclass's record (created if absent), and set
      DIT when the ancestor chain could be resolved. */
  function EnterClass(ctx: Ctx, s: Tally, c: JavaClass): (r: Tally)
    ensures r.efferent == s.efferent && r.responses == s.responses && r.fieldUsage == s.fieldUsage
    ensures r.registry.Keys == s.registry.Keys + {ctx.self, c.superclassName}
    ensures forall k :: k != ctx.self ==> Entry(r.registry, k) == WithChild(Entry(s.registry, k), k, c)
    ensures Entry(r.registry, ctx.self) == WithChild(MarkVisited(Entry(s.registry, ctx.self), c), ctx.self, c)
  {
    var own := Entry(s.registry, ctx.self);
    var m1 := s.registry[ctx.self := own.(visited := true, isPublic := own.isPublic || c.isPublic)];
    var m2 := IncNoc(m1, c.superclassName);
    var m3 := match c.superclassCount
              case Some(d) => m2[ctx.self := Entry(m2, ctx.self).(dit := d)]
              case None => m2;
    s.(registry := m3)
  }

  /** The state after the class-level couplings, before the first method: the superclass,
      then each interface, then each field's type. */
  function BeforeMethods(ctx: Ctx, s: Tally, c: JavaClass): Tally {
    var h := AfterCoupling(ctx, EnterClass(ctx, s, c), c.superclassName);
    AfterFields(ctx, AfterCouplings(ctx, h, c.interfaceNames), c.fields)
  }

  /** visitJavaClass: the class-level bookkeeping and couplings, then every method. */
  function AfterClass(ctx: Ctx, s: Tally, c: JavaClass): Tally {
    AfterMethods(ctx, BeforeMethods(ctx, s, c), c.methods)
  }

  /** The class-level coupling targets: the superclass, the interfaces, the field types. */
  function ClassLevelNames(c: JavaClass): set<string> {
    {c.superclassName} + (set n | n in c.interfaceNames) + FieldTypeNames(c.fields)
  }

  /** The class-level couplings absorb exactly the class-level names. */
  lemma BeforeMethodsAsAbsorb(ctx: Ctx, s: Tally, c: JavaClass)
    ensures BeforeMethods(ctx, s, c) == Absorb(ctx, EnterClass(ctx, s, c), ClassLevelNames(c), {}, {})
  {
    var h := EnterClass(ctx, s, c);
    var h1 := AfterCoupling(ctx, h, c.superclassName);
    var h2 := AfterCouplings(ctx, h1, c.interfaceNames);
    var i := set n | n in c.interfaceNames;
    CouplingAsAbsorb(ctx, h, c.superclassName);
    CouplingsAsAbsorb(ctx, h1, c.interfaceNames);
    AbsorbThen(ctx, h, {c.superclassName}, {}, {}, i, {}, {});
    FieldsAsAbsorb(ctx, h2, c.fields);
    AbsorbThen(ctx, h, {c.superclassName} + i, {}, {}, FieldTypeNames(c.fields), {}, {});
  }

  /** visitJavaClass on the class's own record: visited, public if the class is, DIT set
      when resolvable, WMC up by the number of methods and NPM by the public ones, and a
      child more only if the class names itself as superclass. Nothing else changes. */
  lemma ClassOwnRecord(ctx: Ctx, s: Tally, c: JavaClass)
    ensures var e := Entry(s.registry, ctx.self);
      Entry(AfterClass(ctx, s, c).registry, ctx.self)
      == WithChild(MarkVisited(e, c), ctx.self, c).(wmc := e.wmc + |c.methods|, npm := e.npm + PublicCount(c.methods))
    ensures ctx.self in AfterClass(ctx, s, c).registry
  {
    var h := EnterClass(ctx, s, c);
    BeforeMethodsAsAbsorb(ctx, s, c);
    AbsorbStep(ctx, h, ClassLevelNames(c), {}, {});
    MethodsCount(ctx, BeforeMethods(ctx, s, c), c.methods);
  }

  /** visitJavaClass on every other record: the superclass gains exactly one child (and
      a record if it had none), every name of the class that passes the gate gains this
      class as afferent (and a record), and nothing else changes. */
  lemma ClassOtherRecords(ctx: Ctx, s: Tally, c: JavaClass)
    ensures var r, n := AfterClass(ctx, s, c), Coupled(ctx, ClassCouplingNames(ctx.env, c));
      && r.registry.Keys == s.registry.Keys + {ctx.self, c.superclassName} + n
      && forall k :: k != ctx.self ==>
           Entry(r.registry, k) == Marked(WithChild(Entry(s.registry, k), k, c), k, n, ctx.self)
  {
    var h := EnterClass(ctx, s, c);
    var b := BeforeMethods(ctx, s, c);
    var x, y := Coupled(ctx, ClassLevelNames(c)), Coupled(ctx, MethodsNames(ctx.env, c.methods));
    BeforeMethodsAsAbsorb(ctx, s, c);
    AbsorbRecords(ctx, h, ClassLevelNames(c), {}, {});
    MethodsRecords(ctx, b, c.methods);
    CoupledUnion(ctx, ClassLevelNames(c), MethodsNames(ctx.env, c.methods));
    forall k | k != ctx.self
      ensures Entry(AfterClass(ctx, s, c).registry, k) == Marked(WithChild(Entry(s.registry, k), k, c), k, x + y, ctx.self)
    {
      MarkedThen(WithChild(Entry(s.registry, k), k, c), k, x, y, ctx.self);
    }
  }

  /** Every class name visiting a class couples to: the class-level names and those of
      every method. */
  function ClassCouplingNames(env: Environment, c: JavaClass): set<string> {
    ClassLevelNames(c) + MethodsNames(env, c.methods)
  }

  /** The transient sets after visitJavaClass, exactly. */
  lemma ClassSets(ctx: Ctx, s: Tally, c: JavaClass)
    ensures var r := AfterClass(ctx, s, c);
      && r.efferent == s.efferent + Coupled(ctx, ClassCouplingNames(ctx.env, c))
      && r.responses == s.responses + MethodsResponses(ctx, c.methods)
      && r.fieldUsage == s.fieldUsage + MethodsFieldUsage(ctx, c.methods)
  {
    BeforeMethodsAsAbsorb(ctx, s, c);
    AddToLastNothing(s.fieldUsage);
    MethodsExact(ctx, BeforeMethods(ctx, s, c), c.methods);
    CoupledUnion(ctx, ClassLevelNames(c), MethodsNames(ctx.env, c.methods));
  }

  /** visitJavaClass on the transient sets: the efferent set gains exactly the class's
      names that pass the gate, the response set gains exactly the methods' own and invoked
      signatures, and one field set per method is appended, in order, holding the fields of
      this class that method's body uses. Every newly coupled class records this one as
      afferent, and the class never couples to itself. */
  lemma ClassTransients(ctx: Ctx, s: Tally, c: JavaClass)
    ensures var r := AfterClass(ctx, s, c);
      && r.efferent == s.efferent + Coupled(ctx, ClassCouplingNames(ctx.env, c))
      && r.responses == s.responses + MethodsResponses(ctx, c.methods)
      && r.fieldUsage == s.fieldUsage + MethodsFieldUsage(ctx, c.methods)
      && ctx.self !in r.efferent - s.efferent
      && (forall k :: k in r.efferent && k !in s.efferent ==> ctx.self in Entry(r.registry, k).afferent)
      && (forall m :: m in c.methods ==> Signature(ctx.self, m.name, m.argumentTypes) in r.responses)
  {
    var h := EnterClass(ctx, s, c);
    var b := BeforeMethods(ctx, s, c);
    var r := AfterClass(ctx, s, c);
    ClassSets(ctx, s, c);
    BeforeMethodsAsAbsorb(ctx, s, c);
    AbsorbStep(ctx, h, ClassLevelNames(c), {}, {});
    MethodsGrow(ctx, b, c.methods);
    MethodsRespond(ctx, b, c.methods);
    GrowsTrans(ctx, h, b, r);
    forall m | m in c.methods
      ensures Signature(ctx.self, m.name, m.argumentTypes) in r.responses
    {
      var k :| 0 <= k < |c.methods| && c.methods[k] == m;
    }
  }

  /** end: CBO becomes the size of the efferent set, RFC the size of the response set, and
      LCOM the pair counter over the field sets floored at zero. */
  function AfterEnd(ctx: Ctx, s: Tally): (r: Tally)
    ensures r.efferent == s.efferent && r.responses == s.responses && r.fieldUsage == s.fieldUsage
    ensures forall k :: k != ctx.self ==> Entry(r.registry, k) == Entry(s.registry, k)
    ensures r.registry.Keys == s.registry.Keys + {ctx.self}
    ensures var e := Entry(r.registry, ctx.self);
      && e.cbo == |s.efferent| && e.rfc == |s.responses| && e.lcom == Lcom(s.fieldUsage)
      && e == Entry(s.registry, ctx.self).(cbo := e.cbo, rfc := e.rfc, lcom := e.lcom)
  {
    var own := Entry(s.registry, ctx.self);
    s.(registry := s.registry[ctx.self := own.(cbo := |s.efferent|, rfc := |s.responses|, lcom := Lcom(s.fieldUsage))])
  }
}
