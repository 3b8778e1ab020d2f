/** The class analyser and the method analyser it creates for each method. Both work by
    changing the class analyser's three transient collections and the shared registry;
    every method is proved to leave exactly the state the matching function of `Effects`
    or `ClassEffects` describes. */
module Visitors {
  import opened Bytecode
  import opened Naming
  import opened Registry
  import opened Cohesion
  import opened Effects
  import opened ClassEffects

  /** Visits one class and updates its metrics and those of the classes it refers to. */
  class ClassVisitor {
    /** The class being visited. */
    const visitedClass: JavaClass
    /** The class's fully qualified name. */
    const className: string
    /** The registry shared by every class analysis of a run. */
    const registry: ClassMetricsContainer
    /** The run's coupling filter and the decoder's instruction table. */
    const env: Environment
    /** Classes coupled to; its size becomes CBO. */
    var efferentCoupledClasses: set<string>
    /** Signatures of the methods reachable from the class; its size becomes RFC. */
    var responseSet: set<string>
    /** One set of the class's own fields per visited method, in visiting order; drives LCOM. */
    var methodFieldUsage: seq<set<string>>

    function Context(): Ctx {
      Ctx(className, env)
    }

    /** The analyser's state as the effect functions see it. */
    ghost function State(): Tally
      reads this, registry
    {
      Tally(efferentCoupledClasses, responseSet, methodFieldUsage, registry.metrics)
    }

    /** A fresh analyser of `javaClass`; the class's own record is looked up, and so created
        when it is new. */
    constructor(javaClass: JavaClass, container: ClassMetricsContainer, env: Environment)
      modifies container
      ensures visitedClass == javaClass && className == javaClass.name
      ensures registry == container && this.env == env
      ensures State() == Tally({}, {}, [], Lookup(old(container.metrics), javaClass.name))
    {
      visitedClass := javaClass;
      className := javaClass.name;
      registry := container;
      this.env := env;
      efferentCoupledClasses := {};
      responseSet := {};
      methodFieldUsage := [];
      new;
      var classMetrics := container.GetMetrics(className);
    }

    method Start()
      modifies this, registry
      ensures State() == AfterClass(Context(), old(State()), visitedClass)
    {
      VisitJavaClass(visitedClass);
    }

    /** The class-level bookkeeping and couplings, then every field and every method. */
    method VisitJavaClass(javaClass: JavaClass)
      modifies this, registry
      ensures State() == AfterClass(Context(), old(State()), javaClass)
    {
      EnterClassRecords(javaClass);
      RegisterCoupling(javaClass.superclassName);

      ghost var h := State();
      var interfaceNames := javaClass.interfaceNames;
      var i := 0;
      while i < |interfaceNames|
        invariant 0 <= i <= |interfaceNames|
        invariant State() == AfterCouplings(Context(), h, interfaceNames[..i])
      {
        RegisterCoupling(interfaceNames[i]);
        assert interfaceNames[..i + 1][..i] == interfaceNames[..i];
        i := i + 1;
      }
      assert interfaceNames[..i] == interfaceNames;

      h := State();
      var fields := javaClass.fields;
      i := 0;
      while i < |fields|
        invariant 0 <= i <= |fields|
        invariant State() == AfterFields(Context(), h, fields[..i])
      {
        VisitField(fields[i]);
        assert fields[..i + 1][..i] == fields[..i];
        i := i + 1;
      }
      assert fields[..i] == fields;

      h := State();
      var methods := javaClass.methods;
      i := 0;
      while i < |methods|
        invariant 0 <= i <= |methods|
        invariant State() == AfterMethods(Context(), h, methods[..i])
      {
        VisitMethod(methods[i]);
        assert methods[..i + 1][..i] == methods[..i];
        i := i + 1;
      }
      assert methods[..i] == methods;
    }

    /** The class's own record is marked visited (and public for a public class) and gets
        the ancestor count when it could be resolved; the superclass's record gains a
        child. */
    method EnterClassRecords(javaClass: JavaClass)
      modifies registry
      ensures State() == EnterClass(Context(), old(State()), javaClass)
    {
      ghost var m0 := registry.metrics;
      var classMetrics := registry.GetMetrics(className);
      classMetrics := classMetrics.(visited := true);
      if javaClass.isPublic {
        classMetrics := classMetrics.(isPublic := true);
      }
      LookupThenWrite(m0, className, classMetrics);
      registry.metrics := registry.metrics[className := classMetrics];
      ghost var m1 := registry.metrics;
      var superClassMetrics := registry.GetMetrics(javaClass.superclassName);
      LookupThenWrite(m1, javaClass.superclassName, superClassMetrics.(noc := superClassMetrics.noc + 1));
      registry.metrics := registry.metrics[javaClass.superclassName := superClassMetrics.(noc := superClassMetrics.noc + 1)];
      assert registry.metrics == IncNoc(m1, javaClass.superclassName);
      match javaClass.superclassCount {
        case Some(d) =>
          ghost var m2 := registry.metrics;
          classMetrics := registry.GetMetrics(className);
          LookupThenWrite(m2, className, classMetrics.(dit := d));
          registry.metrics := registry.metrics[className := classMetrics.(dit := d)];
        case None =>
      }
    }

    /** The coupling gate: a class other than this one, and not a platform class unless
        those are included, joins the efferent set and records this class as afferent. */
    method RegisterCoupling(name: string)
      modifies this, registry
      ensures State() == AfterCoupling(Context(), old(State()), name)
    {
      if (env.jdkIncluded || !env.isJdkClass(name)) && className != name {
        efferentCoupledClasses := efferentCoupledClasses + {name};
        var target := registry.GetMetrics(name);
        registry.metrics := registry.metrics[name := target.(afferent := target.afferent + {className})];
      }
    }

    method RegisterTypeCoupling(t: Type)
      modifies this, registry
      ensures State() == AfterCoupling(Context(), old(State()), GetClassName(t))
    {
      RegisterCoupling(GetClassName(t));
    }

    /** A field access couples to its owner; a field of this class is recorded in the field
        set of the method being visited, which must exist. */
    method RegisterFieldAccess(owner: string, fieldName: string)
      requires owner == className ==> |methodFieldUsage| > 0
      modifies this, registry
      ensures State() == AfterFieldAccess(Context(), old(State()), owner, fieldName)
    {
      RegisterCoupling(owner);
      if owner == className {
        var last := |methodFieldUsage| - 1;
        methodFieldUsage := methodFieldUsage[last := methodFieldUsage[last] + {fieldName}];
      }
    }

    /** An invocation couples to its owner and adds its signature to the response set,
        whether or not the owner passes the coupling gate. */
    method RegisterMethodInvocation(owner: string, methodName: string, args: seq<Type>)
      modifies this, registry
      ensures State() == AfterInvocation(Context(), old(State()), owner, methodName, args)
    {
      RegisterCoupling(owner);
      IncrementRFC(owner, methodName, args);
    }

    method VisitField(field: Field)
      modifies this, registry
      ensures State() == AfterCoupling(Context(), old(State()), GetClassName(field.fieldType))
    {
      RegisterTypeCoupling(field.fieldType);
    }

    /** Adds one signature to the response set and changes nothing else. */
    method IncrementRFC(owner: string, methodName: string, args: seq<Type>)
      modifies this
      ensures responseSet == old(responseSet) + {Signature(owner, methodName, args)}
      ensures efferentCoupledClasses == old(efferentCoupledClasses)
      ensures methodFieldUsage == old(methodFieldUsage)
    {
      var signature := owner + "." + methodName + "(" + ArgumentList(args) + ")";
      responseSet := responseSet + {signature};
    }

    /** The signature couplings, the method's own signature, the method counts, a new field
        set for the method, and then the scan of its body. */
    method VisitMethod(m: Method)
      modifies this, registry
      ensures State() == AfterMethod(Context(), old(State()), m)
    {
      ghost var s := State();
      RegisterSignatureCouplings(m);
      IncrementRFC(className, m.name, m.argumentTypes);
      CountMethodOnRecord(m.isPublic);
      methodFieldUsage := methodFieldUsage + [{}];
      assert State() == OpenMethod(Context(), s, m);
      var methodVisitor := new MethodVisitor(m, this);
      methodVisitor.Start();
    }

    /** Couples to the return type, each argument type and each declared exception. */
    method RegisterSignatureCouplings(m: Method)
      modifies this, registry
      ensures State() == MethodCouplings(Context(), old(State()), m)
    {
      RegisterTypeCoupling(m.returnType);
      ghost var h := State();
      var argTypes := m.argumentTypes;
      var i := 0;
      while i < |argTypes|
        invariant 0 <= i <= |argTypes|
        invariant State() == AfterTypeCouplings(Context(), h, argTypes[..i])
      {
        RegisterTypeCoupling(argTypes[i]);
        assert argTypes[..i + 1][..i] == argTypes[..i];
        i := i + 1;
      }
      assert argTypes[..i] == argTypes;

      h := State();
      var exceptions := m.exceptions;
      i := 0;
      while i < |exceptions|
        invariant 0 <= i <= |exceptions|
        invariant State() == AfterCouplings(Context(), h, exceptions[..i])
      {
        RegisterCoupling(exceptions[i]);
        assert exceptions[..i + 1][..i] == exceptions[..i];
        i := i + 1;
      }
      assert exceptions[..i] == exceptions;
    }

    /** WMC up by one, and NPM up by one for a public method, on the class's own record. */
    method CountMethodOnRecord(isPublic: bool)
      modifies registry
      ensures registry.metrics == old(registry.metrics)[className := CountMethod(Entry(old(registry.metrics), className), isPublic)]
    {
      var classMetrics := registry.GetMetrics(className);
      classMetrics := classMetrics.(wmc := classMetrics.wmc + 1);
      if isPublic {
        classMetrics := classMetrics.(npm := classMetrics.npm + 1);
      }
      registry.metrics := registry.metrics[className := classMetrics];
    }

    /** Final accounting: CBO, RFC and the floored LCOM go into the class's own record. */
    method End()
      modifies registry
      ensures State() == AfterEnd(Context(), old(State()))
    {
      var classMetrics := registry.GetMetrics(className);
      classMetrics := classMetrics.(cbo := |efferentCoupledClasses|, rfc := |responseSet|);
      var lcom := CalculateLcom();
      classMetrics := classMetrics.(lcom := if lcom > 0 then lcom else 0);
      registry.metrics := registry.metrics[className := classMetrics];
    }

    /** The signed pair counter over the field sets: +1 for each pair of methods with
        disjoint field sets, -1 for each pair that shares a field. */
    method CalculateLcom() returns (lcom: int)
      ensures lcom == Counter(methodFieldUsage)
      ensures lcom == DisjointPairs(methodFieldUsage) - OverlappingPairs(methodFieldUsage)
    {
      var u := methodFieldUsage;
      lcom := 0;
      var i := 0;
      while i < |u|
        invariant 0 <= i <= |u|
        invariant lcom == RowsSum(u, i)
      {
        var j := i + 1;
        while j < |u|
          invariant i + 1 <= j <= |u|
          invariant lcom == RowsSum(u, i) + RowSum(u, i, j)
        {
          var intersection := u[i] * u[j];
          if |intersection| == 0 {
            lcom := lcom + 1;
          } else {
            lcom := lcom - 1;
          }
          j := j + 1;
        }
        i := i + 1;
      }
      CounterCountsPairs(u);
    }
  }

  /** Scans the body of one method on behalf of the class analyser. */
  class MethodVisitor {
    const methodGen: Method
    const classVisitor: ClassVisitor

    constructor(methodGen: Method, classVisitor: ClassVisitor)
      ensures this.methodGen == methodGen && this.classVisitor == classVisitor
    {
      this.methodGen := methodGen;
      this.classVisitor := classVisitor;
    }

    /** Nothing for an abstract or native method; otherwise the instructions, then the
        exception handlers. */
    method Start()
      requires |classVisitor.methodFieldUsage| > 0
      modifies classVisitor, classVisitor.registry
      ensures classVisitor.State() == AfterBody(classVisitor.Context(), old(classVisitor.State()), methodGen)
    {
      if !methodGen.isAbstract && !methodGen.isNative {
        VisitInstructions();
        UpdateExceptionHandlers();
      }
    }

    /** Every instruction in program order; an instruction is handed to its handler when
        isVisitableInstruction rejects it. (In the source the loop header is missing; the
        guard's negation is kept as written.) */
    method VisitInstructions()
      requires |classVisitor.methodFieldUsage| > 0
      modifies classVisitor, classVisitor.registry
      ensures classVisitor.State() == AfterCode(classVisitor.Context(), old(classVisitor.State()), methodGen.code)
      ensures |classVisitor.methodFieldUsage| == old(|classVisitor.methodFieldUsage|)
    {
      ghost var s := classVisitor.State();
      var code := methodGen.code;
      var k := 0;
      while k < |code|
        invariant 0 <= k <= |code|
        invariant classVisitor.State() == AfterCode(classVisitor.Context(), s, code[..k])
      {
        CodeAsAbsorb(classVisitor.Context(), s, code[..k]);
        var instruction := code[k];
        if !IsVisitableInstruction(classVisitor.env, instruction) {
          VisitInstruction(instruction);
        }
        assert code[..k + 1][..k] == code[..k];
        k := k + 1;
      }
      assert code[..k] == code;
      CodeAsAbsorb(classVisitor.Context(), s, code);
    }

    /** The handler of the instruction's kind; kinds without one are ignored. */
    method VisitInstruction(i: Instruction)
      requires |classVisitor.methodFieldUsage| > 0
      modifies classVisitor, classVisitor.registry
      ensures classVisitor.State() == AfterInstruction(classVisitor.Context(), old(classVisitor.State()), i)
    {
      match i {
        case LocalVariable(_, _) => VisitLocalVariableInstruction(i);
        case ArrayElement(_, _) => VisitArrayInstruction(i);
        case FieldAccess(_, _, _, _) => VisitFieldInstruction(i);
        case Invoke(_, _, _, _, _) => VisitInvokeInstruction(i);
        case InstanceOf(_, _) => VisitInstanceOf(i);
        case CheckCast(_, _) => VisitCheckCast(i);
        case Return(_, _) => VisitReturnInstruction(i);
        case ConstantPush(_) =>
        case Other(_) =>
      }
    }

    method VisitLocalVariableInstruction(i: Instruction)
      requires i.LocalVariable?
      modifies classVisitor, classVisitor.registry
      ensures classVisitor.State() == AfterInstruction(classVisitor.Context(), old(classVisitor.State()), i)
    {
      if i.opcode != IINC {
        classVisitor.RegisterTypeCoupling(i.localType);
      }
    }

    method VisitArrayInstruction(i: Instruction)
      requires i.ArrayElement?
      modifies classVisitor, classVisitor.registry
      ensures classVisitor.State() == AfterInstruction(classVisitor.Context(), old(classVisitor.State()), i)
    {
      classVisitor.RegisterTypeCoupling(i.elementType);
    }

    method VisitFieldInstruction(i: Instruction)
      requires i.FieldAccess? && (i.owner == classVisitor.className ==> |classVisitor.methodFieldUsage| > 0)
      modifies classVisitor, classVisitor.registry
      ensures classVisitor.State() == AfterInstruction(classVisitor.Context(), old(classVisitor.State()), i)
    {
      classVisitor.RegisterFieldAccess(i.owner, i.fieldName);
      classVisitor.RegisterTypeCoupling(i.fieldType);
    }

    method VisitInvokeInstruction(i: Instruction)
      requires i.Invoke?
      modifies classVisitor, classVisitor.registry
      ensures classVisitor.State() == AfterInstruction(classVisitor.Context(), old(classVisitor.State()), i)
    {
      ghost var s := classVisitor.State();
      var argTypes := i.argumentTypes;
      var k := 0;
      while k < |argTypes|
        invariant 0 <= k <= |argTypes|
        invariant classVisitor.State() == AfterTypeCouplings(classVisitor.Context(), s, argTypes[..k])
      {
        classVisitor.RegisterTypeCoupling(argTypes[k]);
        assert argTypes[..k + 1][..k] == argTypes[..k];
        k := k + 1;
      }
      assert argTypes[..k] == argTypes;
      classVisitor.RegisterTypeCoupling(i.returnType);
      classVisitor.RegisterMethodInvocation(i.owner, i.methodName, argTypes);
    }

    method VisitInstanceOf(i: Instruction)
      requires i.InstanceOf?
      modifies classVisitor, classVisitor.registry
      ensures classVisitor.State() == AfterInstruction(classVisitor.Context(), old(classVisitor.State()), i)
    {
      classVisitor.RegisterTypeCoupling(i.testedType);
    }

    method VisitCheckCast(i: Instruction)
      requires i.CheckCast?
      modifies classVisitor, classVisitor.registry
      ensures classVisitor.State() == AfterInstruction(classVisitor.Context(), old(classVisitor.State()), i)
    {
      classVisitor.RegisterTypeCoupling(i.castType);
    }

    method VisitReturnInstruction(i: Instruction)
      requires i.Return?
      modifies classVisitor, classVisitor.registry
      ensures classVisitor.State() == AfterInstruction(classVisitor.Context(), old(classVisitor.State()), i)
    {
      classVisitor.RegisterTypeCoupling(i.returnType);
    }

    /** Couples to the catch type of every handler that has one, in order. */
    method UpdateExceptionHandlers()
      modifies classVisitor, classVisitor.registry
      ensures classVisitor.State() == AfterHandlers(classVisitor.Context(), old(classVisitor.State()), methodGen.handlers)
    {
      ghost var s := classVisitor.State();
      var handlers := methodGen.handlers;
      var k := 0;
      while k < |handlers|
        invariant 0 <= k <= |handlers|
        invariant classVisitor.State() == AfterHandlers(classVisitor.Context(), s, handlers[..k])
      {
        var handler := handlers[k];
        match handler.catchType {
          case Some(t) => classVisitor.RegisterTypeCoupling(t);
          case None =>
        }
        assert handlers[..k + 1][..k] == handlers[..k];
        k := k + 1;
      }
      assert handlers[..k] == handlers;
    }
  }
}
