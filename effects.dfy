/** What each step inside one method visit does to the analyser's transient sets and to
    the shared registry, written as functions from the state before to the state after.
    The imperative visitors are proved to follow these functions exactly. Every such step
    only adds names to sets; `Absorb` is the reference definition of such a step, and each
    step function is shown equal to one `Absorb`. */
module Effects {
  import opened Bytecode
  import opened Naming
  import opened Registry

  /** Collaborators fixed for a run: whether platform classes count as coupling targets,
      which names are platform classes, and which opcodes have a shared operand-free
      instruction instance in the decoder's table. */
  datatype Environment = Environment(
    jdkIncluded: bool,
    isJdkClass: string -> bool,
    inInstructionTable: int -> bool)

  /** The class being analysed, and the run's collaborators. */
  datatype Ctx = Ctx(self: string, env: Environment)

  /** The state one class analysis works on: the classes it couples to (CBO), the method
      signatures it can reach (RFC), one field set per visited method (LCOM), and the
      shared registry. */
  datatype Tally = Tally(
    efferent: set<string>,
    responses: set<string>,
    fieldUsage: seq<set<string>>,
    registry: map<string, ClassMetrics>)

  /** The coupling gate: never the class itself, and platform classes only when included. */
  predicate Couples(ctx: Ctx, name: string) {
    (ctx.env.jdkIncluded || !ctx.env.isJdkClass(name)) && name != ctx.self
  }

  /** The names of a set that pass the coupling gate. */
  function Coupled(ctx: Ctx, names: set<string>): (r: set<string>)
    ensures r <= names && ctx.self !in r
    ensures forall n :: n in names ==> (n in r <==> Couples(ctx, n))
  {
    set n | n in names && Couples(ctx, n)
  }

  /** The gate is applied name by name, so it distributes over union. */
  lemma CoupledUnion(ctx: Ctx, a: set<string>, b: set<string>)
    ensures Coupled(ctx, a + b) == Coupled(ctx, a) + Coupled(ctx, b)
  {
  }

  /** The class names a sequence of types couples to. */
  function TypeNames(ts: seq<Type>): set<string> {
    set t | t in ts :: GetClassName(t)
  }

  /** The field set of the most recently opened method, extended by `fields`. */
  function AddToLast(u: seq<set<string>>, fields: set<string>): (r: seq<set<string>>)
    ensures |r| == |u|
    ensures |u| > 0 ==> r[..|u| - 1] == u[..|u| - 1] && r[|u| - 1] == u[|u| - 1] + fields
    ensures |u| == 0 ==> r == u
  {
    if |u| == 0 then u else u[|u| - 1 := u[|u| - 1] + fields]
  }

  /** Adding no fields leaves the field sets as they are. */
  lemma AddToLastNothing(u: seq<set<string>>)
    ensures AddToLast(u, {}) == u
  {
    if |u| > 0 {
      assert u[|u| - 1] + {} == u[|u| - 1];
    }
  }

  /** Adding fields twice is adding their union. */
  lemma AddToLastThen(u: seq<set<string>>, f1: set<string>, f2: set<string>)
    ensures AddToLast(AddToLast(u, f1), f2) == AddToLast(u, f1 + f2)
  {
    if |u| > 0 {
      assert u[|u| - 1] + f1 + f2 == u[|u| - 1] + (f1 + f2);
    }
  }

  /** The record of another class changes only by gaining afferent names. */
  predicate OnlyAfferentGrows(a: ClassMetrics, b: ClassMetrics) {
    b == a.(afferent := b.afferent) && a.afferent <= b.afferent
  }

  /** What every step of an analysis keeps: the sets only grow, the class never becomes
      coupled to itself, every newly coupled class records this class as afferent, keys
      are never removed, and other classes' records only gain afferent names. */
  ghost predicate Grows(ctx: Ctx, s: Tally, r: Tally) {
    && s.efferent <= r.efferent
    && ctx.self !in r.efferent - s.efferent
    && (forall k :: k in r.efferent && k !in s.efferent ==> ctx.self in Entry(r.registry, k).afferent)
    && s.responses <= r.responses
    && s.registry.Keys <= r.registry.Keys
    && (forall k :: k != ctx.self ==> OnlyAfferentGrows(Entry(s.registry, k), Entry(r.registry, k)))
  }

  /** A step inside one method: it grows the state, leaves the class's own record alone,
      and touches at most the field set of the currently open method. */
  ghost predicate InMethodStep(ctx: Ctx, s: Tally, r: Tally) {
    && Grows(ctx, s, r)
    && Entry(r.registry, ctx.self) == Entry(s.registry, ctx.self)
    && |r.fieldUsage| == |s.fieldUsage|
    && (|s.fieldUsage| > 0 ==> r.fieldUsage[..|s.fieldUsage| - 1] == s.fieldUsage[..|s.fieldUsage| - 1])
  }

  lemma GrowsTrans(ctx: Ctx, a: Tally, b: Tally, c: Tally)
    requires Grows(ctx, a, b) && Grows(ctx, b, c)
    ensures Grows(ctx, a, c)
  {
    forall k | k in c.efferent && k !in a.efferent
      ensures ctx.self in Entry(c.registry, k).afferent
    {
      if k in b.efferent {
        assert OnlyAfferentGrows(Entry(b.registry, k), Entry(c.registry, k));
      }
    }
    forall k | k != ctx.self
      ensures OnlyAfferentGrows(Entry(a.registry, k), Entry(c.registry, k))
    {
      assert OnlyAfferentGrows(Entry(a.registry, k), Entry(b.registry, k));
      assert OnlyAfferentGrows(Entry(b.registry, k), Entry(c.registry, k));
    }
  }

  /** Reference definition of a step: couple to the names that pass the gate (recording
      this class in their afferent sets), add the responses, and add the fields to the
      open method's field set. */
  function Absorb(ctx: Ctx, s: Tally, names: set<string>, responses: set<string>, fields: set<string>): Tally {
    var c := Coupled(ctx, names);
    Tally(s.efferent + c, s.responses + responses, AddToLast(s.fieldUsage, fields),
          AddAfferentAll(s.registry, c, ctx.self))
  }

  /** A record after this class is recorded as afferent of the `targets`: it gains the
      class's name when it is one of them, and is otherwise unchanged. */
  function Marked(e: ClassMetrics, k: string, targets: set<string>, self: string): (r: ClassMetrics)
    ensures OnlyAfferentGrows(e, r)
    ensures r.afferent == e.afferent + (if k in targets then {self} else {})
  {
    if k in targets then e.(afferent := e.afferent + {self}) else e
  }

  /** Marking for two sets of targets in turn is marking for their union. */
  lemma MarkedThen(e: ClassMetrics, k: string, a: set<string>, b: set<string>, self: string)
    ensures Marked(Marked(e, k, a, self), k, b, self) == Marked(e, k, a + b, self)
  {
    if k in a && k in b {
      assert e.afferent + {self} + {self} == e.afferent + {self};
    }
  }

  /** A reference step changes the registry in one way only: every name that passes the
      gate gains a record if it had none, and gains this class in its afferent set; every
      other record is unchanged. */
  lemma AbsorbRecords(ctx: Ctx, s: Tally, names: set<string>, responses: set<string>, fields: set<string>)
    ensures var r := Absorb(ctx, s, names, responses, fields);
      && r.registry.Keys == s.registry.Keys + Coupled(ctx, names)
      && forall k :: Entry(r.registry, k) == Marked(Entry(s.registry, k), k, Coupled(ctx, names), ctx.self)
  {
    var c := Coupled(ctx, names);
    var r := Absorb(ctx, s, names, responses, fields);
    forall k ensures Entry(r.registry, k) == Marked(Entry(s.registry, k), k, c, ctx.self) {
      if k in c {
        assert Entry(r.registry, k) == Entry(s.registry, k).(afferent := Entry(s.registry, k).afferent + {ctx.self});
      } else {
        assert Entry(r.registry, k) == Entry(s.registry, k);
      }
    }
  }

  /** Absorbing nothing changes nothing. */
  lemma AbsorbNothing(ctx: Ctx, s: Tally)
    ensures Absorb(ctx, s, {}, {}, {}) == s
  {
    AddAfferentNone(s.registry, ctx.self);
    AddToLastNothing(s.fieldUsage);
  }

  /** Absorbing twice is absorbing the unions. */
  lemma AbsorbThen(ctx: Ctx, s: Tally, n1: set<string>, r1: set<string>, f1: set<string>,
                   n2: set<string>, r2: set<string>, f2: set<string>)
    ensures Absorb(ctx, Absorb(ctx, s, n1, r1, f1), n2, r2, f2) == Absorb(ctx, s, n1 + n2, r1 + r2, f1 + f2)
  {
    CoupledUnion(ctx, n1, n2);
    AddAfferentAllThen(s.registry, Coupled(ctx, n1), Coupled(ctx, n2), ctx.self);
    AddToLastThen(s.fieldUsage, f1, f2);
  }

  /** Every absorbing step is an in-method growth step. */
  lemma AbsorbStep(ctx: Ctx, s: Tally, names: set<string>, responses: set<string>, fields: set<string>)
    ensures InMethodStep(ctx, s, Absorb(ctx, s, names, responses, fields))
  {
    var c := Coupled(ctx, names);
    var r := Absorb(ctx, s, names, responses, fields);
    forall k | k != ctx.self
      ensures OnlyAfferentGrows(Entry(s.registry, k), Entry(r.registry, k))
    {
    }
  }

  /** registerCoupling(name): when the gate passes, `name` joins the efferent set and this
      class joins the afferent set of `name`'s record, created if absent; otherwise
      nothing changes. No other record changes either way. */
  function AfterCoupling(ctx: Ctx, s: Tally, name: string): (r: Tally)
    ensures r.efferent == if Couples(ctx, name) then s.efferent + {name} else s.efferent
    ensures Couples(ctx, name) ==> name in r.registry && ctx.self in r.registry[name].afferent
    ensures !Couples(ctx, name) ==> r == s
    ensures forall k :: k != name ==> Entry(r.registry, k) == Entry(s.registry, k)
    ensures r.responses == s.responses && r.fieldUsage == s.fieldUsage
  {
    if Couples(ctx, name) then
      s.(efferent := s.efferent + {name}, registry := AddAfferent(s.registry, name, ctx.self))
    else s
  }

  /** registerCoupling is absorbing one name. */
  lemma CouplingAsAbsorb(ctx: Ctx, s: Tally, name: string)
    ensures AfterCoupling(ctx, s, name) == Absorb(ctx, s, {name}, {}, {})
  {
    if Couples(ctx, name) {
      assert Coupled(ctx, {name}) == {name};
      AddAfferentIsAll(s.registry, name, ctx.self);
      AddToLastNothing(s.fieldUsage);
    } else {
      assert Coupled(ctx, {name}) == {};
      AbsorbNothing(ctx, s);
    }
  }

  /** Coupling one more name after a step is one step with that name added. */
  lemma CouplingStep(ctx: Ctx, s: Tally, names: set<string>, x: string)
    ensures AfterCoupling(ctx, Absorb(ctx, s, names, {}, {}), x) == Absorb(ctx, s, names + {x}, {}, {})
  {
    CouplingAsAbsorb(ctx, Absorb(ctx, s, names, {}, {}), x);
    AbsorbThen(ctx, s, names, {}, {}, {x}, {}, {});
  }

  /** registerCoupling applied to each name in turn. */
  function AfterCouplings(ctx: Ctx, s: Tally, names: seq<string>): Tally
    decreases |names|
  {
    if |names| == 0 then s
    else AfterCoupling(ctx, AfterCouplings(ctx, s, names[..|names| - 1]), names[|names| - 1])
  }

  lemma NamesLast(names: seq<string>, p: seq<string>, x: string)
    requires names == p + [x]
    ensures (set n | n in names) == (set n | n in p) + {x}
  {
  }

  lemma TypeNamesLast(ts: seq<Type>)
    requires |ts| > 0
    ensures TypeNames(ts) == TypeNames(ts[..|ts| - 1]) + {GetClassName(ts[|ts| - 1])}
  {
    var p := ts[..|ts| - 1];
    assert ts == p + [ts[|ts| - 1]];
    forall n | n in TypeNames(ts)
      ensures n in TypeNames(p) + {GetClassName(ts[|ts| - 1])}
    {
      var t :| t in ts && GetClassName(t) == n;
      if t != ts[|ts| - 1] {
        assert t in p;
      }
    }
  }

  /** Coupling a sequence of names is absorbing the set of its names. */
  lemma {:induction false} CouplingsAsAbsorb(ctx: Ctx, s: Tally, names: seq<string>)
    ensures AfterCouplings(ctx, s, names) == Absorb(ctx, s, set n | n in names, {}, {})
    decreases |names|
  {
    if |names| == 0 {
      AbsorbNothing(ctx, s);
      assert (set n | n in names) == {};
    } else {
      var p, x := names[..|names| - 1], names[|names| - 1];
      CouplingsAsAbsorb(ctx, s, p);
      CouplingStep(ctx, s, (set n | n in p), x);
      NamesLast(names, p, x);
    }
  }

  /** registerCoupling(Type) applied to each type in turn. */
  function AfterTypeCouplings(ctx: Ctx, s: Tally, ts: seq<Type>): Tally
    decreases |ts|
  {
    if |ts| == 0 then s
    else AfterCoupling(ctx, AfterTypeCouplings(ctx, s, ts[..|ts| - 1]), GetClassName(ts[|ts| - 1]))
  }

  /** Coupling a sequence of types is absorbing the set of their class names. */
  lemma {:induction false} TypeCouplingsAsAbsorb(ctx: Ctx, s: Tally, ts: seq<Type>)
    ensures AfterTypeCouplings(ctx, s, ts) == Absorb(ctx, s, TypeNames(ts), {}, {})
    decreases |ts|
  {
    if |ts| == 0 {
      AbsorbNothing(ctx, s);
      assert TypeNames(ts) == {};
    } else {
      var p, x := ts[..|ts| - 1], GetClassName(ts[|ts| - 1]);
      TypeCouplingsAsAbsorb(ctx, s, p);
      CouplingStep(ctx, s, TypeNames(p), x);
      TypeNamesLast(ts);
    }
  }

  /** registerFieldAccess(owner, field): couple to the owner; a field of this class joins
      the field set of the open method. The list keeps its length and every earlier set. */
  function AfterFieldAccess(ctx: Ctx, s: Tally, owner: string, field: string): (r: Tally)
    ensures r.responses == s.responses
    ensures |r.fieldUsage| == |s.fieldUsage|
    ensures owner != ctx.self ==> r.fieldUsage == s.fieldUsage
    ensures |s.fieldUsage| > 0 ==> r.fieldUsage[..|s.fieldUsage| - 1] == s.fieldUsage[..|s.fieldUsage| - 1]
    ensures owner == ctx.self && |s.fieldUsage| > 0 ==>
              r.fieldUsage[|s.fieldUsage| - 1] == s.fieldUsage[|s.fieldUsage| - 1] + {field}
  {
    var c := AfterCoupling(ctx, s, owner);
    if owner == ctx.self then c.(fieldUsage := AddToLast(c.fieldUsage, {field})) else c
  }

  lemma FieldAccessAsAbsorb(ctx: Ctx, s: Tally, owner: string, field: string)
    ensures AfterFieldAccess(ctx, s, owner, field)
            == Absorb(ctx, s, {owner}, {}, if owner == ctx.self then {field} else {})
  {
    CouplingAsAbsorb(ctx, s, owner);
    if owner == ctx.self {
      assert Coupled(ctx, {owner}) == {};
      AddAfferentNone(s.registry, ctx.self);
    }
  }

  /** registerMethodInvocation(owner, name, args): couple to the owner, and add the
      signature to the response set whether or not the owner passed the gate. */
  function AfterInvocation(ctx: Ctx, s: Tally, owner: string, methodName: string, args: seq<Type>): (r: Tally)
    ensures r.responses == s.responses + {Signature(owner, methodName, args)}
    ensures r.efferent == s.efferent + Coupled(ctx, {owner})
    ensures r.fieldUsage == s.fieldUsage
  {
    var c := AfterCoupling(ctx, s, owner);
    c.(responses := c.responses + {Signature(owner, methodName, args)})
  }

  lemma InvocationAsAbsorb(ctx: Ctx, s: Tally, owner: string, methodName: string, args: seq<Type>)
    ensures AfterInvocation(ctx, s, owner, methodName, args)
            == Absorb(ctx, s, {owner}, {Signature(owner, methodName, args)}, {})
  {
    CouplingAsAbsorb(ctx, s, owner);
  }

  /** isVisitableInstruction: the opcode has a shared operand-free instance in the decoder's
      table, and the instruction neither pushes a constant nor returns. Such instructions
      carry nothing the metrics need, so the scan dispatches exactly the instructions this
      predicate rejects. */
  function IsVisitableInstruction(env: Environment, i: Instruction): (b: bool)
    ensures i.Return? || i.ConstantPush? ==> !b
    ensures !env.inInstructionTable(i.opcode) ==> !b
  {
    env.inInstructionTable(i.opcode) && !i.ConstantPush? && !i.Return?
  }

  /** The handler of each instruction kind. */
  function AfterInstruction(ctx: Ctx, s: Tally, i: Instruction): Tally {
    match i
    case LocalVariable(op, t) =>
      if op != IINC then AfterCoupling(ctx, s, GetClassName(t)) else s
    case ArrayElement(_, t) => AfterCoupling(ctx, s, GetClassName(t))
    case FieldAccess(_, owner, field, t) =>
      AfterCoupling(ctx, AfterFieldAccess(ctx, s, owner, field), GetClassName(t))
    case Invoke(_, owner, name, args, ret) =>
      var c := AfterCoupling(ctx, AfterTypeCouplings(ctx, s, args), GetClassName(ret));
      AfterInvocation(ctx, c, owner, name, args)
    case InstanceOf(_, t) => AfterCoupling(ctx, s, GetClassName(t))
    case CheckCast(_, t) => AfterCoupling(ctx, s, GetClassName(t))
    case Return(_, t) => AfterCoupling(ctx, s, GetClassName(t))
    case ConstantPush(_) => s
    case Other(_) => s
  }

  /** The class names an instruction's handler couples to. */
  function InstructionNames(i: Instruction): set<string> {
    match i
    case LocalVariable(op, t) => if op == IINC then {} else {GetClassName(t)}
    case ArrayElement(_, t) => {GetClassName(t)}
    case FieldAccess(_, owner, _, t) => {owner, GetClassName(t)}
    case Invoke(_, owner, _, args, ret) => TypeNames(args) + {GetClassName(ret), owner}
    case InstanceOf(_, t) => {GetClassName(t)}
    case CheckCast(_, t) => {GetClassName(t)}
    case Return(_, t) => {GetClassName(t)}
    case ConstantPush(_) => {}
    case Other(_) => {}
  }

  /** The signatures an instruction's handler adds to the response set. */
  function InstructionResponses(i: Instruction): set<string> {
    if i.Invoke? then {Signature(i.owner, i.methodName, i.argumentTypes)} else {}
  }

  /** The fields of the class itself an instruction's handler records as used. */
  function InstructionFields(ctx: Ctx, i: Instruction): set<string> {
    if i.FieldAccess? && i.owner == ctx.self then {i.fieldName} else {}
  }

  lemma FieldInstructionAsAbsorb(ctx: Ctx, s: Tally, i: Instruction)
    requires i.FieldAccess?
    ensures AfterInstruction(ctx, s, i)
            == Absorb(ctx, s, InstructionNames(i), InstructionResponses(i), InstructionFields(ctx, i))
  {
    var f: set<string> := if i.owner == ctx.self then {i.fieldName} else {};
    var t := GetClassName(i.fieldType);
    FieldAccessAsAbsorb(ctx, s, i.owner, i.fieldName);
    CouplingAsAbsorb(ctx, AfterFieldAccess(ctx, s, i.owner, i.fieldName), t);
    AbsorbThen(ctx, s, {i.owner}, {}, f, {t}, {}, {});
    assert f + {} == f;
    assert {i.owner} + {t} == InstructionNames(i);
  }

  lemma InvokeInstructionAsAbsorb(ctx: Ctx, s: Tally, i: Instruction)
    requires i.Invoke?
    ensures AfterInstruction(ctx, s, i)
            == Absorb(ctx, s, InstructionNames(i), InstructionResponses(i), InstructionFields(ctx, i))
  {
    var sig := Signature(i.owner, i.methodName, i.argumentTypes);
    var ret := GetClassName(i.returnType);
    var a := AfterTypeCouplings(ctx, s, i.argumentTypes);
    var c := AfterCoupling(ctx, a, ret);
    TypeCouplingsAsAbsorb(ctx, s, i.argumentTypes);
    CouplingAsAbsorb(ctx, a, ret);
    AbsorbThen(ctx, s, TypeNames(i.argumentTypes), {}, {}, {ret}, {}, {});
    InvocationAsAbsorb(ctx, c, i.owner, i.methodName, i.argumentTypes);
    AbsorbThen(ctx, s, TypeNames(i.argumentTypes) + {ret}, {}, {}, {i.owner}, {sig}, {});
    assert TypeNames(i.argumentTypes) + {ret} + {i.owner} == InstructionNames(i);
    assert {} + {sig} == InstructionResponses(i);
  }

  /** Each instruction handler adds exactly its instruction's names, responses and fields:
      IINC and constant pushes nothing, a field access its owner and field type (and the
      field, for a field of this class), an invocation its argument, return and owner
      classes and its signature, every other kind its one operand type. */
  lemma InstructionAsAbsorb(ctx: Ctx, s: Tally, i: Instruction)
    ensures AfterInstruction(ctx, s, i)
            == Absorb(ctx, s, InstructionNames(i), InstructionResponses(i), InstructionFields(ctx, i))
  {
    match i
    case LocalVariable(op, t) =>
      if op == IINC { AbsorbNothing(ctx, s); } else { CouplingAsAbsorb(ctx, s, GetClassName(t)); }
    case ArrayElement(_, t) => CouplingAsAbsorb(ctx, s, GetClassName(t));
    case FieldAccess(_, owner, field, t) => FieldInstructionAsAbsorb(ctx, s, i);
    case Invoke(_, _, _, _, _) => InvokeInstructionAsAbsorb(ctx, s, i);
    case InstanceOf(_, t) => CouplingAsAbsorb(ctx, s, GetClassName(t));
    case CheckCast(_, t) => CouplingAsAbsorb(ctx, s, GetClassName(t));
    case Return(_, t) => CouplingAsAbsorb(ctx, s, GetClassName(t));
    case ConstantPush(_) => AbsorbNothing(ctx, s);
    case Other(_) => AbsorbNothing(ctx, s);
  }

  /** The instruction scan: every instruction in program order, handed to its handler when
      isVisitableInstruction rejects it. */
  function AfterCode(ctx: Ctx, s: Tally, code: seq<Instruction>): Tally
    decreases |code|
  {
    if |code| == 0 then s
    else
      var p := AfterCode(ctx, s, code[..|code| - 1]);
      var i := code[|code| - 1];
      if !IsVisitableInstruction(ctx.env, i) then AfterInstruction(ctx, p, i) else p
  }

  /** The names, responses and fields of the instructions a scan dispatches. */
  function CodeNames(env: Environment, code: seq<Instruction>): set<string>
    decreases |code|
  {
    if |code| == 0 then {}
    else
      var i := code[|code| - 1];
      CodeNames(env, code[..|code| - 1]) + if !IsVisitableInstruction(env, i) then InstructionNames(i) else {}
  }

  function CodeResponses(env: Environment, code: seq<Instruction>): set<string>
    decreases |code|
  {
    if |code| == 0 then {}
    else
      var i := code[|code| - 1];
      CodeResponses(env, code[..|code| - 1]) + if !IsVisitableInstruction(env, i) then InstructionResponses(i) else {}
  }

  function CodeFields(ctx: Ctx, code: seq<Instruction>): set<string>
    decreases |code|
  {
    if |code| == 0 then {}
    else
      var i := code[|code| - 1];
      CodeFields(ctx, code[..|code| - 1]) + if !IsVisitableInstruction(ctx.env, i) then InstructionFields(ctx, i) else {}
  }

  /** The instruction scan is absorbing the names, responses and fields of the instructions
      it dispatches. */
  lemma {:induction false} CodeAsAbsorb(ctx: Ctx, s: Tally, code: seq<Instruction>)
    ensures AfterCode(ctx, s, code)
            == Absorb(ctx, s, CodeNames(ctx.env, code), CodeResponses(ctx.env, code), CodeFields(ctx, code))
    decreases |code|
  {
    if |code| == 0 {
      AbsorbNothing(ctx, s);
    } else {
      var p, i := code[..|code| - 1], code[|code| - 1];
      CodeAsAbsorb(ctx, s, p);
      var n, r, f := CodeNames(ctx.env, p), CodeResponses(ctx.env, p), CodeFields(ctx, p);
      if !IsVisitableInstruction(ctx.env, i) {
        InstructionAsAbsorb(ctx, AfterCode(ctx, s, p), i);
        AbsorbThen(ctx, s, n, r, f, InstructionNames(i), InstructionResponses(i), InstructionFields(ctx, i));
      } else {
        assert n + {} == n && r + {} == r && f + {} == f;
      }
    }
  }

  /** One exception handler: couple to its catch type; a catch-all handler does nothing. */
  function AfterHandler(ctx: Ctx, s: Tally, h: CodeException): (r: Tally)
    ensures h.catchType.None? ==> r == s
    ensures h.catchType.Some? ==> r.efferent == s.efferent + Coupled(ctx, {GetClassName(h.catchType.value)})
  {
    match h.catchType
    case None => s
    case Some(t) => AfterCoupling(ctx, s, GetClassName(t))
  }

  /** The exception handlers of a method, in order. */
  function AfterHandlers(ctx: Ctx, s: Tally, hs: seq<CodeException>): Tally
    decreases |hs|
  {
    if |hs| == 0 then s
    else AfterHandler(ctx, AfterHandlers(ctx, s, hs[..|hs| - 1]), hs[|hs| - 1])
  }

  /** The catch types of the handlers that have one. */
  function CatchNames(hs: seq<CodeException>): set<string> {
    set h | h in hs && h.catchType.Some? :: GetClassName(h.catchType.value)
  }

  lemma CatchNamesLast(hs: seq<CodeException>, p: seq<CodeException>, h: CodeException)
    requires hs == p + [h]
    ensures CatchNames(hs) == CatchNames(p) + (if h.catchType.Some? then {GetClassName(h.catchType.value)} else {})
  {
    forall n | n in CatchNames(hs)
      ensures n in CatchNames(p) + (if h.catchType.Some? then {GetClassName(h.catchType.value)} else {})
    {
      var g :| g in hs && g.catchType.Some? && GetClassName(g.catchType.value) == n;
      if g != h {
        assert g in p;
      }
    }
  }

  /** The handler loop is absorbing the set of catch-type names. */
  lemma {:induction false} HandlersAsAbsorb(ctx: Ctx, s: Tally, hs: seq<CodeException>)
    ensures AfterHandlers(ctx, s, hs) == Absorb(ctx, s, CatchNames(hs), {}, {})
    decreases |hs|
  {
    if |hs| == 0 {
      AbsorbNothing(ctx, s);
      assert CatchNames(hs) == {};
    } else {
      var p, h := hs[..|hs| - 1], hs[|hs| - 1];
      HandlersAsAbsorb(ctx, s, p);
      CatchNamesLast(hs, p, h);
      match h.catchType
      case None =>
        assert CatchNames(hs) == CatchNames(p);
      case Some(t) =>
        CouplingStep(ctx, s, CatchNames(p), GetClassName(t));
    }
  }

  /** The body of a method: nothing for an abstract or native method; otherwise the
      instruction scan followed by the exception handlers. */
  function AfterBody(ctx: Ctx, s: Tally, m: Method): (r: Tally)
    ensures m.isAbstract || m.isNative ==> r == s
  {
    if m.isAbstract || m.isNative then s
    else AfterHandlers(ctx, AfterCode(ctx, s, m.code), m.handlers)
  }

  /** The class names a method body couples to: those of the instructions the scan
      dispatches and the catch types; none for an abstract or native method. */
  function BodyNames(env: Environment, m: Method): set<string> {
    if m.isAbstract || m.isNative then {} else CodeNames(env, m.code) + CatchNames(m.handlers)
  }

  /** The signatures a method body adds to the response set. */
  function BodyResponses(env: Environment, m: Method): set<string> {
    if m.isAbstract || m.isNative then {} else CodeResponses(env, m.code)
  }

  /** The fields of the class itself a method body uses. */
  function BodyFields(ctx: Ctx, m: Method): set<string> {
    if m.isAbstract || m.isNative then {} else CodeFields(ctx, m.code)
  }

  /** The body of a method is absorbing what its dispatched instructions and its catch
      types contribute. */
  lemma BodyAsAbsorb(ctx: Ctx, s: Tally, m: Method)
    ensures AfterBody(ctx, s, m) == Absorb(ctx, s, BodyNames(ctx.env, m), BodyResponses(ctx.env, m), BodyFields(ctx, m))
  {
    if m.isAbstract || m.isNative {
      AbsorbNothing(ctx, s);
    } else {
      var c := AfterCode(ctx, s, m.code);
      var n, r, f := CodeNames(ctx.env, m.code), CodeResponses(ctx.env, m.code), CodeFields(ctx, m.code);
      CodeAsAbsorb(ctx, s, m.code);
      HandlersAsAbsorb(ctx, c, m.handlers);
      AbsorbThen(ctx, s, n, r, f, CatchNames(m.handlers), {}, {});
      assert r + {} == r && f + {} == f;
    }
  }

  /** The body of a method is an in-method growth step: it only adds coupled classes and
      responses, and fields to the open method's set. */
  lemma BodyStep(ctx: Ctx, s: Tally, m: Method)
    ensures InMethodStep(ctx, s, AfterBody(ctx, s, m))
  {
    BodyAsAbsorb(ctx, s, m);
    AbsorbStep(ctx, s, BodyNames(ctx.env, m), BodyResponses(ctx.env, m), BodyFields(ctx, m));
  }
}
