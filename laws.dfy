/** Laws of the analysis steps that follow from their set-level description: repetition
    and order do not matter, and the scan records what it dispatches. */
module EffectLaws {
  import opened Bytecode
  import opened Naming
  import opened Registry
  import opened Effects

  /** Coupling a name a second time has no further effect. */
  lemma CouplingIdempotent(ctx: Ctx, s: Tally, name: string)
    ensures AfterCoupling(ctx, AfterCoupling(ctx, s, name), name) == AfterCoupling(ctx, s, name)
  {
    CouplingAsAbsorb(ctx, s, name);
    CouplingAsAbsorb(ctx, AfterCoupling(ctx, s, name), name);
    AbsorbThen(ctx, s, {name}, {}, {}, {name}, {}, {});
    assert {name} + {name} == {name};
  }

  /** The handler loop's result does not depend on the order of the handlers. */
  lemma HandlersOrderIrrelevant(ctx: Ctx, s: Tally, a: seq<CodeException>, b: seq<CodeException>)
    requires multiset(a) == multiset(b)
    ensures AfterHandlers(ctx, s, a) == AfterHandlers(ctx, s, b)
  {
    HandlersAsAbsorb(ctx, s, a);
    HandlersAsAbsorb(ctx, s, b);
    assert forall h :: h in a <==> h in multiset(a);
    assert forall h :: h in b <==> h in multiset(b);
    assert CatchNames(a) == CatchNames(b);
  }

  /** A handler whose catch type was already seen adds nothing further. */
  lemma RepeatedCatchAddsNothing(ctx: Ctx, s: Tally, hs: seq<CodeException>, h: CodeException)
    requires h in hs
    ensures AfterHandlers(ctx, s, hs + [h]) == AfterHandlers(ctx, s, hs)
  {
    HandlersAsAbsorb(ctx, s, hs);
    HandlersAsAbsorb(ctx, s, hs + [h]);
    assert CatchNames(hs + [h]) == CatchNames(hs);
  }

  /** Every handler with a catch type ends with that type's class coupled (when the gate
      passes), and with this class recorded in the afferent set of that class's record. */
  lemma HandlersRegisterEveryCatchType(ctx: Ctx, s: Tally, hs: seq<CodeException>, t: Type)
    requires CodeException(Some(t)) in hs
    requires Couples(ctx, GetClassName(t))
    ensures GetClassName(t) in AfterHandlers(ctx, s, hs).efferent
    ensures ctx.self in Entry(AfterHandlers(ctx, s, hs).registry, GetClassName(t)).afferent
  {
    HandlersAsAbsorb(ctx, s, hs);
    assert GetClassName(t) in CatchNames(hs);
  }

  /** A dispatched instruction's names, responses and fields are among the scan's. */
  lemma {:induction false} DispatchedContributes(ctx: Ctx, code: seq<Instruction>, k: nat)
    requires k < |code| && !IsVisitableInstruction(ctx.env, code[k])
    ensures InstructionNames(code[k]) <= CodeNames(ctx.env, code)
    ensures InstructionResponses(code[k]) <= CodeResponses(ctx.env, code)
    ensures InstructionFields(ctx, code[k]) <= CodeFields(ctx, code)
    decreases |code|
  {
    if k < |code| - 1 {
      var p := code[..|code| - 1];
      assert p[k] == code[k];
      DispatchedContributes(ctx, p, k);
    }
  }

  /** After the scan, every dispatched invocation's signature is a response, every name a
      dispatched instruction refers to is coupled when the gate passes, and every field of
      this class a dispatched instruction accesses is in the open method's field set. */
  lemma ScanRecordsDispatched(ctx: Ctx, s: Tally, code: seq<Instruction>, k: nat)
    requires k < |code| && !IsVisitableInstruction(ctx.env, code[k])
    ensures var r := AfterCode(ctx, s, code);
      && InstructionResponses(code[k]) <= r.responses
      && Coupled(ctx, InstructionNames(code[k])) <= r.efferent
      && |r.fieldUsage| == |s.fieldUsage|
      && (|s.fieldUsage| > 0 ==> InstructionFields(ctx, code[k]) <= r.fieldUsage[|s.fieldUsage| - 1])
  {
    CodeAsAbsorb(ctx, s, code);
    DispatchedContributes(ctx, code, k);
  }

  /** The scan with the opposite guard: an instruction is handed to its handler when
      isVisitableInstruction accepts it. */
  function AfterCodeByName(ctx: Ctx, s: Tally, code: seq<Instruction>): (r: Tally)
    decreases |code|
  {
    if |code| == 0 then s
    else
      var p := AfterCodeByName(ctx, s, code[..|code| - 1]);
      var i := code[|code| - 1];
      if IsVisitableInstruction(ctx.env, i) then AfterInstruction(ctx, p, i) else p
  }

  /** Instructions with operands: the decoder's shared table has no instance of them. */
  predicate HasOperands(i: Instruction) {
    i.FieldAccess? || i.Invoke? || i.InstanceOf? || i.CheckCast?
  }

  /** With the opposite guard, an instruction table that holds no instruction with operands
      makes the scan blind to calls and field accesses: the response set and the field sets
      never change. This is why the scan hands over the instructions the predicate rejects. */
  lemma {:induction false} ByNameScanMissesOperands(ctx: Ctx, s: Tally, code: seq<Instruction>)
    requires forall k :: 0 <= k < |code| && HasOperands(code[k]) ==> !ctx.env.inInstructionTable(code[k].opcode)
    ensures AfterCodeByName(ctx, s, code).responses == s.responses
    ensures AfterCodeByName(ctx, s, code).fieldUsage == s.fieldUsage
    decreases |code|
  {
    if |code| > 0 {
      var p, i := code[..|code| - 1], code[|code| - 1];
      assert forall k :: 0 <= k < |p| ==> p[k] == code[k];
      ByNameScanMissesOperands(ctx, s, p);
      if IsVisitableInstruction(ctx.env, i) {
        InstructionAsAbsorb(ctx, AfterCodeByName(ctx, s, p), i);
        AddToLastNothing(AfterCodeByName(ctx, s, p).fieldUsage);
      }
    }
  }

  /** With the scan as written, an instruction without a table entry, such as an
      invocation, is always handed to its handler and its signature is a response. */
  lemma ScanRespondsToCalls(ctx: Ctx, s: Tally, code: seq<Instruction>, k: nat)
    requires k < |code| && code[k].Invoke? && !ctx.env.inInstructionTable(code[k].opcode)
    ensures Signature(code[k].owner, code[k].methodName, code[k].argumentTypes) in AfterCode(ctx, s, code).responses
  {
    ScanRecordsDispatched(ctx, s, code, k);
  }

  /** With the scan as written, a return instruction is always handed to its handler, which
      couples the class to the returned type. */
  lemma ScanCouplesReturnTypes(ctx: Ctx, s: Tally, code: seq<Instruction>, k: nat)
    requires k < |code| && code[k].Return? && Couples(ctx, GetClassName(code[k].returnType))
    ensures GetClassName(code[k].returnType) in AfterCode(ctx, s, code).efferent
  {
    ScanRecordsDispatched(ctx, s, code, k);
  }
}
