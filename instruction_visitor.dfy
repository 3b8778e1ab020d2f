/** A stand-alone instruction visitor: the seven instruction handlers of the method
    analyser, calling back into a class analyser. Each handler leaves the class analyser in
    the state the matching `MethodVisitor` handler leaves it in, since both are proved
    against the same function `AfterInstruction`. */
module InstructionVisitors {
  import opened Bytecode
  import opened Effects
  import opened Visitors

  class InstructionVisitor {
    const classVisitor: ClassVisitor

    constructor(classVisitor: ClassVisitor)
      ensures this.classVisitor == classVisitor
    {
      this.classVisitor := classVisitor;
    }

    /** IINC couples to nothing; any other local-variable instruction to its type. */
    method VisitLocalVariableInstruction(i: Instruction)
      requires i.LocalVariable?
      modifies classVisitor, classVisitor.registry
      ensures classVisitor.State() == AfterInstruction(classVisitor.Context(), old(classVisitor.State()), i)
    {
      if i.opcode != IINC {
        classVisitor.RegisterTypeCoupling(i.localType);
      }
    }

    method VisitArrayInstruction(i: Instruction)
      requires i.ArrayElement?
      modifies classVisitor, classVisitor.registry
      ensures classVisitor.State() == AfterInstruction(classVisitor.Context(), old(classVisitor.State()), i)
    {
      classVisitor.RegisterTypeCoupling(i.elementType);
    }

    /** The field access is recorded for its owner, then the field's type is coupled. */
    method VisitFieldInstruction(i: Instruction)
      requires i.FieldAccess? && (i.owner == classVisitor.className ==> |classVisitor.methodFieldUsage| > 0)
      modifies classVisitor, classVisitor.registry
      ensures classVisitor.State() == AfterInstruction(classVisitor.Context(), old(classVisitor.State()), i)
    {
      classVisitor.RegisterFieldAccess(i.owner, i.fieldName);
      classVisitor.RegisterTypeCoupling(i.fieldType);
    }

    /** Every argument type, then the return type, then the invocation itself. */
    method VisitInvokeInstruction(i: Instruction)
      requires i.Invoke?
      modifies classVisitor, classVisitor.registry
      ensures classVisitor.State() == AfterInstruction(classVisitor.Context(), old(classVisitor.State()), i)
    {
      ghost var s := classVisitor.State();
      var argTypes := i.argumentTypes;
      var k := 0;
      while k < |argTypes|
        invariant 0 <= k <= |argTypes|
        invariant classVisitor.State() == AfterTypeCouplings(classVisitor.Context(), s, argTypes[..k])
      {
        classVisitor.RegisterTypeCoupling(argTypes[k]);
        assert argTypes[..k + 1][..k] == argTypes[..k];
        k := k + 1;
      }
      assert argTypes[..k] == argTypes;
      classVisitor.RegisterTypeCoupling(i.returnType);
      classVisitor.RegisterMethodInvocation(i.owner, i.methodName, argTypes);
    }

    method VisitInstanceOf(i: Instruction)
      requires i.InstanceOf?
      modifies classVisitor, classVisitor.registry
      ensures classVisitor.State() == AfterInstruction(classVisitor.Context(), old(classVisitor.State()), i)
    {
      classVisitor.RegisterTypeCoupling(i.testedType);
    }

    method VisitCheckCast(i: Instruction)
      requires i.CheckCast?
      modifies classVisitor, classVisitor.registry
      ensures classVisitor.State() == AfterInstruction(classVisitor.Context(), old(classVisitor.State()), i)
    {
      classVisitor.RegisterTypeCoupling(i.castType);
    }

    method VisitReturnInstruction(i: Instruction)
      requires i.Return?
      modifies classVisitor, classVisitor.registry
      ensures classVisitor.State() == AfterInstruction(classVisitor.Context(), old(classVisitor.State()), i)
    {
      classVisitor.RegisterTypeCoupling(i.returnType);
    }
  }
}
