/** A stand-alone exception-handler pass: couples a class analyser to the catch type of
    every handler that has one. It is proved against the same function `AfterHandlers` as
    the method analyser's own handler loop, so the two have the same effect. */
module ExceptionHandlers {
  import opened Bytecode
  import opened Effects
  import opened Visitors

  class ExceptionHandler {
    const classVisitor: ClassVisitor

    constructor(classVisitor: ClassVisitor)
      ensures this.classVisitor == classVisitor
    {
      this.classVisitor := classVisitor;
    }

    /** Couples to the catch type of each handler in turn; catch-all handlers are skipped. */
    method UpdateHandlers(handlers: seq<CodeException>)
      modifies classVisitor, classVisitor.registry
      ensures classVisitor.State() == AfterHandlers(classVisitor.Context(), old(classVisitor.State()), handlers)
    {
      ghost var s := classVisitor.State();
      var k := 0;
      while k < |handlers|
        invariant 0 <= k <= |handlers|
        invariant classVisitor.State() == AfterHandlers(classVisitor.Context(), s, handlers[..k])
      {
        var handler := handlers[k];
        match handler.catchType {
          case Some(t) => classVisitor.RegisterTypeCoupling(t);
          case None =>
        }
        assert handlers[..k + 1][..k] == handlers[..k];
        k := k + 1;
      }
      assert handlers[..k] == handlers;
    }
  }
}
