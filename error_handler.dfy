/** The last middleware: turns an error handed on by a handler into a JSON
    reply, hiding its details in production. */
module ErrorHandler {
  import opened Wrappers
  import opened Js

  /** The parts of an error the handler reads; None is an undefined
      property. A status code of 0 is falsy like an absent one. */
  datatype Error = Error(statusCode: Option<int>, message: Prop, stack: Prop)

  /** The JSON body: `message` and `stack` are None where the body holds
      null or leaves the property out. */
  datatype Body = Body(success: bool, message: Prop, stack: Prop)

  datatype Reply = Reply(status: int, body: Body)

  const InternalMessage := "Internal Server Error"

  /** NODE_ENV is exactly "production". */
  predicate Production(nodeEnv: Prop) {
    nodeEnv == Some("production")
  }

  /** `err.statusCode || 500`. */
  function Status(err: Error): (status: int)
    ensures status != 0
    ensures err.statusCode.Some? && err.statusCode.value != 0 ==> status == err.statusCode.value
    ensures err.statusCode.None? || err.statusCode.value == 0 ==> status == 500
  {
    if err.statusCode.Some? && err.statusCode.value != 0 then err.statusCode.value else 500
  }

  /** errorHandler, given the value of NODE_ENV. */
  function Handle(err: Error, nodeEnv: Prop): (r: Reply)
    ensures r.status == Status(err)
    ensures !r.body.success
    ensures Production(nodeEnv) ==> r.body.message == Some(InternalMessage) && r.body.stack.None?
    ensures !Production(nodeEnv) ==> r.body.message == err.message && r.body.stack == err.stack
  {
    if Production(nodeEnv) then Reply(Status(err), Body(false, Some(InternalMessage), None))
    else Reply(Status(err), Body(false, err.message, err.stack))
  }

  /** In production two errors with the same status get the same reply: the
      body carries nothing of the error's message or stack. */
  lemma {:induction false} ProductionHidesDetails(a: Error, b: Error, nodeEnv: Prop)
    requires Production(nodeEnv) && Status(a) == Status(b)
    ensures Handle(a, nodeEnv) == Handle(b, nodeEnv)
  {
  }

  /** Outside production the reply distinguishes errors whose messages or
      stacks differ. */
  lemma {:induction false} DevelopmentShowsDetails(a: Error, b: Error, nodeEnv: Prop)
    requires !Production(nodeEnv) && (a.message != b.message || a.stack != b.stack)
    ensures Handle(a, nodeEnv) != Handle(b, nodeEnv)
  {
  }

  /** Only production differs from every other setting of NODE_ENV, including
      an unset one or "Production". */
  lemma {:induction false} OnlyExactProduction()
    ensures !Production(None) && !Production(Some("Production")) && !Production(Some("development"))
  {
    assert "Production"[0] != "production"[0];
  }
}
