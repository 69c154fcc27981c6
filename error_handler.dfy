/** The final error middleware: every error a route passes on becomes a JSON
    reply whose status and message fall back to 500 and a generic text. */
module ErrorHandler {
  import opened Common
  import opened OrderService
  import opened ProductModel

  datatype ErrorBody = ErrorBody(success: bool, message: string, stack: Option<string>)

  datatype ErrorReply = ErrorReply(status: int, body: ErrorBody)

  const InternalError := "Internal server error"

  /** `errorHandler`. A status of 0 and an empty message stand for the falsy
      values JavaScript's `||` replaces; `stack` is the error's stack trace and
      `nodeEnv` the NODE_ENV setting. */
  function Handle(err: AppError, stack: string, nodeEnv: string): (r: ErrorReply)
    ensures r.status != 0 && r.body.message != ""
    ensures err.status != 0 ==> r.status == err.status
    ensures err.status == 0 ==> r.status == 500
    ensures err.message != "" ==> r.body.message == err.message
    ensures err.message == "" ==> r.body.message == InternalError
    ensures !r.body.success
    ensures r.body.stack.Some? <==> nodeEnv == "development"
    ensures r.body.stack.Some? ==> r.body.stack.value == stack
  {
    ErrorReply(
      if err.status != 0 then err.status else 500,
      ErrorBody(
        false,
        if err.message != "" then err.message else InternalError,
        if nodeEnv == "development" then Some(stack) else None))
  }


  /** The errors the services raise keep their status and message; a schema
      validation failure from the product model carries no status and is
      answered with 500. */
  lemma ServiceErrorsReachClient(stack: string, nodeEnv: string, products: map<Id, Product>, line: LineRequest)
    ensures Handle(ProductNotFound, stack, nodeEnv).status == 404
    ensures Handle(OrderNotFound, stack, nodeEnv).status == 404
    ensures Handle(AccessDenied, stack, nodeEnv).status == 403
    ensures Handle(EmptyOrder, stack, nodeEnv).status == 400
    ensures Handle(InvalidStatus, stack, nodeEnv).status == 400
    ensures LineCheck(products, line).Some? ==>
      var r := Handle(LineCheck(products, line).value, stack, nodeEnv);
      r.status in {400, 404} && r.body.message == LineCheck(products, line).value.message
    ensures Handle(ValidationFailed, stack, nodeEnv).status == 500
    ensures Handle(UpdateValidationFailed, stack, nodeEnv).status == 500
  {
  }
}
