/** Result and option types shared by the model, and the error outcomes the
    controllers report to their HTTP callers. */
module Common {

  datatype Option<+T> = None | Some(value: T) {
    function GetOr(default: T): T {
      match this
      case Some(v) => v
      case None => default
    }
  }

  datatype Result<+R, +E> = Success(value: R) | Failure(error: E)

  /** The failure outcomes of the product and transaction controllers.
      NotFound is the 404 answer; the others are 400 answers whose message
      names the cause (a schema validation error, the unique-index violation,
      the unknown transaction type, the stock check). InvalidQuantity is the
      validation error the transaction record's `min: 1` rule raises. */
  datatype Error =
    | NotFound
    | InvalidKind
    | InsufficientStock
    | InvalidQuantity
    | ValidationError
    | DuplicateKey
}
