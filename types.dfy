/** The tables and the request payloads of the purchase engine.
    Money is held in integer cents, so a two-decimal amount is exact. */
module Types {

  type ProductId = int
  type PurchaseId = int
  type UserId = int
  type Cents = int

  datatype Option<+T> = None | Some(value: T) {
    function GetOr(default: T): T {
      match this
      case Some(v) => v
      case None => default
    }
  }

  /** The kinds of failure the engine reports; the messages are not modelled. */
  datatype Error =
    | UserIdRequired
    | StatusRequired
    | DetailsRequired
    | TooFewItems
    | TooManyItems
    | LineFieldMissing
    | NonPositiveQuantity
    | TotalExceeded
    | ProductNotFound(product: ProductId)
    | InsufficientStock(product: ProductId)
    | PurchaseNotFound
    | PurchaseCompleted
    | DetailsNotIterable

  datatype Outcome = Pass | Fail(error: Error)

  datatype Result<+T> = Ok(value: T) | Err(error: Error)

  /** One requested line `{product_id, quantity, price}`. A field that is missing
      or falsy in the request is represented by 0. */
  datatype Line = Line(productId: ProductId, quantity: int, price: Cents)

  /** The `details` member of a request: absent (or falsy), present but not an
      array (an object, whose `length` is undefined), or an array of lines. */
  datatype DetailsField = Absent | NotArray | Lines(lines: seq<Line>)

  /** A request body `{user_id, status, details}`. `None` is null or undefined;
      `Some(0)` and `Some("")` are present but falsy. */
  datatype Payload = Payload(userId: Option<UserId>, status: Option<string>, details: DetailsField)

  /** A row of `purchases`. */
  datatype Purchase = Purchase(userId: UserId, status: string, total: Cents)

  /** A row of `purchase_details`, stored under its purchase's id. */
  datatype Detail = Detail(productId: ProductId, quantity: int, price: Cents, subtotal: Cents)

  /** The three tables and the next auto-increment purchase id. */
  datatype Db = Db(
    stock: map<ProductId, int>,
    purchases: map<PurchaseId, Purchase>,
    details: map<PurchaseId, seq<Detail>>,
    nextId: PurchaseId)
}
