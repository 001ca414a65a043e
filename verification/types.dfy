/** The records the pharmacy point-of-sale works on, one datatype per
    interface of types.ts, plus the small wrappers the handlers return. */
module Types {

  /** Conventional optional value, used for `find` results and optional ids. */
  datatype Option<T> = None | Some(value: T)

  /** The two roles a signed-in user can hold. */
  datatype Role = Admin | Kasir

  datatype User = User(id: int, name: string, email: string, role: Role)

  /** A catalog entry. Money is counted in whole rupiah. */
  datatype Product = Product(id: int, name: string, stock: int, price: int, category: string)

  /** One line of a cart, and (copied) one line of a committed transaction.
      `price` is the unit price snapshot taken when the line was created. */
  datatype TransactionDetail = TransactionDetail(
    id: string,
    productId: int,
    productName: string,
    quantity: int,
    price: int,
    subtotal: int)

  /** A committed sale. The discount is an exact tenth of the total, so the
      discount and the final price are kept as reals. */
  datatype Transaction = Transaction(
    id: string,
    userId: int,
    userName: string,
    items: seq<TransactionDetail>,
    totalPrice: int,
    discount: real,
    finalPrice: real,
    createdAt: string)

  /** The messages the handlers show instead of changing state. */
  datatype Alert =
    | OutOfStock          // adding a product whose stock is not positive
    | InsufficientStock   // incrementing a line past the product's stock
    | TooFewProducts      // checking out a cart of fewer than 3 lines
    | DuplicateName       // saving a product under another product's name
    | StockIsOne          // saving a product with stock exactly 1

  /** The outcome of a handler: the next state, and the alert shown, if any.
      Every handler keeps its state unchanged when it raises an alert. */
  datatype Update<T> = Update(state: T, alert: Option<Alert>)
}
