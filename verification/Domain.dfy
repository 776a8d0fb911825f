/** The entities of the exchange: orders, tickets, trades and the outcomes of the services.

    Decimal amounts are exact, so they are modelled as `real`.  An order id is the position of
    the order in the append-only order table. */
module Domain {

  datatype Option<+T> = None | Some(value: T)

  /** The exceptions raised by the services. */
  datatype Error =
    | InsufficientBalance   // not enough available funds to lock
    | LockedShort(account: Account)   // not enough locked funds to settle
    | VersionConflict       // optimistic retries exhausted
    | BadAmount             // a non-positive or inconsistent amount
    | Validation            // the ticket breaks a rule of the pair
    | NotFound
    | NotActive
    | NotModifiable
    | MissingOrder          // a trade refers to no order (foreign key)
    | MissingBalance

  datatype Result<+T> = Ok(value: T) | Err(error: Error)

  datatype Side = Buy | Sell

  function Opposite(s: Side): Side {
    if s == Buy then Sell else Buy
  }

  datatype Kind = Market | Limit | StopMarket | StopLimit | PostOnly | Ioc | Fok | TrailingStop | Iceberg

  datatype Status = Pending | New | PartiallyFilled | Filled | Canceled | Rejected | Expired

  /** A user's holding of one asset. */
  datatype Account = Account(user: nat, asset: string)

  datatype Pair = Pair(base: string, quote: string, minLot: real, maxLot: real, tick: real, active: bool)

  datatype Order = Order(
    user: nat, pair: Pair, side: Side, kind: Kind, status: Status,
    price: Option<real>, stopPrice: Option<real>,
    quantity: real, filledQty: real, filledQuote: real,
    replacesId: Option<nat>, replacedBy: Option<nat>, replaceCount: nat,
    parent: Option<nat>, version: int)

  /** What a client submits; `pair` is None when the symbol is unknown. */
  datatype Ticket = Ticket(
    pair: Option<Pair>, side: Side, kind: Kind,
    price: Option<real>, stopPrice: Option<real>, trailingDelta: Option<real>,
    quantity: real, visible: Option<real>, hidden: Option<real>)

  /** One execution reported by the matcher against a resting order. */
  datatype Exec = Exec(maker: nat, price: real, qty: real)

  /** A row of the trade log. */
  datatype Trade = Trade(taker: nat, maker: nat, price: real, qty: real, quote: real, side: Side,
                         takerUser: nat, makerUser: nat)

  predicate IsStop(k: Kind) {
    k == StopMarket || k == StopLimit || k == TrailingStop
  }

  /** The kinds whose buy side locks price * quantity. */
  predicate IsPriced(k: Kind) {
    k == Limit || k == PostOnly || k == Ioc || k == Fok || k == Iceberg
  }

  predicate IsActive(o: Order) {
    o.status == New || o.status == PartiallyFilled || o.status == Pending
  }

  /** Active and past its trigger: the orders that own locked funds. */
  predicate IsLive(o: Order) {
    (o.status == New || o.status == PartiallyFilled) && !IsStop(o.kind)
  }

  function Remaining(o: Order): real {
    o.quantity - o.filledQty
  }

  /** Volume-weighted average price of the fills so far. */
  function AvgFillPrice(o: Order): Option<real> {
    if o.filledQty == 0.0 then None else Some(o.filledQuote / o.filledQty)
  }

  function Min(a: real, b: real): real {
    if a <= b then a else b
  }

  function Max(a: real, b: real): real {
    if a >= b then a else b
  }

  function Highest(prices: seq<real>): real
    requires prices != []
  {
    if |prices| == 1 then prices[0] else Max(Highest(prices[..|prices| - 1]), prices[|prices| - 1])
  }

  function Lowest(prices: seq<real>): real
    requires prices != []
  {
    if |prices| == 1 then prices[0] else Min(Lowest(prices[..|prices| - 1]), prices[|prices| - 1])
  }

  function GetOr<T>(o: Option<T>, default: T): T {
    match o
    case Some(v) => v
    case None => default
  }

  /** The quote value of a quantity at a price.  Proofs that need only the laws below hide the
      product itself, which keeps them linear. */
  function Value(price: real, qty: real): real {
    price * qty
  }

  lemma ValueAdd(price: real, a: real, b: real)
    ensures Value(price, a + b) == Value(price, a) + Value(price, b)
  {
  }

  lemma ValuePositive(price: real, qty: real)
    requires 0.0 <= price && 0.0 <= qty
    ensures 0.0 <= Value(price, qty)
    ensures 0.0 < price && 0.0 < qty ==> 0.0 < Value(price, qty)
  {
  }

  lemma ValueZero(price: real)
    ensures Value(price, 0.0) == 0.0
  {
  }

  /** More at a higher price is worth more. */
  lemma ValueMono(low: real, high: real, a: real, b: real)
    requires low <= high && 0.0 <= a <= b && (a == b || 0.0 <= high)
    ensures Value(low, a) <= Value(high, b)
  {
    assert low * a <= high * a;
    assert a == b || high * a <= high * b;
  }

  lemma ValueCancel(x: real, y: real, qty: real)
    requires 0.0 < qty && Value(x, qty) <= Value(y, qty)
    ensures x <= y
  {
    assert (y - x) * qty == y * qty - x * qty;
  }
}
