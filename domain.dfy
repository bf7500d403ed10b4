/**
 * Entities of the freelance marketplace as the controllers use them: the
 * records stored in each table, their status enumerations, the request DTOs
 * the actions receive, and the result codes the actions answer with.
 *
 * Money is an exact `real` (the source's `decimal`); timestamps are opaque
 * integers; user ids are strings handed out by the identity provider.
 */
module Domain {

  datatype Option<+T> = None | Some(value: T)

  type UserId = string

  /** The outcomes an action reports instead of its success value. */
  datatype Code =
    | NotFound
    | Forbid
    | BadRequest
    | Conflict
    | Unauthorized
    | InvalidModel   // the form is shown again with model-state errors
    | ServerError    // an unhandled exception (null dereference, overflow)

  datatype Result<+T> = Ok(value: T) | Err(code: Code)

  type Unit = ()

  // ---------------------------------------------------------------- statuses

  datatype ProjectStatus = Open | InProgress | Paid | Completed | Cancelled
  datatype BidStatus = Pending | Accepted | Rejected
  datatype ServiceStatus = Available | Unavailable
  datatype OrderStatus = Pending | Accepted | Rejected | Completed | Paid
  datatype PaymentStatus = Pending | Succeeded | Canceled | Failed

  // ---------------------------------------------------------------- records

  datatype Project = Project(
    title: string,
    description: string,
    budget: real,
    clientId: UserId,
    status: ProjectStatus,
    createdAt: int)

  datatype Bid = Bid(
    projectId: int,
    freelancerId: UserId,
    amount: real,
    comment: Option<string>,
    durationInDays: int,
    status: BidStatus,
    createdAt: int)

  datatype Service = Service(
    title: string,
    description: string,
    price: real,
    freelancerId: UserId,
    status: ServiceStatus,
    selectedClientId: Option<UserId>,
    createdAt: int)

  datatype Order = Order(
    serviceId: int,
    clientId: UserId,
    comment: Option<string>,
    durationInDays: int,
    status: OrderStatus,
    createdAt: int)

  datatype Payment = Payment(
    orderId: int,
    payerId: UserId,
    amountMinor: int,
    currency: string,
    status: PaymentStatus,
    provider: Option<string>,
    providerSessionId: Option<string>,
    providerPaymentIntentId: Option<string>,
    createdAt: int,
    updatedAt: int)

  datatype Message = Message(senderId: UserId, text: string, sentAt: int, isRead: bool)

  /** A chat between a client and a freelancer; messages in the order they were sent. */
  datatype Chat = Chat(clientId: UserId, freelancerId: UserId, messages: seq<Message>)

  datatype UserProfile = UserProfile(aboutMe: string)

  /** What the identity provider knows of a user. */
  datatype IdentityUser = IdentityUser(userName: Option<string>, email: Option<string>)

  // ---------------------------------------------------------------- DTOs

  datatype CreateBidDto = CreateBidDto(projectId: int, amount: real, comment: Option<string>, durationInDays: int)
  datatype UpdateBidDto = UpdateBidDto(amount: real, comment: Option<string>, durationInDays: int)
  datatype CreateOrderDto = CreateOrderDto(serviceId: int, comment: Option<string>, durationInDays: int)
  datatype UpdateOrderDto = UpdateOrderDto(comment: Option<string>, durationInDays: int)
  /** `status` is None when the request leaves it out; the DTO then defaults it to Open. */
  datatype CreateProjectDto = CreateProjectDto(title: string, description: string, budget: real, status: Option<ProjectStatus>)
  datatype UpdateProjectDto = UpdateProjectDto(title: string, description: string, budget: real, status: ProjectStatus)
  datatype CreateServiceDto = CreateServiceDto(title: string, description: string, price: real, status: ServiceStatus)
  datatype UpdateServiceDto = UpdateServiceDto(title: string, description: string, price: real, status: ServiceStatus)

  const IntMax: int := 0x7FFF_FFFF

  /**
   * `char.IsWhiteSpace`, which `string.IsNullOrWhiteSpace` applies to every
   * character: the control characters U+0009 to U+000D, U+0085, and the
   * Unicode space, line and paragraph separators.
   */
  predicate IsWhiteSpace(c: char) {
    || '\U{0009}' <= c <= '\U{000D}'
    || c == '\U{0020}' || c == '\U{0085}' || c == '\U{00A0}' || c == '\U{1680}'
    || '\U{2000}' <= c <= '\U{200A}'
    || c == '\U{2028}' || c == '\U{2029}' || c == '\U{202F}' || c == '\U{205F}' || c == '\U{3000}'
  }

  /** `string.IsNullOrWhiteSpace`: absent, empty, or only white space. */
  predicate IsBlank(s: Option<string>) {
    s.None? || forall i :: 0 <= i < |s.value| ==> IsWhiteSpace(s.value[i])
  }

  /** `string.IsNullOrEmpty`. */
  predicate IsNullOrEmpty(s: Option<string>) {
    s.None? || s.value == ""
  }

  const IntMin: int := -0x8000_0000

  /**
   * `Convert.ToInt32` on a decimal: the nearest integer, a tie going to the
   * even neighbour (`decimal.Round` with `MidpointRounding.ToEven`).
   */
  function RoundHalfEven(x: real): (n: int)
    ensures x - 0.5 <= n as real <= x + 0.5
    ensures (n as real == x - 0.5 || n as real == x + 0.5) ==> n % 2 == 0
  {
    var f := x.Floor;
    var frac := x - f as real;
    if frac < 0.5 then f
    else if frac > 0.5 then f + 1
    else if f % 2 == 0 then f
    else f + 1
  }

  /**
   * `[Range(1, int.MaxValue)]` on a decimal property converts the value with
   * `Convert.ToInt32`, which throws `OverflowException` when the rounded value
   * is outside int; the attribute does not catch that exception.
   */
  predicate Int32Overflows(x: real) {
    var n := RoundHalfEven(x);
    n < IntMin || n > IntMax
  }

  /** What `[Range(lo, hi)]` with int bounds accepts of a decimal: its rounded value lies in lo..hi. */
  predicate InInt32Range(x: real, lo: int, hi: int) {
    lo <= RoundHalfEven(x) <= hi
  }

  /** `[Range(1, 365)]` on DurationInDays and `[Range(1, int.MaxValue)]` on Amount. */
  predicate ValidCreateBid(dto: CreateBidDto) {
    InInt32Range(dto.amount, 1, IntMax) && 1 <= dto.durationInDays <= 365
  }

  /** Validating the bid form throws: Amount does not convert to an int. */
  predicate CreateBidThrows(dto: CreateBidDto) {
    Int32Overflows(dto.amount)
  }

  /** `[Range(1, 365)]` on DurationInDays. */
  predicate ValidCreateOrder(dto: CreateOrderDto) {
    1 <= dto.durationInDays <= 365
  }

  /** `[Range(1, int.MaxValue)]` on DurationInDays. */
  predicate ValidUpdateOrder(dto: UpdateOrderDto) {
    1 <= dto.durationInDays <= IntMax
  }

  /** `[Required]` on Title and Description, `[Range(1, int.MaxValue)]` on Price. */
  predicate ValidUpdateService(dto: UpdateServiceDto) {
    !IsBlank(Some(dto.title)) && !IsBlank(Some(dto.description)) && InInt32Range(dto.price, 1, IntMax)
  }

  /** Validating the service form throws: Price does not convert to an int. */
  predicate UpdateServiceThrows(dto: UpdateServiceDto) {
    Int32Overflows(dto.price)
  }

  /**
   * The implicit `[Required]` ASP.NET Core puts on a non-nullable string
   * property: Title and Description of the API's own project requests must
   * not be null, empty or white space.
   */
  predicate ValidProjectText(title: string, description: string) {
    !IsBlank(Some(title)) && !IsBlank(Some(description))
  }

  /** Exactly the decimals above 0.5 and below int.MaxValue + 0.5 pass `[Range(1, int.MaxValue)]`. */
  lemma PositiveRangeBounds(x: real)
    ensures InInt32Range(x, 1, IntMax) <==> 0.5 < x < IntMax as real + 0.5
  {
    var n := RoundHalfEven(x);
  }

  /** Validation throws exactly for decimals at or above int.MaxValue + 0.5 or below int.MinValue - 0.5. */
  lemma OverflowBounds(x: real)
    ensures Int32Overflows(x) <==> x < IntMin as real - 0.5 || x >= IntMax as real + 0.5
  {
    var n := RoundHalfEven(x);
  }

  /** Ties go to the even neighbour: 0.5 becomes 0, 1.5 and 2.5 both become 2. */
  lemma RoundingExamples()
    ensures RoundHalfEven(0.5) == 0 && RoundHalfEven(1.5) == 2 && RoundHalfEven(2.5) == 2
    ensures !InInt32Range(0.5, 1, IntMax) && InInt32Range(0.6, 1, IntMax)
    ensures Int32Overflows(IntMax as real + 0.5) && !Int32Overflows(IntMax as real + 0.4)
  {
    assert (0.5).Floor == 0 && (1.5).Floor == 1 && (2.5).Floor == 2 && (0.6).Floor == 0;
    assert (IntMax as real + 0.5).Floor == IntMax && (IntMax as real + 0.4).Floor == IntMax;
  }
}
