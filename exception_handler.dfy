/** GlobalExceptionHandler: each exception the controllers let escape is
    turned into an error response. The handler is chosen by exception
    class; here the class is an explicit tag, carrying what the handler
    reads from the exception. The response is the wrapper's success flag
    and summary message, the error details (message and request
    description; the timestamp is left out) and the HTTP status. */
module ExceptionHandling {
  import opened Wrappers
  import opened Joining

  /** A field error of a binding result; its default message may be null. */
  datatype FieldError = FieldError(defaultMessage: Option<string>)

  /** A path entry of an InvalidFormatException: the name of the field. */
  datatype PathReference = PathReference(fieldName: string)

  datatype ErrorKind =
    | ResourceNotFound(message: string)
    | Announcement(message: string)
    | DateFormat(message: string)
    | IOFailure(message: string)
    | MethodArgumentNotValid(fieldErrors: seq<FieldError>)
    | ConstraintViolation(violationMessages: seq<string>)
    | PropertyReference(message: string)
    | InvalidFormat(path: seq<PathReference>, targetTypeName: string)
    | BindResult(message: string)

  datatype HttpStatus = NotFound | BadRequest | InternalServerError

  function Code(s: HttpStatus): int {
    match s
    case NotFound => 404
    case BadRequest => 400
    case InternalServerError => 500
  }

  datatype ErrorDetails = ErrorDetails(message: string, description: string)

  datatype Response = Response(success: bool, summary: string, details: ErrorDetails, status: HttpStatus)

  const NotFoundSummary := "Requested Resource Not Found"
  const ValidationSummary := "Request Validation Failed"
  const ServerErrorSummary := "Something went wrong.Please try after sometime"
  const NoFieldErrorMessage := "Validation error"
  const TypeClause := " value should be of type "

  /** The detail of a MethodArgumentNotValidException: the default message
      of the first field error, or "Validation error" when there is none
      (or, unlike the source, when the first error has no message). */
  function FirstFieldMessage(errors: seq<FieldError>): (m: string)
    ensures errors == [] ==> m == NoFieldErrorMessage
    ensures errors != [] && errors[0].defaultMessage.Some? ==> m == errors[0].defaultMessage.value
    ensures errors != [] && errors[0].defaultMessage.None? ==> m == NoFieldErrorMessage
  {
    if errors != [] && errors[0].defaultMessage.Some? then errors[0].defaultMessage.value
    else NoFieldErrorMessage
  }

  /** The detail of a ConstraintViolationException. */
  function ViolationDetail(messages: seq<string>): string {
    Join(messages, ", ")
  }

  /** The sentence InvalidFormat writes for one path entry. */
  function TypeMismatch(ref: PathReference, typeName: string): string {
    ref.fieldName + TypeClause + typeName
  }

  /** The detail of an InvalidFormatException. */
  function InvalidFormatDetail(path: seq<PathReference>, typeName: string): string {
    Join(seq(|path|, k requires 0 <= k < |path| => TypeMismatch(path[k], typeName)), ".")
  }

  function Status(kind: ErrorKind): HttpStatus {
    match kind
    case ResourceNotFound(_) => NotFound
    case IOFailure(_) => InternalServerError
    case _ => BadRequest
  }

  function Summary(kind: ErrorKind): string {
    match kind
    case ResourceNotFound(_) => NotFoundSummary
    case IOFailure(_) => ServerErrorSummary
    case _ => ValidationSummary
  }

  function DetailMessage(kind: ErrorKind): string {
    match kind
    case MethodArgumentNotValid(errors) => FirstFieldMessage(errors)
    case ConstraintViolation(messages) => ViolationDetail(messages)
    case InvalidFormat(path, typeName) => InvalidFormatDetail(path, typeName)
    case ResourceNotFound(m) => m
    case Announcement(m) => m
    case DateFormat(m) => m
    case IOFailure(m) => m
    case PropertyReference(m) => m
    case BindResult(m) => m
  }

  /** The nine @ExceptionHandler methods; `description` is
      request.getDescription(false). */
  function Handle(kind: ErrorKind, description: string): (r: Response)
    ensures !r.success
    ensures r.details.description == description
    ensures r.status == NotFound <==> kind.ResourceNotFound?
    ensures r.status == InternalServerError <==> kind.IOFailure?
    ensures Code(r.status) == 400 <==> !kind.ResourceNotFound? && !kind.IOFailure?
    ensures r.summary == NotFoundSummary <==> r.status == NotFound
    ensures r.summary == ServerErrorSummary <==> r.status == InternalServerError
    ensures r.summary == ValidationSummary <==> r.status == BadRequest
    ensures (kind.ResourceNotFound? || kind.Announcement? || kind.DateFormat? || kind.IOFailure?
             || kind.PropertyReference? || kind.BindResult?) ==> r.details.message == kind.message
  {
    Response(false, Summary(kind), ErrorDetails(DetailMessage(kind), description), Status(kind))
  }

  /** The outcome of a handler as the source has it: a response, or a
      NullPointerException thrown by the handler itself. */
  datatype Outcome = Responded(response: Response) | NullPointer

  /** `getFieldErrors().stream().map(getDefaultMessage).findFirst()
      .orElse("Validation error")`: findFirst throws when the element it
      selects is null, so a first field error without a default message
      makes the handler throw (None here). */
  function FirstFieldMessageAsWritten(errors: seq<FieldError>): (m: Option<string>)
    ensures m.None? <==> errors != [] && errors[0].defaultMessage.None?
  {
    if errors == [] then Some(NoFieldErrorMessage)
    else
      match errors[0].defaultMessage
      case Some(msg) => Some(msg)
      case None => None
  }

  /** The handlers exactly as written, with the null case of the
      MethodArgumentNotValid handler: it throws exactly when the first
      field error has no default message, and otherwise answers 400 with
      that message, or "Validation error" when there are no field errors. */
  function HandleAsWritten(kind: ErrorKind, description: string): (o: Outcome)
    ensures o.NullPointer? <==> kind.MethodArgumentNotValid? && kind.fieldErrors != [] && kind.fieldErrors[0].defaultMessage.None?
    ensures kind.MethodArgumentNotValid? && o.Responded? ==>
      && o.response.status == BadRequest && o.response.details.description == description
      && o.response.details.message == (if kind.fieldErrors == [] then NoFieldErrorMessage else kind.fieldErrors[0].defaultMessage.value)
  {
    match kind
    case MethodArgumentNotValid(errors) =>
      (match FirstFieldMessageAsWritten(errors)
       case None => NullPointer
       case Some(m) => Responded(Response(false, ValidationSummary, ErrorDetails(m, description), BadRequest)))
    case _ => Responded(Handle(kind, description))
  }

  /** A field error without a default message makes the source's handler
      throw instead of answering. */
  lemma NullDefaultMessageThrows(description: string)
    ensures HandleAsWritten(MethodArgumentNotValid([FieldError(None)]), description) == NullPointer
    ensures Handle(MethodArgumentNotValid([FieldError(None)]), description).details.message == NoFieldErrorMessage
  {
  }

  /** Wherever the source's handlers answer, the model answers the same. */
  lemma HandleAgreesWithSource(kind: ErrorKind, description: string)
    ensures HandleAsWritten(kind, description).Responded? ==> HandleAsWritten(kind, description).response == Handle(kind, description)
    ensures HandleAsWritten(kind, description).NullPointer? <==>
      kind.MethodArgumentNotValid? && kind.fieldErrors != [] && kind.fieldErrors[0].defaultMessage.None?
  {
  }

  /** ConstraintViolation: message `k` stands at its offset, preceded by
      ", " when not first, and the detail ends with the last message. */
  lemma ViolationDetailLayout(messages: seq<string>, description: string, k: nat)
    requires k < |messages|
    ensures var d := Handle(ConstraintViolation(messages), description).details.message;
      var o := Offset(messages, ", ", k);
      && |d| + 2 == Offset(messages, ", ", |messages|)
      && o + |messages[k]| <= |d|
      && d[o..o + |messages[k]|] == messages[k]
      && (k > 0 ==> d[o - 2..o] == ", ")
  {
    JoinLength(messages, ", ");
    JoinItemAt(messages, ", ", k);
    if k > 0 {
      JoinSeparatorBefore(messages, ", ", k);
    }
  }

  /** ConstraintViolation without violations: an empty detail. */
  lemma NoViolationsNoDetail(description: string)
    ensures Handle(ConstraintViolation([]), description).details.message == ""
  {
  }

  /** InvalidFormat: the sentence of path entry `k`, "<field> value should
      be of type <type>", stands at its offset in the detail, preceded by
      "." when not first, and the detail ends with the last sentence. */
  lemma InvalidFormatLayout(path: seq<PathReference>, typeName: string, description: string, k: nat)
    requires k < |path|
    ensures var d := Handle(InvalidFormat(path, typeName), description).details.message;
      var items := seq(|path|, j requires 0 <= j < |path| => TypeMismatch(path[j], typeName));
      var o := Offset(items, ".", k);
      && |d| + 1 == Offset(items, ".", |path|)
      && o + |items[k]| <= |d|
      && d[o..o + |items[k]|] == path[k].fieldName + " value should be of type " + typeName
      && (k > 0 ==> d[o - 1..o] == ".")
  {
    var items := seq(|path|, j requires 0 <= j < |path| => TypeMismatch(path[j], typeName));
    JoinLength(items, ".");
    JoinItemAt(items, ".", k);
    if k > 0 {
      JoinSeparatorBefore(items, ".", k);
    }
  }
}
