/**
 * `RestExceptionHandler`: four handlers, each declared for some exception
 * classes, each answering with a fixed problem document. For a thrown
 * exception Spring picks the handler declared for its nearest superclass.
 */
module RestExceptionHandler {
  import opened Wrappers
  import opened JavaExceptions

  const ProblemJson: string := "application/problem+json"

  const BadRequest: int := 400
  const NotFound: int := 404
  const Conflict: int := 409
  const InternalServerError: int := 500

  /** The problem document (`application/problem+json`) of a response. */
  datatype Problem = Problem(title: string, detail: string, status: int)

  datatype Response = Response(status: int, contentType: string, body: Problem)

  datatype Handler =
    | IllegalArgExceptionHandler
    | NotFoundOrNoSuchElementExceptionHandler
    | IllegalStateExceptionHandler
    | OtherExceptionsHandler

  /** The classes named in each handler's `@ExceptionHandler` annotation. */
  function Declared(h: Handler): seq<ExceptionClass> {
    match h
    case IllegalArgExceptionHandler => [IllegalArgumentException]
    case NotFoundOrNoSuchElementExceptionHandler => [NotFoundException, NoSuchElementException]
    case IllegalStateExceptionHandler => [IllegalStateException]
    case OtherExceptionsHandler => [Exception]
  }

  /** The response each handler builds: one status and one title per handler. */
  function Respond(h: Handler): (r: Response)
    ensures r.contentType == ProblemJson
    ensures r.body.status == r.status
    ensures r.status == BadRequest <==> h == IllegalArgExceptionHandler
    ensures r.status == NotFound <==> h == NotFoundOrNoSuchElementExceptionHandler
    ensures r.status == Conflict <==> h == IllegalStateExceptionHandler
    ensures r.status == InternalServerError <==> h == OtherExceptionsHandler
  {
    match h
    case IllegalArgExceptionHandler =>
      Response(BadRequest, ProblemJson,
        Problem("Illegal Argument Exception", "Unknown arguments handler works!", BadRequest))
    case NotFoundOrNoSuchElementExceptionHandler =>
      Response(NotFound, ProblemJson,
        Problem("Not found or not such element exception", "Not found & No such element handler works!", NotFound))
    case IllegalStateExceptionHandler =>
      Response(Conflict, ProblemJson,
        Problem("Illegal State Exception", "Illegal State Exception handler works!", Conflict))
    case OtherExceptionsHandler =>
      Response(InternalServerError, ProblemJson,
        Problem("Internal server error", "Internal server etc. error", InternalServerError))
  }

  /** The handler whose annotation names exactly class `x`, if any. */
  function DeclaredFor(x: ExceptionClass): (h: Option<Handler>)
    ensures h.Some? ==> x in Declared(h.value)
    ensures h.None? ==> forall g: Handler :: x !in Declared(g)
  {
    match x
    case IllegalArgumentException => Some(IllegalArgExceptionHandler)
    case NotFoundException | NoSuchElementException => Some(NotFoundOrNoSuchElementExceptionHandler)
    case IllegalStateException => Some(IllegalStateExceptionHandler)
    case Exception => Some(OtherExceptionsHandler)
    case _ => None
  }

  /** The handler of the first class along `chain` that some handler is declared for. */
  function FirstHandled(chain: seq<ExceptionClass>): Handler {
    if chain == [] then OtherExceptionsHandler
    else match DeclaredFor(chain[0])
      case Some(h) => h
      case None => FirstHandled(chain[1..])
  }

  /** `chain[i]` is the first class along `chain` that a handler is declared for, and `h` is that handler. */
  predicate HandlesAt(chain: seq<ExceptionClass>, i: int, h: Handler) {
    && 0 <= i < |chain|
    && DeclaredFor(chain[i]) == Some(h)
    && forall j :: 0 <= j < i ==> DeclaredFor(chain[j]).None?
  }

  /** When some class along the chain is declared for, `FirstHandled` picks the handler of the nearest one. */
  lemma {:induction false} FirstHandledIsNearest(chain: seq<ExceptionClass>, k: int)
    requires 0 <= k < |chain| && DeclaredFor(chain[k]).Some?
    ensures exists i :: HandlesAt(chain, i, FirstHandled(chain))
    decreases |chain|
  {
    if DeclaredFor(chain[0]).Some? {
      assert HandlesAt(chain, 0, FirstHandled(chain));
    } else {
      FirstHandledIsNearest(chain[1..], k - 1);
      var i :| HandlesAt(chain[1..], i, FirstHandled(chain[1..]));
      assert HandlesAt(chain, i + 1, FirstHandled(chain)) by {
        forall j | 0 <= j < i + 1 ensures DeclaredFor(chain[j]).None? {
          if j > 0 {
            assert chain[j] == chain[1..][j - 1];
          }
        }
      }
    }
  }

  /**
   * The handler Spring resolves for an exception of class `c`: the one declared
   * for the nearest class along `c`'s superclass chain.
   */
  function Resolve(c: ExceptionClass): (h: Handler)
    ensures exists i :: HandlesAt(Ancestors(c), i, h)
  {
    FirstHandledIsNearest(Ancestors(c), |Ancestors(c)| - 1);
    FirstHandled(Ancestors(c))
  }

  /**
   * The response to an exception of class `c`: always a problem document whose
   * status is the HTTP status, and the status follows the class hierarchy.
   */
  function Handle(c: ExceptionClass): (r: Response)
    ensures r.contentType == ProblemJson
    ensures r.body.status == r.status
    ensures r.status == BadRequest <==> IsA(c, IllegalArgumentException)
    ensures r.status == NotFound <==> IsA(c, NoSuchElementException) || IsA(c, NotFoundException)
    ensures r.status == Conflict <==> IsA(c, IllegalStateException)
    ensures r.status == InternalServerError <==>
      !IsA(c, IllegalArgumentException) && !IsA(c, NoSuchElementException)
      && !IsA(c, NotFoundException) && !IsA(c, IllegalStateException)
    ensures r.status in {BadRequest, NotFound, Conflict, InternalServerError}
    ensures r.status == BadRequest ==> r.body.title == "Illegal Argument Exception"
    ensures r.status == NotFound ==> r.body.title == "Not found or not such element exception"
    ensures r.status == Conflict ==> r.body.title == "Illegal State Exception"
    ensures r.status == InternalServerError ==> r.body.title == "Internal server error"
  {
    ResolveFollowsHierarchy(c);
    Respond(Resolve(c))
  }

  /** The handler Spring picks, class by class, is the one of the nearest declared superclass. */
  lemma ResolveFollowsHierarchy(c: ExceptionClass)
    ensures Resolve(c) == IllegalArgExceptionHandler <==> IsA(c, IllegalArgumentException)
    ensures Resolve(c) == NotFoundOrNoSuchElementExceptionHandler <==>
      IsA(c, NoSuchElementException) || IsA(c, NotFoundException)
    ensures Resolve(c) == IllegalStateExceptionHandler <==> IsA(c, IllegalStateException)
  {
    match c
    case Exception =>
    case RuntimeException =>
    case IllegalArgumentException =>
    case NumberFormatException =>
    case IllegalStateException =>
    case NoSuchElementException =>
    case NotFoundException =>
    case NullPointerException =>
    case IndexOutOfBoundsException =>
    case DateTimeException =>
    case DateTimeParseException =>
  }

  /** The titles the handler's tests look for. */
  lemma HandlerTitles()
    ensures Handle(IllegalArgumentException).body.title == "Illegal Argument Exception"
    ensures Handle(NoSuchElementException).body.title == "Not found or not such element exception"
    ensures Handle(NotFoundException).body.title == "Not found or not such element exception"
    ensures Handle(IllegalStateException).body.title == "Illegal State Exception"
    ensures Handle(RuntimeException).body.title == "Internal server error"
  {
    assert Resolve(IllegalArgumentException) == IllegalArgExceptionHandler;
    assert Resolve(NoSuchElementException) == NotFoundOrNoSuchElementExceptionHandler;
    assert Resolve(NotFoundException) == NotFoundOrNoSuchElementExceptionHandler;
    assert Resolve(IllegalStateException) == IllegalStateExceptionHandler;
    assert Resolve(RuntimeException) == OtherExceptionsHandler;
  }
}
