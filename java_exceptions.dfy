/**
 * The Java exceptions that the order service raises or that the REST
 * exception handler is declared for, with their superclass chain, and the
 * outcome of a service call: a value, or the exception it ends with.
 */
module JavaExceptions {
  datatype ExceptionClass =
    | Exception
    | RuntimeException
    | IllegalArgumentException
    | NumberFormatException
    | IllegalStateException
    | NoSuchElementException
    | NotFoundException               // Spring's ChangeSetPersister.NotFoundException, a checked exception
    | NullPointerException
    | IndexOutOfBoundsException
    | DateTimeException
    | DateTimeParseException

  /** `c` followed by its superclasses, nearest first, up to `Exception`. */
  function Ancestors(c: ExceptionClass): (a: seq<ExceptionClass>)
    ensures |a| > 0 && a[0] == c && a[|a| - 1] == Exception
    ensures forall i, j :: 0 <= i < j < |a| ==> a[i] != a[j]
  {
    match c
    case Exception => [Exception]
    case RuntimeException => [RuntimeException, Exception]
    case IllegalArgumentException => [IllegalArgumentException, RuntimeException, Exception]
    case NumberFormatException =>
      [NumberFormatException, IllegalArgumentException, RuntimeException, Exception]
    case IllegalStateException => [IllegalStateException, RuntimeException, Exception]
    case NoSuchElementException => [NoSuchElementException, RuntimeException, Exception]
    case NotFoundException => [NotFoundException, Exception]
    case NullPointerException => [NullPointerException, RuntimeException, Exception]
    case IndexOutOfBoundsException => [IndexOutOfBoundsException, RuntimeException, Exception]
    case DateTimeException => [DateTimeException, RuntimeException, Exception]
    case DateTimeParseException =>
      [DateTimeParseException, DateTimeException, RuntimeException, Exception]
  }

  /** `c` is `ancestor` or a subclass of it: a `catch (ancestor e)` catches it. */
  predicate IsA(c: ExceptionClass, ancestor: ExceptionClass) {
    ancestor in Ancestors(c)
  }

  /** How a service call fails. */
  datatype Fault =
    | NumberFormat      // Long.parseLong rejected its text
    | NoSuchElement     // patchOrder on an id that is not stored
    | NullDeref         // approveOrder / deliverOrder dereferencing the null of a missing id
    | IndexOutOfBounds  // a positional field read past the end of a short import record
    | ParseFailure      // OffsetDateTime.parse rejected its text
    | IllegalEnumName   // StatusEnum.valueOf was given a name that is no constant

  /** The class of the exception each fault is raised as. */
  function ClassOf(f: Fault): ExceptionClass {
    match f
    case NumberFormat => NumberFormatException
    case NoSuchElement => NoSuchElementException
    case NullDeref => NullPointerException
    case IndexOutOfBounds => IndexOutOfBoundsException
    case ParseFailure => DateTimeParseException
    case IllegalEnumName => IllegalArgumentException
  }

  /** The result of a service call: its value, or the fault it throws. */
  datatype Outcome<+T> = Ok(value: T) | Err(fault: Fault)
}
