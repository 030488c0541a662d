/**
 * What a client of the order endpoints sees when a service call throws: the
 * controller lets the exception through, and `RestExceptionHandler` answers
 * with the problem document of the exception's class. These lemmas join the
 * service model's faults to the handler's statuses.
 */
module ErrorResponses {
  import opened JavaLong
  import opened Orders
  import opened OrdersRepository
  import opened JavaExceptions
  import opened RestExceptionHandler
  import opened OrdersCsv
  import opened OrdersService

  /**
   * The HTTP status answered for a fault. Malformed numbers and unknown
   * status names are `IllegalArgumentException`s (400), a missing element
   * is 404, and the null dereference, the short record and the unparseable
   * date fall through to the catch-all handler (500). No fault of the
   * service is an `IllegalStateException`, so nothing it throws is a 409.
   */
  function StatusFor(f: Fault): (s: int)
    ensures s == BadRequest <==> f == NumberFormat || f == IllegalEnumName
    ensures s == NotFound <==> f == NoSuchElement
    ensures s == InternalServerError <==> f == NullDeref || f == IndexOutOfBounds || f == ParseFailure
    ensures s != Conflict
  {
    FaultStatus(f);
    Handle(ClassOf(f)).status
  }

  lemma FaultStatus(f: Fault)
    ensures Handle(ClassOf(f)).status ==
      match f
      case NumberFormat | IllegalEnumName => BadRequest
      case NoSuchElement => NotFound
      case NullDeref | IndexOutOfBounds | ParseFailure => InternalServerError
  {
    match f
    case NumberFormat =>
      assert Resolve(NumberFormatException) == IllegalArgExceptionHandler;
    case IllegalEnumName =>
      assert Resolve(IllegalArgumentException) == IllegalArgExceptionHandler;
    case NoSuchElement =>
      assert Resolve(NoSuchElementException) == NotFoundOrNoSuchElementExceptionHandler;
    case NullDeref =>
      assert Resolve(NullPointerException) == OtherExceptionsHandler;
    case IndexOutOfBounds =>
      assert Resolve(IndexOutOfBoundsException) == OtherExceptionsHandler;
    case ParseFailure =>
      assert Resolve(DateTimeParseException) == OtherExceptionsHandler;
  }

  /** The faults decoding one CSV record can end with. */
  predicate IsDecodeFault(f: Fault) {
    f == NumberFormat || f == IndexOutOfBounds || f == ParseFailure || f == IllegalEnumName
  }

  /**
   * A failed `patchOrder` leaves the store as it was and answers 400 for an
   * id that is not a number and 404 for a number that is not stored.
   */
  lemma PatchErrorResponse(m: Store, id: string, e: EditedOrder)
    requires KeysMatchIds(m)
    ensures var s := Patch(m, id, e);
      s.outcome.Err? ==>
        && s.store == m
        && StatusFor(s.outcome.fault) == (if ParseLong(id).None? then BadRequest else NotFound)
  {
    var s := Patch(m, id, e);
    if s.outcome.Err? {
      assert ParseLong(id).Some? ==> ParseLong(id).value !in m;
    }
  }

  /**
   * A failed `approveOrder` or `deliverOrder` leaves the store as it was and
   * answers 400 for an id that is not a number and 500, not 404, for a number
   * that is not stored.
   */
  lemma StatusChangeErrorResponse(m: Store, id: string, status: Status)
    ensures var s := SetStatus(m, id, status);
      s.outcome.Err? ==>
        && s.store == m
        && StatusFor(s.outcome.fault) == (if ParseLong(id).None? then BadRequest else InternalServerError)
  {
    var s := SetStatus(m, id, status);
    if s.outcome.Err? {
      assert ParseLong(id).Some? ==> ParseLong(id).value !in m;
    }
  }

  /** `deleteOrder` fails exactly when the id is not a number, and then answers 400. */
  lemma DeleteErrorResponse(m: Store, id: string)
    ensures var s := Delete(m, id);
      && (s.outcome.Err? <==> ParseLong(id).None?)
      && (s.outcome.Err? ==> s.store == m && StatusFor(s.outcome.fault) == BadRequest)
  {
  }

  /** Decoding a record fails only with a malformed number, a short record, a bad date or a bad status. */
  lemma DecodeFaults(rec: seq<string>, env: Environment)
    requires |rec| > 2
    ensures DecodeRecord(rec, env).Err? ==> IsDecodeFault(DecodeRecord(rec, env).fault)
  {
  }

  /**
   * The status a failing record is answered with, cause by cause: 400 when
   * an integer field or the status name is rejected, 500 when the record is
   * too short or the date does not parse.
   */
  lemma RecordErrorResponse(rec: seq<string>, env: Environment)
    requires |rec| > 2
    ensures DecodeRecord(rec, env).Err? ==>
      StatusFor(DecodeRecord(rec, env).fault) ==
        if !IntegersParse(rec)
           || (|rec| >= 5 && env.parseDate(rec[3]).Some? && env.statusValueOf(rec[4]).None?)
        then BadRequest
        else InternalServerError
  {
  }

  /** A failed import fails with the fault of one of its records. */
  lemma {:induction false} ImportFaults(recs: seq<seq<string>>, env: Environment)
    ensures ImportRecords(recs, env).Err? ==> IsDecodeFault(ImportRecords(recs, env).fault)
    decreases |recs|
  {
    if recs != [] {
      ImportFaults(recs[1..], env);
      if |recs[0]| > 2 {
        DecodeFaults(recs[0], env);
      }
    }
  }

  /** A failed `addOrdersFromCsv` answers 400 or 500, never 404 or 409. */
  lemma ImportErrorResponse(recs: seq<seq<string>>, env: Environment)
    ensures ImportRecords(recs, env).Err? ==>
      StatusFor(ImportRecords(recs, env).fault) in {BadRequest, InternalServerError}
  {
    ImportFaults(recs, env);
  }

  /** Uploading a file produced by `getOrdersInCsv`, header included, is answered with 400. */
  lemma ReuploadedExportIsBadRequest(vs: seq<Order>, env: Environment)
    ensures ImportRecords(Export(vs, env), env).Err?
    ensures StatusFor(ImportRecords(Export(vs, env), env).fault) == BadRequest
  {
    ExportDoesNotImport(vs, env);
  }
}
