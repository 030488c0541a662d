/**
 * The tabular (CSV) part of `OrdersService`, at the level of records: an
 * export is a header record followed by one six-field record per order; an
 * import decodes already-split records positionally.
 */
module OrdersCsv {
  import opened Wrappers
  import opened JavaLong
  import opened Orders
  import opened JavaExceptions

  /**
   * The library behaviour the codec depends on and whose source is not part
   * of this model: printing and parsing an `OffsetDateTime`, the text
   * `StatusEnum.toString` writes, the names `StatusEnum.valueOf` accepts, and
   * the JVM's system properties, which `Boolean.getBoolean` consults.
   */
  datatype Environment = Environment(
    dateText: OffsetDateTime -> string,
    parseDate: string -> Option<OffsetDateTime>,
    statusText: Status -> string,
    statusValueOf: string -> Option<Status>,
    systemProperties: map<string, string>)

  const Header: seq<string> := ["id", "productId", "quantity", "date", "status", "complete"]

  /** `Objects.toString(value, "null")`. */
  function ToStringOrNull<T>(v: Option<T>, show: T -> string): string {
    match v
    case None => "null"
    case Some(x) => show(x)
  }

  /** `Boolean.toString`. */
  function BooleanToString(b: bool): string {
    if b then "true" else "false"
  }

  /** The integer column written for a `Long` field. */
  function LongColumn(v: Option<int>): (t: string)
    ensures t == "null" <==> v.None?
  {
    ToStringOrNull(v, LongToString)
  }

  /** An integer column parses back to the field it was written from; `"null"` does not parse. */
  lemma LongColumnReadsBack(v: Option<int>)
    ensures v.Some? && IsLong(v.value) ==> ParseLong(LongColumn(v)) == v
    ensures v.None? ==> ParseLong(LongColumn(v)) == None
  {
    if v.Some? {
      if IsLong(v.value) {
        LongRoundTrip(v.value);
      }
    } else {
      NonNumericTexts();
    }
  }

  /** The export record of one order: six fields in header order, `"null"` for an absent one. */
  function Row(o: Order, env: Environment): (r: seq<string>)
    ensures |r| == |Header|
  {
    [ LongColumn(o.id),
      LongColumn(o.productId),
      LongColumn(o.quantity),
      ToStringOrNull(o.date, env.dateText),
      ToStringOrNull(o.status, env.statusText),
      ToStringOrNull(o.complete, BooleanToString) ]
  }

  /** An absent field is written as `"null"`; a present integer or `complete` never is. */
  lemma RowShowsAbsentAsNull(o: Order, env: Environment)
    ensures Row(o, env)[0] == "null" <==> o.id.None?
    ensures Row(o, env)[1] == "null" <==> o.productId.None?
    ensures Row(o, env)[2] == "null" <==> o.quantity.None?
    ensures o.date.None? ==> Row(o, env)[3] == "null"
    ensures o.status.None? ==> Row(o, env)[4] == "null"
    ensures Row(o, env)[5] == "null" <==> o.complete.None?
  {
  }

  /** The three integer columns of a record parse back to the order's fields. */
  lemma RowIntegersReadBack(o: Order, env: Environment)
    ensures o.id.Some? && IsLong(o.id.value) ==> ParseLong(Row(o, env)[0]) == o.id
    ensures o.productId.Some? && IsLong(o.productId.value) ==> ParseLong(Row(o, env)[1]) == o.productId
    ensures o.quantity.Some? && IsLong(o.quantity.value) ==> ParseLong(Row(o, env)[2]) == o.quantity
    ensures o.productId.None? ==> ParseLong(Row(o, env)[1]) == None
  {
    LongColumnReadsBack(o.id);
    LongColumnReadsBack(o.productId);
    LongColumnReadsBack(o.quantity);
  }

  /** The records after the header: one per order, in listing order. */
  function ExportBody(vs: seq<Order>, env: Environment): (b: seq<seq<string>>)
    ensures |b| == |vs|
    ensures forall i :: 0 <= i < |b| ==> |b[i]| == |Header|
  {
    seq(|vs|, i requires 0 <= i < |vs| => Row(vs[i], env))
  }

  /** A list holding the record of each order, in order, is the export body. */
  lemma ExportBodyOfRows(vs: seq<Order>, env: Environment, rows: seq<seq<string>>)
    requires |rows| == |vs|
    requires forall j :: 0 <= j < |vs| ==> rows[j] == Row(vs[j], env)
    ensures rows == ExportBody(vs, env)
  {
  }

  /** Everything the CSV printer is given: the header record, then the body. */
  function Export(vs: seq<Order>, env: Environment): (r: seq<seq<string>>)
    ensures |r| == |vs| + 1 && r[0] == Header
    ensures forall i :: 0 <= i < |r| ==> |r[i]| == |Header|
  {
    [Header] + ExportBody(vs, env)
  }

  function ToLowerAscii(c: char): char {
    if 'A' <= c <= 'Z' then ((c as int) + 32) as char else c
  }

  /** `"true".equalsIgnoreCase(s)`. */
  predicate IsTrueIgnoringCase(s: string) {
    |s| == 4 && forall i :: 0 <= i < 4 ==> ToLowerAscii(s[i]) == "true"[i]
  }

  /**
   * `Boolean.getBoolean(name)`: true exactly when a system property called
   * `name` exists and reads "true" in any letter case.
   */
  function GetBoolean(properties: map<string, string>, name: string): (b: bool)
    ensures b ==> name in properties
    ensures properties == map[] ==> !b
  {
    name != "" && name in properties && IsTrueIgnoringCase(properties[name])
  }

  /** `Boolean.parseBoolean(s)`: what reading the `complete` column evidently intends. */
  function ParseBoolean(s: string): (b: bool)
    ensures b <==> seq(|s|, i requires 0 <= i < |s| => ToLowerAscii(s[i])) == "true"
  {
    var lower := seq(|s|, i requires 0 <= i < |s| => ToLowerAscii(s[i]));
    assert IsTrueIgnoringCase(s) ==> lower == "true";
    assert lower == "true" ==> forall i :: 0 <= i < 4 ==> ToLowerAscii(s[i]) == lower[i];
    IsTrueIgnoringCase(s)
  }

  /** `Boolean.parseBoolean` reads back what `Boolean.toString` wrote. */
  lemma ParseBooleanReadsBack(b: bool)
    ensures ParseBoolean(BooleanToString(b)) == b
  {
    if b {
      assert forall i :: 0 <= i < 4 ==> ToLowerAscii("true"[i]) == "true"[i];
    }
  }

  /** `Boolean.getBoolean` on the written text of `true` answers false unless a system property says otherwise. */
  lemma GetBooleanDropsTrue(properties: map<string, string>)
    requires "true" !in properties
    ensures GetBoolean(properties, BooleanToString(true)) == false
  {
  }

  /** The first three fields of a record all parse as `long`s. */
  predicate IntegersParse(rec: seq<string>)
    requires |rec| > 2
  {
    ParseLong(rec[0]).Some? && ParseLong(rec[1]).Some? && ParseLong(rec[2]).Some?
  }

  /**
   * One import record of more than two fields, read positionally; the first
   * failing step decides the fault, and reading a field past the end raises
   * `IndexOutOfBoundsException`.
   */
  function DecodeRecord(rec: seq<string>, env: Environment): (r: Outcome<Order>)
    requires |rec| > 2
    ensures r.Ok? ==> |rec| >= 6
    ensures r.Ok? <==>
      && ParseLong(rec[0]).Some? && ParseLong(rec[1]).Some? && ParseLong(rec[2]).Some?
      && |rec| >= 6 && env.parseDate(rec[3]).Some? && env.statusValueOf(rec[4]).Some?
    ensures r.Ok? ==>
      && r.value.id == ParseLong(rec[0])
      && r.value.productId == ParseLong(rec[1])
      && r.value.quantity == ParseLong(rec[2])
      && r.value.date == env.parseDate(rec[3])
      && r.value.status == env.statusValueOf(rec[4])
      && r.value.complete == Some(GetBoolean(env.systemProperties, rec[5]))
    ensures ParseLong(rec[0]).None? ==> r == Err(NumberFormat)
    ensures ParseLong(rec[0]).Some? && ParseLong(rec[1]).None? ==> r == Err(NumberFormat)
    ensures ParseLong(rec[0]).Some? && ParseLong(rec[1]).Some? && ParseLong(rec[2]).None? ==> r == Err(NumberFormat)
    ensures IntegersParse(rec) && |rec| == 3 ==> r == Err(IndexOutOfBounds)
    ensures IntegersParse(rec) && |rec| >= 4 && env.parseDate(rec[3]).None? ==> r == Err(ParseFailure)
    ensures IntegersParse(rec) && |rec| == 4 && env.parseDate(rec[3]).Some? ==> r == Err(IndexOutOfBounds)
    ensures IntegersParse(rec) && |rec| >= 5 && env.parseDate(rec[3]).Some? && env.statusValueOf(rec[4]).None?
      ==> r == Err(IllegalEnumName)
    ensures IntegersParse(rec) && |rec| == 5 && env.parseDate(rec[3]).Some? && env.statusValueOf(rec[4]).Some?
      ==> r == Err(IndexOutOfBounds)
  {
    match ParseLong(rec[0])
    case None => Err(NumberFormat)
    case Some(id) =>
      match ParseLong(rec[1])
      case None => Err(NumberFormat)
      case Some(productId) =>
        match ParseLong(rec[2])
        case None => Err(NumberFormat)
        case Some(quantity) =>
          if |rec| <= 3 then Err(IndexOutOfBounds)
          else match env.parseDate(rec[3])
            case None => Err(ParseFailure)
            case Some(date) =>
              if |rec| <= 4 then Err(IndexOutOfBounds)
              else match env.statusValueOf(rec[4])
                case None => Err(IllegalEnumName)
                case Some(status) =>
                  if |rec| <= 5 then Err(IndexOutOfBounds)
                  else Ok(Order(Some(id), Some(productId), Some(quantity), Some(date), Some(status),
                                Some(GetBoolean(env.systemProperties, rec[5]))))
  }

  /** The records an import does not skip: those of more than two fields. */
  function LongRecords(recs: seq<seq<string>>): (r: seq<seq<string>>)
    ensures forall i :: 0 <= i < |r| ==> |r[i]| > 2
    ensures |r| <= |recs|
  {
    if recs == [] then []
    else if |recs[0]| <= 2 then LongRecords(recs[1..])
    else [recs[0]] + LongRecords(recs[1..])
  }

  /**
   * The loop of `addOrdersFromCsv`: records of at most two fields are
   * skipped, every other record is decoded in turn, and the first failing
   * one ends the whole import with its fault.
   */
  function ImportRecords(recs: seq<seq<string>>, env: Environment): (r: Outcome<seq<Order>>)
    ensures r.Ok? ==> |r.value| == |LongRecords(recs)|
    ensures r.Ok? ==> forall i :: 0 <= i < |r.value| ==> r.value[i].id.Some?
    decreases |recs|
  {
    if recs == [] then Ok([])
    else
      var rest := ImportRecords(recs[1..], env);
      if |recs[0]| <= 2 then rest
      else match DecodeRecord(recs[0], env)
        case Err(f) => Err(f)
        case Ok(o) =>
          match rest
          case Err(f) => Err(f)
          case Ok(os) => Ok([o] + os)
  }

  /** An import succeeds exactly when every record of more than two fields decodes. */
  lemma {:induction false} ImportSucceedsIffEveryRecordDecodes(recs: seq<seq<string>>, env: Environment)
    ensures ImportRecords(recs, env).Ok? <==>
      forall i :: 0 <= i < |recs| && |recs[i]| > 2 ==> DecodeRecord(recs[i], env).Ok?
    decreases |recs|
  {
    if recs != [] {
      ImportSucceedsIffEveryRecordDecodes(recs[1..], env);
      assert forall i :: 1 <= i < |recs| ==> recs[i] == recs[1..][i - 1];
    }
  }

  /** A successful import yields the orders of the records it does not skip, in record order. */
  lemma {:induction false} ImportYieldsDecodedOrders(recs: seq<seq<string>>, env: Environment)
    requires ImportRecords(recs, env).Ok?
    ensures var os := ImportRecords(recs, env).value;
      && |os| == |LongRecords(recs)|
      && forall i :: 0 <= i < |os| ==> DecodeRecord(LongRecords(recs)[i], env) == Ok(os[i])
    decreases |recs|
  {
    if recs != [] {
      var rest := ImportRecords(recs[1..], env);
      if |recs[0]| > 2 {
        assert DecodeRecord(recs[0], env).Ok? && rest.Ok?;
        ImportYieldsDecodedOrders(recs[1..], env);
        var os := ImportRecords(recs, env).value;
        assert os == [DecodeRecord(recs[0], env).value] + rest.value;
        assert LongRecords(recs) == [recs[0]] + LongRecords(recs[1..]);
        forall i | 0 <= i < |os| ensures DecodeRecord(LongRecords(recs)[i], env) == Ok(os[i]) {
          if i > 0 {
            assert LongRecords(recs)[i] == LongRecords(recs[1..])[i - 1];
            assert os[i] == rest.value[i - 1];
          }
        }
      } else {
        ImportYieldsDecodedOrders(recs[1..], env);
      }
    }
  }

  /** The orders decoded so far, put in front of what the rest of the records give. */
  function Prepend(done: seq<Order>, rest: Outcome<seq<Order>>): Outcome<seq<Order>> {
    match rest
    case Err(f) => Err(f)
    case Ok(os) => Ok(done + os)
  }

  lemma PrependTwice(done: seq<Order>, o: Order, rest: Outcome<seq<Order>>)
    ensures Prepend(done, Prepend([o], rest)) == Prepend(done + [o], rest)
  {
    if rest.Ok? {
      assert done + ([o] + rest.value) == (done + [o]) + rest.value;
    }
  }

  /** One step of the import loop, at record `i`. */
  lemma ImportRecordsAt(recs: seq<seq<string>>, i: nat, env: Environment)
    requires i < |recs|
    ensures ImportRecords(recs[i..], env) ==
      if |recs[i]| <= 2 then ImportRecords(recs[i + 1..], env)
      else match DecodeRecord(recs[i], env)
        case Err(f) => Err(f)
        case Ok(o) => Prepend([o], ImportRecords(recs[i + 1..], env))
  {
    assert recs[i..][0] == recs[i];
    assert recs[i..][1..] == recs[i + 1..];
  }

  /** An import stops at the first record that fails, and fails with that record's fault. */
  lemma {:induction false} ImportFailsAtFirstFailingRecord(recs: seq<seq<string>>, env: Environment, i: nat)
    requires i < |recs| && |recs[i]| > 2 && DecodeRecord(recs[i], env).Err?
    requires forall j :: 0 <= j < i && |recs[j]| > 2 ==> DecodeRecord(recs[j], env).Ok?
    ensures ImportRecords(recs, env) == Err(DecodeRecord(recs[i], env).fault)
    decreases i
  {
    if i > 0 {
      assert forall j :: 0 <= j < i - 1 ==> recs[1..][j] == recs[j + 1];
      ImportFailsAtFirstFailingRecord(recs[1..], env, i - 1);
    }
  }

  /** Dropping the records of at most two fields beforehand changes nothing. */
  lemma {:induction false} ImportIgnoresShortRecords(recs: seq<seq<string>>, env: Environment)
    ensures ImportRecords(recs, env) == ImportRecords(LongRecords(recs), env)
    decreases |recs|
  {
    if recs != [] {
      ImportIgnoresShortRecords(recs[1..], env);
      if |recs[0]| > 2 {
        assert LongRecords(recs)[1..] == LongRecords(recs[1..]);
      }
    }
  }

  /** The header record is never stripped, and `Long.parseLong("id")` fails: an export never imports. */
  lemma ExportDoesNotImport(vs: seq<Order>, env: Environment)
    ensures ImportRecords(Export(vs, env), env) == Err(NumberFormat)
  {
    NonNumericTexts();
    ImportFailsAtFirstFailingRecord(Export(vs, env), env, 0);
  }

  /** Even without the header, a first order lacking its product id exports `"null"`, which does not parse. */
  lemma ExportWithAbsentProductIdDoesNotImport(vs: seq<Order>, env: Environment)
    requires |vs| > 0 && vs[0].productId.None?
    ensures ImportRecords(ExportBody(vs, env), env) == Err(NumberFormat)
  {
    assert ExportBody(vs, env)[0] == Row(vs[0], env);
    RowIntegersReadBack(vs[0], env);
    ImportFailsAtFirstFailingRecord(ExportBody(vs, env), env, 0);
  }

  /** Every field but `complete` set, the integers within `long` range, date and status readable back. */
  ghost predicate Exportable(o: Order, env: Environment) {
    && o.id.Some? && o.productId.Some? && o.quantity.Some?
    && o.date.Some? && o.status.Some?
    && IsLong(o.id.value) && IsLong(o.productId.value) && IsLong(o.quantity.value)
    && env.parseDate(env.dateText(o.date.value)) == Some(o.date.value)
    && env.statusValueOf(env.statusText(o.status.value)) == Some(o.status.value)
  }

  /** What import makes of the written `complete` text: `Boolean.getBoolean` of "true", "false" or "null". */
  function CoerceComplete(o: Order, env: Environment): Order {
    o.(complete := Some(GetBoolean(env.systemProperties, ToStringOrNull(o.complete, BooleanToString))))
  }

  /** One exported record decodes to the same order, except for `complete`. */
  lemma RowRoundTrip(o: Order, env: Environment)
    requires Exportable(o, env)
    ensures DecodeRecord(Row(o, env), env) == Ok(CoerceComplete(o, env))
  {
    RowIntegersReadBack(o, env);
  }

  /** `CoerceComplete` applied to every order. */
  function CoerceAll(vs: seq<Order>, env: Environment): seq<Order> {
    if vs == [] then [] else [CoerceComplete(vs[0], env)] + CoerceAll(vs[1..], env)
  }

  /**
   * Without the header, the export of such orders imports back to the
   * same orders in the same order, except that `complete` goes through
   * `Boolean.getBoolean`.
   */
  lemma {:induction false} BodyRoundTrip(vs: seq<Order>, env: Environment)
    requires forall i :: 0 <= i < |vs| ==> Exportable(vs[i], env)
    ensures ImportRecords(ExportBody(vs, env), env) == Ok(CoerceAll(vs, env))
    decreases |vs|
  {
    if vs == [] {
      assert ExportBody(vs, env) == [];
    } else {
      ExportBodyCons(vs, env);
      RowRoundTrip(vs[0], env);
      assert forall i :: 0 <= i < |vs| - 1 ==> vs[1..][i] == vs[i + 1];
      BodyRoundTrip(vs[1..], env);
      ImportRecordsCons(Row(vs[0], env), ExportBody(vs[1..], env), env);
    }
  }

  /** The export body of a non-empty list: the first order's record, then the rest's. */
  lemma ExportBodyCons(vs: seq<Order>, env: Environment)
    requires vs != []
    ensures ExportBody(vs, env) == [Row(vs[0], env)] + ExportBody(vs[1..], env)
  {
    var body, rest := ExportBody(vs, env), ExportBody(vs[1..], env);
    assert |body| == 1 + |rest|;
    forall i | 0 <= i < |body| ensures body[i] == ([Row(vs[0], env)] + rest)[i] {
      if i > 0 {
        assert rest[i - 1] == Row(vs[1..][i - 1], env);
      }
    }
  }

  /** Importing one record in front of others. */
  lemma ImportRecordsCons(rec: seq<string>, recs: seq<seq<string>>, env: Environment)
    ensures |rec| <= 2 ==> ImportRecords([rec] + recs, env) == ImportRecords(recs, env)
    ensures |rec| > 2 && DecodeRecord(rec, env).Err? ==>
      ImportRecords([rec] + recs, env) == Err(DecodeRecord(rec, env).fault)
    ensures |rec| > 2 && DecodeRecord(rec, env).Ok? ==>
      ImportRecords([rec] + recs, env) == Prepend([DecodeRecord(rec, env).value], ImportRecords(recs, env))
  {
    assert ([rec] + recs)[1..] == recs;
  }

  /** With no system properties set, every imported order has `complete` false. */
  lemma ImportedCompleteIsFalseByDefault(recs: seq<seq<string>>, env: Environment)
    requires env.systemProperties == map[]
    requires ImportRecords(recs, env).Ok?
    ensures forall o :: o in ImportRecords(recs, env).value ==> o.complete == Some(false)
  {
    var r := ImportRecords(recs, env).value;
    ImportYieldsDecodedOrders(recs, env);
    forall o | o in r ensures o.complete == Some(false) {
      var i :| 0 <= i < |r| && r[i] == o;
      assert DecodeRecord(LongRecords(recs)[i], env) == Ok(o);
    }
  }

  /** A status whose written text is no constant name makes the order's record fail with `IllegalArgumentException`. */
  lemma StatusTextNotAcceptedFails(o: Order, env: Environment)
    requires o.id.Some? && o.productId.Some? && o.quantity.Some? && o.date.Some? && o.status.Some?
    requires IsLong(o.id.value) && IsLong(o.productId.value) && IsLong(o.quantity.value)
    requires env.parseDate(env.dateText(o.date.value)) == Some(o.date.value)
    requires env.statusValueOf(env.statusText(o.status.value)) == None
    ensures DecodeRecord(Row(o, env), env) == Err(IllegalEnumName)
  {
    RowIntegersReadBack(o, env);
  }
}
