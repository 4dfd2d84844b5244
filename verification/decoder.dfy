/**
 * Decoding of one CSV record of the online-shoppers data set into the
 * 17-value evidence vector and the binary Revenue label.
 *
 * A record is the mapping from column name to raw cell text that a
 * header-driven CSV reader yields. Each failure corresponds to an exception
 * the decoder raises: a column absent from the record (KeyError on the
 * record), a month name absent from the month table (KeyError on the table)
 * and a cell that is not a number (ValueError from int() or float()).
 */
module Decoder {
  import opened Wrappers
  import opened Numbers

  type Row = map<string, string>

  /** One entry of an evidence vector: an integer or a floating point number. */
  datatype Value = Int(n: int) | Float(x: real)

  datatype DecodeError =
    | MissingColumn(column: string)
    | UnknownMonth(month: string)
    | MalformedNumber(column: string, raw: string)

  /** The month table: twelve names onto 0..11; June is spelled out in full. */
  const Months: map<string, nat> := map[
    "Jan" := 0, "Feb" := 1, "Mar" := 2, "Apr" := 3,
    "May" := 4, "June" := 5, "Jul" := 6, "Aug" := 7,
    "Sep" := 8, "Oct" := 9, "Nov" := 10, "Dec" := 11
  ]

  /** The same twelve names in calendar order, January first. */
  const CalendarOrder: seq<string> :=
    ["Jan", "Feb", "Mar", "Apr", "May", "June", "Jul", "Aug", "Sep", "Oct", "Nov", "Dec"]

  // ---------------------------------------------------------------------
  // The layout of an evidence vector
  // ---------------------------------------------------------------------

  /** How a column's text becomes an evidence value. */
  datatype Kind = Integer | Decimal | MonthName | Visitor | WeekendFlag

  datatype Field = Field(name: string, kind: Kind)

  /** The seventeen evidence fields with their conversions, in the order they are appended. */
  const Schema: seq<Field> := [
    Field("Administrative", Integer),
    Field("Administrative_Duration", Decimal),
    Field("Informational", Integer),
    Field("Informational_Duration", Decimal),
    Field("ProductRelated", Integer),
    Field("ProductRelated_Duration", Decimal),
    Field("BounceRates", Decimal),
    Field("ExitRates", Decimal),
    Field("PageValues", Decimal),
    Field("SpecialDay", Decimal),
    Field("Month", MonthName),
    Field("OperatingSystems", Integer),
    Field("Browser", Integer),
    Field("Region", Integer),
    Field("TrafficType", Integer),
    Field("VisitorType", Visitor),
    Field("Weekend", WeekendFlag)
  ]

  // ---------------------------------------------------------------------
  // The categorical encodings
  // ---------------------------------------------------------------------

  /** The month-table lookup; a name outside the table is an error, never a default. */
  function MonthIndex(month: string): (r: Result<nat, DecodeError>)
    ensures r.Ok? ==> r.value < 12 && CalendarOrder[r.value] == month
    ensures r.Err? ==> r.error == UnknownMonth(month)
  {
    if month in Months then Ok(Months[month]) else Err(UnknownMonth(month))
  }

  /** VisitorType collapses to 1 exactly for "Returning_Visitor"; any other text is 0. */
  function VisitorTypeCode(raw: string): (b: int)
    ensures b == 0 || b == 1
    ensures b == 1 <==> raw == "Returning_Visitor"
  {
    if raw == "Returning_Visitor" then 1 else 0
  }

  /** Weekend collapses to 1 exactly for "TRUE"; any other text, "True" included, is 0. */
  function WeekendCode(raw: string): (b: int)
    ensures b == 0 || b == 1
    ensures b == 1 <==> raw == "TRUE"
  {
    if raw == "TRUE" then 1 else 0
  }

  /** The label is 1 exactly when Revenue is "TRUE", and 0 for any other text. */
  function RevenueLabel(raw: string): (b: int)
    ensures b == 0 || b == 1
    ensures b == 1 <==> raw == "TRUE"
  {
    if raw == "TRUE" then 1 else 0
  }

  // ---------------------------------------------------------------------
  // The record decoder
  // ---------------------------------------------------------------------

  /** Reads a column of the record; an absent column is the lookup's KeyError. */
  function Column(row: Row, name: string): Result<string, DecodeError>
  {
    if name in row then Ok(row[name]) else Err(MissingColumn(name))
  }

  /** Converts the text of one column as the field's kind says. */
  function DecodeCell(name: string, kind: Kind, raw: string): Result<Value, DecodeError>
  {
    match kind
    case Integer =>
      (match ParseInt(raw)
       case Some(n) => Ok(Int(n))
       case None => Err(MalformedNumber(name, raw)))
    case Decimal =>
      (match ParseFloat(raw)
       case Some(x) => Ok(Float(x))
       case None => Err(MalformedNumber(name, raw)))
    case MonthName =>
      var index :- MonthIndex(raw);
      Ok(Int(index))
    case Visitor => Ok(Int(VisitorTypeCode(raw)))
    case WeekendFlag => Ok(Int(WeekendCode(raw)))
  }

  /** One evidence value: the column is looked up first, then converted. */
  function DecodeField(row: Row, f: Field): Result<Value, DecodeError>
  {
    var raw :- Column(row, f.name);
    DecodeCell(f.name, f.kind, raw)
  }

  /** The values of fields[from..], appended one by one; the first field that fails stops decoding. */
  function DecodeFields(row: Row, fields: seq<Field>, from: nat): Result<seq<Value>, DecodeError>
    requires from <= |fields|
    decreases |fields| - from
  {
    if from == |fields| then Ok([])
    else
      var v :- DecodeField(row, fields[from]);
      var vs :- DecodeFields(row, fields, from + 1);
      Ok([v] + vs)
  }

  /** The evidence vector of one record: one value per schema field. */
  function DecodeEvidence(row: Row): (r: Result<seq<Value>, DecodeError>)
    ensures r.Ok? ==> |r.value| == |Schema| == 17
  {
    DecodeFieldsOk(row, Schema, 0);
    DecodeFields(row, Schema, 0)
  }

  /**
   * The label of one record. It needs only the Revenue column, and it is 1
   * exactly for "TRUE"; without Revenue it fails with a missing column.
   */
  function DecodeLabel(row: Row): (r: Result<int, DecodeError>)
    ensures r.Ok? <==> "Revenue" in row
    ensures r.Err? ==> r.error == MissingColumn("Revenue")
    ensures r.Ok? ==> (r.value == 0 || r.value == 1) && (r.value == 1 <==> row["Revenue"] == "TRUE")
  {
    var raw :- Column(row, "Revenue");
    Ok(RevenueLabel(raw))
  }

  /** A cell the decoder accepts: present and, for numbers and months, well formed. */
  predicate ValidCell(row: Row, f: Field)
  {
    && f.name in row
    && match f.kind
       case Integer => ParseInt(row[f.name]).Some?
       case Decimal => ParseFloat(row[f.name]).Some?
       case MonthName => row[f.name] in Months
       case Visitor => true
       case WeekendFlag => true
  }

  /** The value a valid cell stands for, independently of how the decoder reaches it. */
  function CellValue(row: Row, f: Field): Value
    requires ValidCell(row, f)
  {
    var raw := row[f.name];
    match f.kind
    case Integer => Int(ParseInt(raw).value)
    case Decimal => Float(ParseFloat(raw).value)
    case MonthName => Int(Months[raw])
    case Visitor => Int(VisitorTypeCode(raw))
    case WeekendFlag => Int(WeekendCode(raw))
  }

  // ---------------------------------------------------------------------
  // Properties
  // ---------------------------------------------------------------------

  /** The month table is the calendar: name i maps to i, and no other string is a month. */
  lemma MonthTableIsCalendar()
    ensures |CalendarOrder| == 12
    ensures forall i :: 0 <= i < 12 ==> MonthIndex(CalendarOrder[i]) == Ok(i)
    ensures forall s :: MonthIndex(s).Ok? <==> s in CalendarOrder
    ensures MonthIndex("Jun") == Err(UnknownMonth("Jun"))
  {
  }

  /** A field decodes exactly when its cell is valid, and it fails with the error the cell calls for. */
  lemma DecodeFieldValid(row: Row, f: Field)
    ensures DecodeField(row, f).Ok? <==> ValidCell(row, f)
    ensures ValidCell(row, f) ==> DecodeField(row, f) == Ok(CellValue(row, f))
    ensures f.name !in row ==> DecodeField(row, f) == Err(MissingColumn(f.name))
    ensures f.name in row && f.kind == MonthName && row[f.name] !in Months ==>
              DecodeField(row, f) == Err(UnknownMonth(row[f.name]))
    ensures f.name in row && (f.kind == Integer || f.kind == Decimal) && !ValidCell(row, f) ==>
              DecodeField(row, f) == Err(MalformedNumber(f.name, row[f.name]))
  {
  }

  /** Table-driven decoding succeeds exactly when every field decodes, one value per field, in order. */
  lemma {:induction false} DecodeFieldsOk(row: Row, fields: seq<Field>, from: nat)
    requires from <= |fields|
    decreases |fields| - from
    ensures DecodeFields(row, fields, from).Ok? <==>
              forall k :: from <= k < |fields| ==> DecodeField(row, fields[k]).Ok?
    ensures DecodeFields(row, fields, from).Ok? ==>
              var vs := DecodeFields(row, fields, from).value;
              |vs| == |fields| - from &&
              forall k :: from <= k < |fields| ==> DecodeField(row, fields[k]) == Ok(vs[k - from])
  {
    if from < |fields| {
      DecodeFieldsOk(row, fields, from + 1);
    }
  }

  /** Table-driven decoding that fails reports the error of the first field that fails. */
  lemma {:induction false} DecodeFieldsFirstError(row: Row, fields: seq<Field>, from: nat, k: nat)
    requires from <= k < |fields| && DecodeField(row, fields[k]).Err?
    requires forall j :: from <= j < k ==> DecodeField(row, fields[j]).Ok?
    decreases k - from
    ensures DecodeFields(row, fields, from) == Err(DecodeField(row, fields[k]).error)
  {
    if from < k {
      DecodeFieldsFirstError(row, fields, from + 1, k);
    }
  }

  /** A table-driven decode that succeeds holds the value of every cell, in table order. */
  lemma FieldsLayout(row: Row, fields: seq<Field>)
    requires DecodeFields(row, fields, 0).Ok?
    ensures var v := DecodeFields(row, fields, 0).value;
      && |v| == |fields|
      && forall k :: 0 <= k < |fields| ==> ValidCell(row, fields[k]) && v[k] == CellValue(row, fields[k])
  {
    DecodeFieldsOk(row, fields, 0);
    var v := DecodeFields(row, fields, 0).value;
    forall k | 0 <= k < |fields|
      ensures ValidCell(row, fields[k]) && v[k] == CellValue(row, fields[k])
    {
      DecodeFieldValid(row, fields[k]);
    }
  }

  /**
   * A decoded record has exactly seventeen values, value k standing for cell k
   * of the table: integers and decimals parsed from their columns, the month as
   * its table index, VisitorType and Weekend as their 0/1 codes.
   */
  lemma EvidenceLayout(row: Row)
    requires DecodeEvidence(row).Ok?
    ensures var v := DecodeEvidence(row).value;
      && |v| == 17
      && (forall k :: 0 <= k < 17 ==> ValidCell(row, Schema[k]) && v[k] == CellValue(row, Schema[k]))
  {
    FieldsLayout(row, Schema);
  }

  /** The three categorical entries of a decoded record: month index, visitor code, weekend code. */
  lemma CategoricalEntries(row: Row)
    requires DecodeEvidence(row).Ok?
    ensures var v := DecodeEvidence(row).value;
      && |v| == 17
      && "Month" in row && row["Month"] in Months && v[10] == Int(Months[row["Month"]])
      && "VisitorType" in row && v[15] == Int(VisitorTypeCode(row["VisitorType"]))
      && "Weekend" in row && v[16] == Int(WeekendCode(row["Weekend"]))
  {
    var v := DecodeEvidence(row).value;
    EntryAt(row, 10);
    EntryAt(row, 15);
    EntryAt(row, 16);
    CategoricalCell(row, Schema[10]);
    CategoricalCell(row, Schema[15]);
    CategoricalCell(row, Schema[16]);
  }

  /** Entry k of a decoded record is the value of cell k. */
  lemma EntryAt(row: Row, k: nat)
    requires DecodeEvidence(row).Ok? && k < 17
    ensures |DecodeEvidence(row).value| == 17
    ensures ValidCell(row, Schema[k]) && DecodeEvidence(row).value[k] == CellValue(row, Schema[k])
  {
    EvidenceLayout(row);
  }

  /** The value of a valid month, visitor or weekend cell. */
  lemma CategoricalCell(row: Row, f: Field)
    requires f in [Field("Month", MonthName), Field("VisitorType", Visitor), Field("Weekend", WeekendFlag)]
    requires ValidCell(row, f)
    ensures f.name in row
    ensures f.kind == MonthName ==> row[f.name] in Months && CellValue(row, f) == Int(Months[row[f.name]])
    ensures f.kind == Visitor ==> CellValue(row, f) == Int(VisitorTypeCode(row[f.name]))
    ensures f.kind == WeekendFlag ==> CellValue(row, f) == Int(WeekendCode(row[f.name]))
  {
  }

  /** A record's evidence decodes exactly when every one of the seventeen cells is valid. */
  lemma EvidenceOkIffValid(row: Row)
    ensures DecodeEvidence(row).Ok? <==> forall k :: 0 <= k < |Schema| ==> ValidCell(row, Schema[k])
  {
    DecodeFieldsOk(row, Schema, 0);
    forall k | 0 <= k < |Schema|
      ensures DecodeField(row, Schema[k]).Ok? <==> ValidCell(row, Schema[k])
    {
      DecodeFieldValid(row, Schema[k]);
    }
  }

  /**
   * A record whose cell k is the first invalid one fails with that cell's error:
   * a missing column, an unknown month or a malformed number.
   */
  lemma EvidenceFirstError(row: Row, k: nat)
    requires k < |Schema| && !ValidCell(row, Schema[k])
    requires forall j :: 0 <= j < k ==> ValidCell(row, Schema[j])
    ensures var f := Schema[k];
      && DecodeEvidence(row).Err?
      && (f.name !in row ==> DecodeEvidence(row) == Err(MissingColumn(f.name)))
      && (f.name in row && f.kind == MonthName ==> DecodeEvidence(row) == Err(UnknownMonth(row[f.name])))
      && (f.name in row && f.kind != MonthName ==> DecodeEvidence(row) == Err(MalformedNumber(f.name, row[f.name])))
  {
    forall j | 0 <= j < k
      ensures DecodeField(row, Schema[j]).Ok?
    {
      DecodeFieldValid(row, Schema[j]);
    }
    DecodeFieldValid(row, Schema[k]);
    DecodeFieldsFirstError(row, Schema, 0, k);
  }

  /** A missing evidence column always makes the record fail. */
  lemma MissingColumnFails(row: Row, k: nat)
    requires k < |Schema| && Schema[k].name !in row
    ensures DecodeEvidence(row).Err?
  {
    EvidenceOkIffValid(row);
  }

  /** A month outside the table, "Jun" included, always makes the record fail. */
  lemma UnknownMonthFails(row: Row)
    requires "Month" in row && row["Month"] !in Months
    ensures DecodeEvidence(row).Err?
  {
    EvidenceOkIffValid(row);
    assert !ValidCell(row, Schema[10]);
  }
}
