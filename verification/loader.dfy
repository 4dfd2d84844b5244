/**
 * Loading a whole data file: every record, in file order, goes through the
 * record decoder, and its evidence vector and label are appended to two
 * parallel lists. The first record that fails aborts loading with its error.
 */
module Loader {
  import opened Wrappers
  import opened Decoder

  /** The evidence vectors and the labels, entry i of each from record i. */
  datatype Dataset = Dataset(evidence: seq<seq<Value>>, labels: seq<int>)

  /** One record: its evidence first, then its label, so an evidence error wins over a missing Revenue. */
  function DecodeRow(row: Row): Result<(seq<Value>, int), DecodeError>
  {
    var data :- DecodeEvidence(row);
    var revenue :- DecodeLabel(row);
    Ok((data, revenue))
  }

  /** What decoding one record yields: its evidence and label, or the error it raises. */
  type Decoded = Result<(seq<Value>, int), DecodeError>

  /** The outcome of every record, in file order. */
  function DecodeEach(rows: seq<Row>): (outcomes: seq<Decoded>)
    ensures |outcomes| == |rows|
    ensures forall i :: 0 <= i < |rows| ==> outcomes[i] == DecodeRow(rows[i])
  {
    seq(|rows|, i requires 0 <= i < |rows| => DecodeRow(rows[i]))
  }

  /**
   * Accumulation of the outcomes: the records before the last one, then the last
   * one; the first failure is the result.
   */
  function Collect(outcomes: seq<Decoded>): Result<Dataset, DecodeError>
  {
    if outcomes == [] then Ok(Dataset([], []))
    else
      var ds :- Collect(outcomes[..|outcomes| - 1]);
      var decoded :- outcomes[|outcomes| - 1];
      Ok(Dataset(ds.evidence + [decoded.0], ds.labels + [decoded.1]))
  }

  /** Loading a file: decode every record, then collect the outcomes. */
  function DecodeRows(rows: seq<Row>): Result<Dataset, DecodeError>
  {
    Collect(DecodeEach(rows))
  }

  /**
   * The loading loop. After every record the two lists have the same length and
   * hold the decoded prefix of the file; a failing record ends loading with its error.
   */
  method LoadData(rows: seq<Row>) returns (result: Result<Dataset, DecodeError>)
    ensures result == DecodeRows(rows)
    ensures result.Ok? ==> |result.value.evidence| == |result.value.labels| == |rows|
  {
    ghost var outcomes := DecodeEach(rows);
    var evidence: seq<seq<Value>> := [];
    var labels: seq<int> := [];
    for i := 0 to |rows|
      invariant |evidence| == |labels| == i
      invariant Collect(outcomes[..i]) == Ok(Dataset(evidence, labels))
    {
      var row := rows[i];
      assert outcomes[..i + 1][..i] == outcomes[..i];
      var data := DecodeEvidence(row);
      if data.Err? {
        CollectErrorPersists(outcomes, i + 1);
        return Err(data.error);
      }
      evidence := evidence + [data.value];
      var revenue := DecodeLabel(row);
      if revenue.Err? {
        CollectErrorPersists(outcomes, i + 1);
        return Err(revenue.error);
      }
      labels := labels + [revenue.value];
    }
    assert outcomes[..|rows|] == outcomes;
    return Ok(Dataset(evidence, labels));
  }

  // ---------------------------------------------------------------------
  // Properties of one record
  // ---------------------------------------------------------------------

  /**
   * A record decodes exactly when its seventeen cells are valid and it has a
   * Revenue column, to seventeen values and the Revenue label. An evidence
   * error is reported ahead of a missing Revenue column.
   */
  lemma DecodeRowOutcome(row: Row)
    ensures DecodeRow(row).Ok? <==>
              (forall k :: 0 <= k < |Schema| ==> ValidCell(row, Schema[k])) && "Revenue" in row
    ensures DecodeRow(row).Ok? ==>
              && "Revenue" in row
              && |DecodeRow(row).value.0| == 17
              && DecodeRow(row).value.1 == RevenueLabel(row["Revenue"])
    ensures DecodeEvidence(row).Err? ==> DecodeRow(row) == Err(DecodeEvidence(row).error)
    ensures (forall k :: 0 <= k < |Schema| ==> ValidCell(row, Schema[k])) && "Revenue" !in row ==>
              DecodeRow(row) == Err(MissingColumn("Revenue"))
  {
    EvidenceOkIffValid(row);
  }

  /** A record holding only Revenue fails on its first evidence column, not on its label. */
  lemma EvidenceErrorWins()
    ensures DecodeRow(map["Revenue" := "TRUE"]) == Err(MissingColumn("Administrative"))
  {
    var row: Row := map["Revenue" := "TRUE"];
    assert Schema[0].name == "Administrative" && Schema[0].name !in row;
    EvidenceFirstError(row, 0);
  }

  // ---------------------------------------------------------------------
  // Properties of the accumulation
  // ---------------------------------------------------------------------

  /** Once a prefix of the outcomes fails, the whole accumulation fails with the same error. */
  lemma {:induction false} CollectErrorPersists(outcomes: seq<Decoded>, n: nat)
    requires n <= |outcomes| && Collect(outcomes[..n]).Err?
    ensures Collect(outcomes) == Collect(outcomes[..n])
  {
    if n < |outcomes| {
      var init := outcomes[..|outcomes| - 1];
      assert init[..n] == outcomes[..n];
      CollectErrorPersists(init, n);
    } else {
      assert outcomes[..n] == outcomes;
    }
  }

  /** A successful accumulation has one evidence vector and one label per outcome, in order. */
  lemma {:induction false} CollectAligned(outcomes: seq<Decoded>)
    requires Collect(outcomes).Ok?
    ensures var ds := Collect(outcomes).value;
      && |ds.evidence| == |ds.labels| == |outcomes|
      && forall i :: 0 <= i < |outcomes| ==> outcomes[i] == Ok((ds.evidence[i], ds.labels[i]))
  {
    if outcomes != [] {
      var init := outcomes[..|outcomes| - 1];
      CollectAligned(init);
      assert forall i :: 0 <= i < |init| ==> init[i] == outcomes[i];
    }
  }

  /** The accumulation succeeds exactly when every outcome does. */
  lemma {:induction false} CollectOkIff(outcomes: seq<Decoded>)
    ensures Collect(outcomes).Ok? <==> forall i :: 0 <= i < |outcomes| ==> outcomes[i].Ok?
  {
    if outcomes != [] {
      var init := outcomes[..|outcomes| - 1];
      CollectOkIff(init);
      assert forall i :: 0 <= i < |init| ==> init[i] == outcomes[i];
    }
  }

  /** A failed accumulation reports the error of the first failing outcome. */
  lemma CollectFirstError(outcomes: seq<Decoded>, i: nat)
    requires i < |outcomes| && outcomes[i].Err?
    requires forall j :: 0 <= j < i ==> outcomes[j].Ok?
    ensures Collect(outcomes) == Err(outcomes[i].error)
  {
    var prefix := outcomes[..i];
    CollectOkIff(prefix);
    var upto := outcomes[..i + 1];
    assert upto[..i] == prefix;
    CollectErrorPersists(outcomes, i + 1);
  }

  // ---------------------------------------------------------------------
  // Properties of loading a file
  // ---------------------------------------------------------------------

  /**
   * A loaded dataset is aligned: one evidence vector and one label per record,
   * entry i of both decoded from record i.
   */
  lemma DecodeRowsAligned(rows: seq<Row>)
    requires DecodeRows(rows).Ok?
    ensures var ds := DecodeRows(rows).value;
      && |ds.evidence| == |ds.labels| == |rows|
      && forall i :: 0 <= i < |rows| ==> DecodeRow(rows[i]) == Ok((ds.evidence[i], ds.labels[i]))
  {
    CollectAligned(DecodeEach(rows));
  }

  /** Loading succeeds exactly when every record decodes. */
  lemma DecodeRowsOkIff(rows: seq<Row>)
    ensures DecodeRows(rows).Ok? <==> forall i :: 0 <= i < |rows| ==> DecodeRow(rows[i]).Ok?
  {
    CollectOkIff(DecodeEach(rows));
  }

  /** Loading that fails reports the error of the first record that fails. */
  lemma DecodeRowsFirstError(rows: seq<Row>, i: nat)
    requires i < |rows| && DecodeRow(rows[i]).Err?
    requires forall j :: 0 <= j < i ==> DecodeRow(rows[j]).Ok?
    ensures DecodeRows(rows) == Err(DecodeRow(rows[i]).error)
  {
    CollectFirstError(DecodeEach(rows), i);
  }

  /** Every loaded evidence vector has seventeen entries and every loaded label is 0 or 1. */
  lemma LoadedShape(rows: seq<Row>)
    requires DecodeRows(rows).Ok?
    ensures var ds := DecodeRows(rows).value;
      && (forall i :: 0 <= i < |ds.evidence| ==> |ds.evidence[i]| == 17)
      && (forall i :: 0 <= i < |ds.labels| ==> ds.labels[i] == 0 || ds.labels[i] == 1)
  {
    var ds := DecodeRows(rows).value;
    DecodeRowsAligned(rows);
    forall i | 0 <= i < |rows|
      ensures |ds.evidence[i]| == 17 && (ds.labels[i] == 0 || ds.labels[i] == 1)
    {
      assert DecodeRow(rows[i]) == Ok((ds.evidence[i], ds.labels[i]));
      DecodeRowOutcome(rows[i]);
    }
  }
}
