/**
 * The payment-history tab of app.js: the snapshot fetched by
 * `loadPaymentHistory` and the CSV text its download button builds from
 * that snapshot (header row, one row per payment, joined without quoting).
 */
module Payments {
  import opened Wrappers
  import opened Text

  /**
   * One record of the `payments` array. Amounts and counts are opaque and kept
   * as the text `join` would write for them; the three optional properties may
   * be missing.
   */
  datatype Payment = Payment(
    transactionID: string,
    receiptNumber: Option<string>,
    date: string,
    amountUSD: string,
    amountZWL: string,
    monthsPaid: string,
    status: string,
    pickupDate: Option<string>,
    scheduleFileLink: Option<string>)

  const HEADER: seq<string> := ["TransactionID", "ReceiptNumber", "Date", "AmountUSD", "AmountZWL",
                                "MonthsPaid", "Status", "PickupDate", "ScheduleFileLink"]

  /** The first line of the export: the nine column names separated by commas. */
  const HEADER_LINE: string := Join(HEADER, ',')

  /** The row pushed for one payment; a missing optional field is written as ''. */
  function Row(p: Payment): seq<string> {
    [p.transactionID, p.receiptNumber.GetOr(""), p.date, p.amountUSD, p.amountZWL,
     p.monthsPaid, p.status, p.pickupDate.GetOr(""), p.scheduleFileLink.GetOr("")]
  }

  /** The rows of the export: the header, then each payment's row in snapshot order. */
  function CsvRows(payments: seq<Payment>): seq<seq<string>> {
    [HEADER] + seq(|payments|, i requires 0 <= i < |payments| => Row(payments[i]))
  }

  /** The text handed to the `Blob`: fields joined by ',', rows by '\n'. */
  function CsvText(payments: seq<Payment>): string {
    Join(JoinEach(CsvRows(payments), ','), '\n')
  }

  /** No field of the payment's row holds the character `c`. */
  predicate RowFreeOf(p: Payment, c: char) {
    forall k :: 0 <= k < |Row(p)| ==> c !in Row(p)[k]
  }

  /** No field of any row holds the character `c`. */
  predicate FreeOf(payments: seq<Payment>, c: char) {
    forall i :: 0 <= i < |payments| ==> RowFreeOf(payments[i], c)
  }

  /** The lines of the export, before they are joined with line breaks. */
  lemma CsvLineValues(payments: seq<Payment>)
    ensures |JoinEach(CsvRows(payments), ',')| == |payments| + 1
    ensures JoinEach(CsvRows(payments), ',')[0] == Join(HEADER, ',')
    ensures forall i :: 0 <= i < |payments| ==> JoinEach(CsvRows(payments), ',')[i + 1] == Join(Row(payments[i]), ',')
  {
    var rows := CsvRows(payments);
    var lines := JoinEach(rows, ',');
    assert rows[0] == HEADER;
    assert lines[0] == Join(rows[0], ',');
    forall i | 0 <= i < |payments| ensures lines[i + 1] == Join(Row(payments[i]), ',') {
      assert rows[i + 1] == Row(payments[i]);
    }
  }

  /**
   * When no field holds a line break, the export has one line per payment plus
   * the header line first, and line i+1 is payment i's row.
   */
  lemma CsvLines(payments: seq<Payment>)
    requires FreeOf(payments, '\n')
    ensures |Split(CsvText(payments), '\n')| == |payments| + 1
    ensures Split(CsvText(payments), '\n')[0] == HEADER_LINE
    ensures forall i :: 0 <= i < |payments| ==> Split(CsvText(payments), '\n')[i + 1] == Join(Row(payments[i]), ',')
  {
    var lines := JoinEach(CsvRows(payments), ',');
    LinesFree(payments);
    SplitJoin(lines, '\n');
    assert Split(CsvText(payments), '\n') == lines;
    CsvLineValues(payments);
  }

  /** No line of the export holds a line break when no field does. */
  lemma LinesFree(payments: seq<Payment>)
    requires FreeOf(payments, '\n')
    ensures forall k :: 0 <= k < |payments| + 1 ==> '\n' !in JoinEach(CsvRows(payments), ',')[k]
  {
    var rows := CsvRows(payments);
    forall k, j | 0 <= k < |rows| && 0 <= j < |rows[k]| ensures '\n' !in rows[k][j] {
      if k > 0 {
        assert rows[k] == Row(payments[k - 1]);
        assert RowFreeOf(payments[k - 1], '\n');
      }
    }
    JoinEachExcludes(rows, ',', '\n');
  }

  /**
   * When no field holds a comma or a line break either, splitting line i+1 at
   * the commas gives back payment i's nine fields in header order.
   */
  lemma CsvFields(payments: seq<Payment>, i: nat)
    requires FreeOf(payments, '\n') && FreeOf(payments, ',')
    requires i < |payments|
    ensures |Row(payments[i])| == |HEADER|
    ensures |Split(CsvText(payments), '\n')| == |payments| + 1
    ensures Split(Split(CsvText(payments), '\n')[i + 1], ',') == Row(payments[i])
  {
    CsvLines(payments);
    assert RowFreeOf(payments[i], ',');
    RowRoundTrip(payments[i]);
  }

  /** A row whose fields hold no comma splits back into its fields. */
  lemma RowRoundTrip(p: Payment)
    requires RowFreeOf(p, ',')
    ensures Split(Join(Row(p), ','), ',') == Row(p)
  {
    SplitJoin(Row(p), ',');
  }

  /** With no payments the export is the header line alone. */
  lemma EmptyHistoryCsv()
    ensures CsvText([]) == HEADER_LINE
  {
    CsvLineValues([]);
  }

  /**
   * Fields are not escaped: a payment with a comma in any field reads back with
   * more columns than the header has.
   */
  lemma CommaInFieldShiftsColumns(p: Payment)
    requires !RowFreeOf(p, ',')
    ensures |Split(Join(Row(p), ','), ',')| > |HEADER|
  {
    SplitJoinOverflows(Row(p), ',');
  }

  /**
   * `csvRows` as the download handler builds it: the header, then one `push`
   * per payment in `forEach` order.
   */
  method BuildRows(payments: seq<Payment>) returns (rows: seq<seq<string>>)
    ensures |rows| == |payments| + 1
    ensures rows[0] == HEADER
    ensures forall i :: 0 <= i < |payments| ==> rows[i + 1] == Row(payments[i])
  {
    rows := [HEADER];
    for n := 0 to |payments|
      invariant |rows| == n + 1 && rows[0] == HEADER
      invariant forall i :: 0 <= i < n ==> rows[i + 1] == Row(payments[i])
    {
      rows := rows + [Row(payments[n])];
    }
  }

  /**
   * The payment table's state: the last fetched snapshot, and whether the
   * download button's handler has been bound to it yet.
   */
  class PaymentHistory {
    var snapshot: seq<Payment>
    var downloadBound: bool

    constructor ()
      ensures snapshot == [] && !downloadBound
    {
      snapshot := [];
      downloadBound := false;
    }

    /**
     * The `.then` of `loadPaymentHistory`: `data.payments || []` becomes the
     * snapshot and the download handler is (re)bound to it. A failed fetch
     * changes nothing.
     */
    method OnHistoryLoaded(response: Fetch<Option<seq<Payment>>>)
      modifies this
      ensures response.Received? ==> snapshot == response.body.GetOr([]) && downloadBound
      ensures response.Failed? ==> unchanged(this)
    {
      if response.Received? {
        snapshot := response.body.GetOr([]);
        downloadBound := true;
      }
    }

    /**
     * The download button: the CSV of the latest snapshot, or nothing at all
     * while no load has succeeded (the button has no handler then).
     */
    method DownloadCsv() returns (csv: Option<string>)
      ensures downloadBound ==> csv == Some(CsvText(snapshot))
      ensures !downloadBound ==> csv == None
    {
      if !downloadBound {
        return None;
      }
      var rows := BuildRows(snapshot);
      assert rows == CsvRows(snapshot);
      csv := Some(Join(JoinEach(rows, ','), '\n'));
    }
  }
}
