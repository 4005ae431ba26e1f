/** What the two statement-of-service ledgers share: the display row, how
  * ledger and post-slip records become rows (status and the accrual
  * debit/credit split), the filter conjunction, the sort keys of the
  * columns and the asc/desc toggle. Amounts are integers (pence); days are
  * (year, month, day) triples. */
module Ledger {
  import opened Seqs
  import opened Text
  import opened Sorting

  /** A row of the ledger table. */
  datatype Row = Row(
    datePosted: Date,
    status: string,
    officeDebit: int,
    officeCredit: int,
    accrualsDebit: int,
    accrualsCredit: int,
    description: string)

  /** A record of the accounts ledger (`dsaccledger`). */
  datatype LedgerItem = LedgerItem(
    postDate: Date, postType: string,
    officeDebit: int, officeCredit: int, clientDebit: int, clientCredit: int,
    narrative: string)

  /** A record of the post-slip list (`dsPostSlipCreate`). */
  datatype PostSlipItem = PostSlipItem(dateCreated: Date, drcr: string, net: int, narrative: string)

  /** "Actioned" for the codes DR and CR, otherwise "Posted". */
  function Status(code: string): string {
    if code == "DR" || code == "CR" then "Actioned" else "Posted"
  }

  lemma StatusActioned(code: string)
    ensures Status(code) == "Actioned" <==> code == "DR" || code == "CR"
    ensures Status(code) == "Actioned" || Status(code) == "Posted"
  {
  }

  predicate StartsWithAny(s: string, prefixes: seq<string>) {
    exists i :: 0 <= i < |prefixes| && StartsWith(s, prefixes[i])
  }

  const AccrualCredits: seq<string> := ["EA2", "EA3", "EA4", "EA5"]
  const AccrualDebits: seq<string> := ["EL1", "EL2", "EL3", "EL4", "EL5"]
  const Reversals: seq<string> := ["Reversal EA", "Reversal EL"]

  /** The accrual debit and credit of a post slip: NET on the side its DR/CR
    * code names; an EA2-EA5 narrative puts it on the credit side, an EL1-EL5
    * narrative on the debit side, and a reversal narrative swaps the sides. */
  function AccrualSplit(drcr: string, net: int, narrative: string): (int, int) {
    var debit := if drcr == "DR" then net else 0;
    var credit := if drcr == "CR" then net else 0;
    if StartsWithAny(narrative, AccrualCredits) then (0, net)
    else if StartsWithAny(narrative, AccrualDebits) then (net, 0)
    else if StartsWithAny(narrative, Reversals) then (credit, debit)
    else (debit, credit)
  }

  /** The split, case by case. */
  lemma AccrualSplitCases(drcr: string, net: int, narrative: string)
    ensures StartsWithAny(narrative, AccrualCredits) ==> AccrualSplit(drcr, net, narrative) == (0, net)
    ensures !StartsWithAny(narrative, AccrualCredits) && StartsWithAny(narrative, AccrualDebits) ==>
      AccrualSplit(drcr, net, narrative) == (net, 0)
    ensures !StartsWithAny(narrative, AccrualCredits) && !StartsWithAny(narrative, AccrualDebits) ==>
      AccrualSplit(drcr, net, narrative) ==
        var d := (if drcr == "DR" then net else 0, if drcr == "CR" then net else 0);
        if StartsWithAny(narrative, Reversals) then (d.1, d.0) else d
  {
  }

  /** An EA or EL accrual code cannot also be a reversal: the accrual rules
    * and the reversal rule never compete. */
  lemma AccrualCodesAreNotReversals(narrative: string)
    requires StartsWithAny(narrative, Reversals)
    ensures !StartsWithAny(narrative, AccrualCredits) && !StartsWithAny(narrative, AccrualDebits)
  {
    forall i | 0 <= i < |AccrualCredits| ensures !StartsWith(narrative, AccrualCredits[i]) {
      assert narrative[0] == 'R';
    }
    forall i | 0 <= i < |AccrualDebits| ensures !StartsWith(narrative, AccrualDebits[i]) {
      assert narrative[0] == 'R';
    }
  }

  /** Whatever the narrative, the split puts NET on at most one side, and the
    * two sides always add up to NET or to 0. */
  lemma AccrualSplitOneSide(drcr: string, net: int, narrative: string)
    ensures var (d, c) := AccrualSplit(drcr, net, narrative);
      (d == 0 || c == 0) && (d + c == net || d + c == 0)
  {
  }

  /** A ledger record's row. */
  function LedgerRow(item: LedgerItem): Row {
    Row(item.postDate, Status(item.postType), item.officeDebit, item.officeCredit,
        item.clientDebit, item.clientCredit, Trim(item.narrative))
  }

  /** A post slip's row: no office amounts. */
  function PostSlipRow(item: PostSlipItem): (r: Row)
    ensures r.officeDebit == 0 && r.officeCredit == 0
    ensures r.status == "Actioned" <==> item.drcr == "DR" || item.drcr == "CR"
    ensures (r.accrualsDebit, r.accrualsCredit) == AccrualSplit(item.drcr, item.net, Trim(item.narrative))
  {
    var narrative := Trim(item.narrative);
    var (debit, credit) := AccrualSplit(item.drcr, item.net, narrative);
    Row(item.dateCreated, Status(item.drcr), 0, 0, debit, credit, narrative)
  }

  /** The ledger rows followed by the post-slip rows, when there are post slips. */
  function MergedRows(ledger: seq<LedgerItem>, postSlips: Option<seq<PostSlipItem>>): seq<Row> {
    Map(ledger, LedgerRow) + (if postSlips.Some? then Map(postSlips.value, PostSlipRow) else [])
  }

  /** The filters of the side panel; an empty description and an empty status
    * list accept every row, an absent bound accepts every day. */
  datatype Filters = Filters(fromDate: Option<Date>, toDate: Option<Date>, description: string, statuses: seq<string>)

  const NoFilters := Filters(None, None, "", [])

  /** `filterData`'s test on one row, the amount test apart. */
  predicate RowMatches(row: Row, f: Filters) {
    (f.fromDate.None? || CompareDates(row.datePosted, f.fromDate.value) >= 0) &&
    (f.toDate.None? || CompareDates(row.datePosted, f.toDate.value) <= 0) &&
    (f.description == "" || Contains(ToLower(row.description), ToLower(f.description))) &&
    (|f.statuses| == 0 || row.status in f.statuses)
  }

  /** With the filters cleared, every row passes. */
  lemma NoFiltersMatch(row: Row)
    ensures RowMatches(row, NoFilters)
  {
  }

  /** The rows that pass every filter, in their order. */
  function FilterRows(rows: seq<Row>, f: Filters): seq<Row> {
    Filter(rows, (r: Row) => RowMatches(r, f))
  }

  /** A row is shown exactly when it is one of the rows and passes every filter. */
  lemma FilterRowsMembers(rows: seq<Row>, f: Filters, row: Row)
    ensures row in FilterRows(rows, f) <==> row in rows && RowMatches(row, f)
  {
    var p := (r: Row) => RowMatches(r, f);
    if p(row) {
      FilterMember(rows, p, row);
    }
  }

  /** With the filters cleared every row is shown, in the same order. */
  lemma FilterRowsCleared(rows: seq<Row>)
    ensures FilterRows(rows, NoFilters) == rows
  {
    forall i | 0 <= i < |rows| ensures RowMatches(rows[i], NoFilters) {
      NoFiltersMatch(rows[i]);
    }
    FilterAllPass(rows, (r: Row) => RowMatches(r, NoFilters));
  }

  /** The columns of the table. */
  datatype Column = DatePosted | StatusColumn | OfficeDebit | OfficeCredit | AccrualsDebit | AccrualsCredit | Description

  /** The value a column sorts by: days in calendar order, amounts as numbers,
    * text by code points. */
  function ColumnKey(c: Column): Row -> Key {
    (r: Row) =>
      match c
      case DatePosted => DateKey(r.datePosted)
      case StatusColumn => TextKey(r.status)
      case OfficeDebit => NumKey(r.officeDebit)
      case OfficeCredit => NumKey(r.officeCredit)
      case AccrualsDebit => NumKey(r.accrualsDebit)
      case AccrualsCredit => NumKey(r.accrualsCredit)
      case Description => TextKey(r.description)
  }

  /** The direction after a click on a column header: the same column again
    * toggles, a new column takes the direction the table reports. */
  function NextSortDirection(sortedBy: Option<Column>, current: Direction, clicked: Column, requested: Direction): Direction {
    if sortedBy == Some(clicked) then Flip(current) else requested
  }

  /** Two clicks on the same column restore the direction. */
  lemma SortToggleTwice(current: Direction, c: Column, requested: Direction, requested2: Direction)
    ensures NextSortDirection(Some(c), NextSortDirection(Some(c), current, c, requested), c, requested2) == current
  {
  }

  /** The status options: each status once, in first-seen order. */
  function StatusOptions(data: seq<Row>): seq<string> {
    Distinct(Map(data, (row: Row) => row.status))
  }

  /** Every status of the data is offered exactly once, and nothing else is. */
  lemma StatusOptionsProperties(data: seq<Row>)
    ensures NoDuplicates(StatusOptions(data))
    ensures forall i :: 0 <= i < |data| ==> data[i].status in StatusOptions(data)
    ensures forall s :: s in StatusOptions(data) ==> exists j :: 0 <= j < |data| && data[j].status == s
  {
    var statuses := Map(data, (row: Row) => row.status);
    var r := Distinct(statuses);
    forall s | s in r ensures exists j :: 0 <= j < |data| && data[j].status == s {
      var i :| 0 <= i < |r| && r[i] == s;
      assert r[i] in statuses;
    }
  }
}
