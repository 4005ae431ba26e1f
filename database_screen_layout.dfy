/** The related-records table of a database screen: its columns gathered from
  * a page layout, one row per record holding the column fields that have a
  * value, the action column, and the card subtitle. */
module DatabaseScreenLayout {
  import opened Seqs

  /** A field value of a record as JavaScript sees it. */
  datatype Value = Undefined | Null | Str(s: string) | Num(n: int) | Bool(b: bool)

  type Record = map<string, Value>

  /** `record[key]`: undefined when the record has no such key. */
  function Get(r: Record, key: string): Value {
    if key in r then r[key] else Undefined
  }

  /** Neither null nor undefined. */
  predicate Present(v: Value) {
    v != Null && v != Undefined
  }

  datatype Component = Component(apiName: string, caption: string)
  datatype LayoutItem = LayoutItem(layoutComponents: seq<Component>)
  datatype LayoutRow = LayoutRow(layoutItems: seq<LayoutItem>)
  datatype Section = Section(layoutRows: seq<LayoutRow>)

  /** The components of the items, in item order. */
  function ItemsComponents(items: seq<LayoutItem>): seq<Component>
    decreases |items|
  {
    if items == [] then [] else items[0].layoutComponents + ItemsComponents(items[1..])
  }

  function RowsComponents(rows: seq<LayoutRow>): seq<Component>
    decreases |rows|
  {
    if rows == [] then [] else ItemsComponents(rows[0].layoutItems) + RowsComponents(rows[1..])
  }

  /** Every component of the layout in the order of the nested `forEach`
    * walk: section, then row, then item. */
  function SectionsComponents(sections: seq<Section>): seq<Component>
    decreases |sections|
  {
    if sections == [] then [] else RowsComponents(sections[0].layoutRows) + SectionsComponents(sections[1..])
  }

  const SubRecordId := "subRecordId"
  const BvCaseObject := "BV_Case__c"

  /** Components of these fields never become columns. */
  predicate Kept(c: Component) {
    c.apiName != "Name" && c.apiName != "Stage__c" && c.apiName != "BV_Case__c"
  }

  function ApiName(c: Component): string { c.apiName }

  /** A table column: a text column of a field, or the row-action column. */
  datatype Column = DataColumn(caption: string, fieldName: string, sortable: bool) | ActionColumn(sortable: bool)

  function FieldName(c: Column): string {
    if c.DataColumn? then c.fieldName else ""
  }

  /** The key `row[col.fieldName]` reads: the action column has no field
    * name, so the key is the text `undefined`. */
  function FieldKey(c: Column): string {
    if c.DataColumn? then c.fieldName else "undefined"
  }

  predicate HasColumn(columns: seq<Column>, field: string) {
    exists i :: 0 <= i < |columns| && columns[i].DataColumn? && columns[i].fieldName == field
  }

  /** A component met by the walk: a column for its field unless there is
    * one already. */
  function AddColumn(columns: seq<Column>, c: Component): seq<Column> {
    if HasColumn(columns, c.apiName) then columns else columns + [DataColumn(c.caption, c.apiName, false)]
  }

  /** The text columns the walk collects from kept components: a field's
    * first component gives its column. */
  function CollectColumns(components: seq<Component>): (r: seq<Column>)
    ensures forall i :: 0 <= i < |r| ==> r[i].DataColumn? && !r[i].sortable
    decreases |components|
  {
    if components == [] then []
    else AddColumn(CollectColumns(components[..|components| - 1]), components[|components| - 1])
  }

  /** One more component of the walk adds to the columns only when it is
    * kept. */
  lemma CollectStep(components: seq<Component>, i: nat)
    requires i < |components|
    ensures CollectColumns(Filter(components[..i + 1], Kept)) ==
      if Kept(components[i]) then AddColumn(CollectColumns(Filter(components[..i], Kept)), components[i])
      else CollectColumns(Filter(components[..i], Kept))
  {
    var c := components[i];
    assert components[..i + 1] == components[..i] + [c];
    FilterAppend(components[..i], [c], Kept);
    FilterSingleton(c, Kept);
    var before := Filter(components[..i], Kept);
    if Kept(c) {
      var kept := before + [c];
      assert kept[..|kept| - 1] == before && kept[|kept| - 1] == c;
      assert CollectColumns(kept) == AddColumn(CollectColumns(before), c);
    } else {
      assert before + [] == before;
    }
  }

  /** The text columns of a layout. */
  function DataColumns(sections: seq<Section>): seq<Column> {
    CollectColumns(Filter(SectionsComponents(sections), Kept))
  }

  /** The field names of the collected columns are the distinct field names
    * of the components, in the order they are first met. */
  lemma {:induction false} CollectColumnsFields(components: seq<Component>)
    ensures Map(CollectColumns(components), FieldName) == Distinct(Map(components, ApiName))
    decreases |components|
  {
    if components != [] {
      var n := |components|;
      var init := components[..n - 1];
      var c := components[n - 1];
      CollectColumnsFields(init);
      var columns := CollectColumns(init);
      var fields := Map(columns, FieldName);
      var all := Map(components, ApiName);
      assert all[..n - 1] == Map(init, ApiName);
      assert HasColumn(columns, c.apiName) <==> c.apiName in fields by {
        if c.apiName in fields {
          var q :| 0 <= q < |fields| && fields[q] == c.apiName;
          assert columns[q].fieldName == c.apiName;
        }
      }
      if !HasColumn(columns, c.apiName) {
        MapAppend(columns, [DataColumn(c.caption, c.apiName, false)], FieldName);
      }
    }
  }

  /** Column fields are distinct, in first-seen order, and never one of the
    * excluded fields. */
  lemma DataColumnsProperties(sections: seq<Section>)
    ensures var fields := Map(DataColumns(sections), FieldName);
      fields == Distinct(Map(Filter(SectionsComponents(sections), Kept), ApiName)) &&
      NoDuplicates(fields) &&
      forall i :: 0 <= i < |fields| ==> fields[i] != "Name" && fields[i] != "Stage__c" && fields[i] != "BV_Case__c"
  {
    var kept := Filter(SectionsComponents(sections), Kept);
    CollectColumnsFields(kept);
    var names := Map(kept, ApiName);
    var fields := Map(DataColumns(sections), FieldName);
    forall i | 0 <= i < |fields|
      ensures fields[i] != "Name" && fields[i] != "Stage__c" && fields[i] != "BV_Case__c"
    {
      assert fields[i] in names;
      var j :| 0 <= j < |names| && names[j] == fields[i];
      assert Kept(kept[j]);
    }
  }

  type Row = map<string, Value>

  /** `recordTemp` after the columns' loop: each column field with a value. */
  function RowFrom(record: Record, columns: seq<Column>): Row
    decreases |columns|
  {
    if columns == [] then map[]
    else
      var row := RowFrom(record, columns[..|columns| - 1]);
      var key := FieldKey(columns[|columns| - 1]);
      if Present(Get(record, key)) then row[key := Get(record, key)] else row
  }

  /** A row holds a key exactly when a column names it and the record has a
    * value there, and then it holds the record's value. */
  lemma {:induction false} RowFromFields(record: Record, columns: seq<Column>, key: string)
    ensures key in RowFrom(record, columns) <==>
      (exists i :: 0 <= i < |columns| && FieldKey(columns[i]) == key) && Present(Get(record, key))
    ensures key in RowFrom(record, columns) ==> RowFrom(record, columns)[key] == Get(record, key)
    decreases |columns|
  {
    if columns != [] {
      var init := columns[..|columns| - 1];
      RowFromFields(record, init, key);
      if exists i :: 0 <= i < |columns| && FieldKey(columns[i]) == key {
        var i :| 0 <= i < |columns| && FieldKey(columns[i]) == key;
        if i < |columns| - 1 {
          assert FieldKey(init[i]) == key;
        }
      }
    }
  }

  /** The table row of a record: its column values, and the record's id under
    * `subRecordId` unless the object is a case. */
  function TableRow(record: Record, columns: seq<Column>, isBvCase: bool): Row {
    if isBvCase then RowFrom(record, columns) else RowFrom(record, columns)[SubRecordId := Get(record, "Id")]
  }

  function TableRows(records: seq<Record>, columns: seq<Column>, isBvCase: bool): (r: seq<Row>)
    ensures |r| == |records| && forall i :: 0 <= i < |records| ==> r[i] == TableRow(records[i], columns, isBvCase)
  {
    seq(|records|, i requires 0 <= i < |records| => TableRow(records[i], columns, isBvCase))
  }

  /** Outside a case, every row carries its record's id; its other keys are
    * column fields with a value. */
  lemma TableRowProperties(record: Record, columns: seq<Column>, isBvCase: bool, key: string)
    ensures !isBvCase ==> (SubRecordId in TableRow(record, columns, isBvCase) &&
      TableRow(record, columns, isBvCase)[SubRecordId] == Get(record, "Id"))
    ensures (key != SubRecordId || isBvCase) ==>
      (key in TableRow(record, columns, isBvCase) <==>
        (exists i :: 0 <= i < |columns| && FieldKey(columns[i]) == key) && Present(Get(record, key)))
  {
    RowFromFields(record, columns, key);
  }

  function Sortable(c: Column): Column {
    c.(sortable := true)
  }

  /** The data columns, then the action column, all sortable. */
  function AllColumns(columns: seq<Column>): seq<Column> {
    Map(columns + [ActionColumn(false)], Sortable)
  }

  /** The filter on index 0: the first column is kept only when the first
    * row has a value for it; no first row makes the lookup fail. */
  function DropBlankFirst(columns: seq<Column>, rows: seq<Row>): Option<seq<Column>> {
    if rows == [] then None
    else if columns != [] && !Present(if FieldKey(columns[0]) in rows[0] then rows[0][FieldKey(columns[0])] else Undefined)
    then Some(columns[1..])
    else Some(columns)
  }

  /** The action column is last and every column sortable; only the first
    * column can be dropped, and it is dropped exactly when the first row has
    * no value for it. */
  lemma FinalColumnsProperties(columns: seq<Column>, rows: seq<Row>)
    requires rows != []
    ensures var all := AllColumns(columns);
      var r := DropBlankFirst(all, rows).value;
      |all| == |columns| + 1 && all[|columns|] == ActionColumn(true) &&
      (forall i :: 0 <= i < |all| ==> all[i].sortable) &&
      (forall i :: 0 <= i < |columns| ==> all[i] == columns[i].(sortable := true)) &&
      (r == all || r == all[1..]) && (columns != [] ==> r[|r| - 1] == ActionColumn(true)) &&
      (r == all[1..] <==> !Present(if FieldKey(all[0]) in rows[0] then rows[0][FieldKey(all[0])] else Undefined))
  {
    var all := AllColumns(columns);
    assert |all| >= 1;
    if |all| > 1 {
      assert all != all[1..] by {
        assert |all[1..]| != |all|;
      }
    }
  }

  /** The records of the table: a case shows exactly one, its first record or
    * an empty one. */
  function TableRecords(recordData: seq<Record>, isBvCase: bool): (r: seq<Record>)
    ensures isBvCase ==> |r| == 1 && r[0] == (if recordData != [] then recordData[0] else map[])
    ensures !isBvCase ==> r == recordData
  {
    if isBvCase then [if recordData != [] then recordData[0] else map[]] else recordData
  }

  datatype LayoutData = LayoutData(recordData: seq<Record>, sections: seq<Section>)

  /** `cardSubtitle`: `parent > label` when there is a label; an absent
    * parent label renders as `undefined`. */
  function CardSubtitle(parentLabel: Option<string>, caption: Option<string>): (r: Option<string>)
    ensures caption.Some? && caption.value != "" ==>
      r == Some((if parentLabel.Some? then parentLabel.value else "undefined") + " > " + caption.value)
    ensures !(caption.Some? && caption.value != "") ==> r == parentLabel
  {
    if caption.Some? && caption.value != "" then
      Some((if parentLabel.Some? then parentLabel.value else "undefined") + " > " + caption.value)
    else parentLabel
  }

  /** The subtitle names the parent before the label, and is only the
    * parent without one. */
  lemma CardSubtitleShape(parent: string, caption: string)
    ensures caption != "" ==> CardSubtitle(Some(parent), Some(caption)).value[..|parent|] == parent
    ensures caption != "" ==> |CardSubtitle(Some(parent), Some(caption)).value| == |parent| + 3 + |caption|
    ensures CardSubtitle(Some(parent), Some("")) == Some(parent) && CardSubtitle(Some(parent), None) == Some(parent)
  {
  }

  class Screen {
    var objectApiName: string
    var recordData: seq<Record>
    var layoutSections: seq<Section>
    var columns: seq<Column>
    var tableData: seq<Row>
    var subRecordId: Option<Value>
    var isModalOpen: bool
    var isModalOpenDelete: bool

    constructor (objectApiName: string)
      ensures this.objectApiName == objectApiName
      ensures recordData == [] && layoutSections == [] && columns == [] && tableData == []
      ensures subRecordId == None && !isModalOpen && !isModalOpenDelete
    {
      this.objectApiName := objectApiName;
      recordData := [];
      layoutSections := [];
      columns := [];
      tableData := [];
      subRecordId := None;
      isModalOpen := false;
      isModalOpenDelete := false;
    }

    predicate IsBvCase()
      reads this
    {
      objectApiName == BvCaseObject
    }

    /** The loop over the layout's components: a kept component whose field
      * has no column yet adds one. */
    static method GatherColumns(sections: seq<Section>) returns (columnsTemp: seq<Column>)
      ensures columnsTemp == DataColumns(sections)
    {
      var components := SectionsComponents(sections);
      columnsTemp := [];
      for i := 0 to |components|
        invariant columnsTemp == CollectColumns(Filter(components[..i], Kept))
      {
        var c := components[i];
        CollectStep(components, i);
        if Kept(c) && !HasColumn(columnsTemp, c.apiName) {
          columnsTemp := columnsTemp + [DataColumn(c.caption, c.apiName, false)];
        }
      }
      assert components[..|components|] == components;
    }

    /** The loop over the records, each row filled one column at a time. */
    static method GatherRows(records: seq<Record>, columnsTemp: seq<Column>, isBvCase: bool)
      returns (tableDataTemp: seq<Row>)
      ensures tableDataTemp == TableRows(records, columnsTemp, isBvCase)
    {
      tableDataTemp := [];
      for i := 0 to |records|
        invariant tableDataTemp == TableRows(records[..i], columnsTemp, isBvCase)
      {
        var record := records[i];
        var recordTemp: Row := map[];
        for j := 0 to |columnsTemp|
          invariant recordTemp == RowFrom(record, columnsTemp[..j])
        {
          var key := FieldKey(columnsTemp[j]);
          var fieldValue := Get(record, key);
          if fieldValue != Null && fieldValue != Undefined {
            recordTemp := recordTemp[key := fieldValue];
          }
          assert columnsTemp[..j + 1][..j] == columnsTemp[..j];
        }
        assert columnsTemp[..|columnsTemp|] == columnsTemp;
        if !isBvCase {
          recordTemp := recordTemp[SubRecordId := Get(record, "Id")];
        }
        tableDataTemp := tableDataTemp + [recordTemp];
      }
      assert records[..|records|] == records;
    }

    /** `wiredLayout` with data: the records and sections are taken; when
      * there is a first row the columns and rows are replaced, and otherwise
      * the filter on index 0 fails and they stay as they were. */
    method WiredLayout(data: LayoutData) returns (failed: bool)
      modifies this`recordData, this`layoutSections, this`columns, this`tableData
      ensures recordData == TableRecords(data.recordData, IsBvCase()) && layoutSections == data.sections
      ensures failed <==> recordData == []
      ensures var rows := TableRows(recordData, DataColumns(data.sections), IsBvCase());
        if failed then columns == old(columns) && tableData == old(tableData)
        else tableData == rows && Some(columns) == DropBlankFirst(AllColumns(DataColumns(data.sections)), rows)
    {
      recordData := TableRecords(data.recordData, IsBvCase());
      layoutSections := data.sections;
      var columnsTemp := GatherColumns(layoutSections);
      var tableDataTemp := GatherRows(recordData, columnsTemp, IsBvCase());
      var finalColumns := AllColumns(columnsTemp);
      var kept := DropBlankFirst(finalColumns, tableDataTemp);
      if kept.None? {
        return true;
      }
      columns := kept.value;
      tableData := tableDataTemp;
      return false;
    }

    /** A case always has its one row, so loading its layout never fails. */
    lemma BvCaseNeverFails(data: LayoutData)
      requires IsBvCase()
      ensures TableRecords(data.recordData, IsBvCase()) != []
    {
    }

    /** `handleRowAction`: the record the row stands for, and the dialog the
      * action opens. */
    method HandleRowAction(actionName: string, row: Row)
      modifies this`subRecordId, this`isModalOpen, this`isModalOpenDelete
      ensures subRecordId == Some(Get(row, if IsBvCase() then "Id" else SubRecordId))
      ensures isModalOpenDelete == (actionName == "delete" || old(isModalOpenDelete))
      ensures isModalOpen == (actionName == "edit" || old(isModalOpen))
    {
      subRecordId := Some(Get(row, if IsBvCase() then "Id" else SubRecordId));
      if actionName == "delete" {
        isModalOpenDelete := true;
      } else if actionName == "edit" {
        isModalOpen := true;
      }
    }

    method CloseModal()
      modifies this`isModalOpen, this`subRecordId
      ensures !isModalOpen && subRecordId == Some(Null)
    {
      isModalOpen := false;
      subRecordId := Some(Null);
    }

    method CloseModalDelete()
      modifies this`isModalOpenDelete, this`subRecordId
      ensures !isModalOpenDelete && subRecordId == Some(Null)
    {
      isModalOpenDelete := false;
      subRecordId := Some(Null);
    }

    method HandleCancelUpdate()
      modifies this`isModalOpen, this`isModalOpenDelete
      ensures !isModalOpen && !isModalOpenDelete
    {
      isModalOpenDelete := false;
      isModalOpen := false;
    }
  }
}
