/** The case-officer buttons of a case: the officer-history record of the
  * case, created on the first save of an officer, and on every later save
  * updated so that the new officer becomes current and the earlier officers
  * move one place down a history of nine. */
module CaseOfficerButtons {
  import opened Seqs

  /** The fields of an officer-history record: `Previous(n)` is
    * `Previous_n__c` and `OfficerDate(n)` is `Date_n_Officer__c`. */
  datatype FieldName = Id | CurrentOfficer | DateOfficer | BvCase | RecordTypeId | Previous(n: nat) | OfficerDate(n: nat)

  /** A record as it is read: the fields that have a value. */
  type Record = map<FieldName, string>

  /** The fields of a create or update; `None` is `undefined`, which is not sent. */
  type Fields = map<FieldName, Option<string>>

  datatype Request = Create(fields: Fields) | Update(fields: Fields) | Failed(error: string)

  const ReferenceError := "ReferenceError"
  const TypeError := "TypeError"

  function Get(rec: Record, f: FieldName): Option<string> {
    if f in rec then Some(rec[f]) else None
  }

  predicate Truthy(v: Option<string>) {
    v.Some? && v.value != ""
  }

  /** The officer in place `n` of the history, place 0 being the current one. */
  function OfficerSlot(n: nat): FieldName {
    if n == 0 then CurrentOfficer else Previous(n)
  }

  function DateSlot(n: nat): FieldName {
    if n == 0 then DateOfficer else OfficerDate(n)
  }

  /** The nine places of the earlier officers and their dates. */
  const HistoryKeys: set<FieldName> := {
    Previous(1), Previous(2), Previous(3), Previous(4), Previous(5), Previous(6), Previous(7), Previous(8), Previous(9),
    OfficerDate(1), OfficerDate(2), OfficerDate(3), OfficerDate(4), OfficerDate(5), OfficerDate(6), OfficerDate(7), OfficerDate(8), OfficerDate(9)}

  /** Place `n` of the history is sent the officer and date of place `n - 1`. */
  ghost predicate SlotMoved(rec: Record, fields: Fields, n: nat)
    requires n >= 1
  {
    Previous(n) in fields && OfficerDate(n) in fields &&
    fields[Previous(n)] == Get(rec, OfficerSlot(n - 1)) && fields[OfficerDate(n)] == Get(rec, DateSlot(n - 1))
  }

  lemma NinePlaces(n: nat)
    requires 1 <= n <= 9
    ensures n == 1 || n == 2 || n == 3 || n == 4 || n == 5 || n == 6 || n == 7 || n == 8 || n == 9
  {
  }

  /** The fields `updateCaseDetail` sends, with the history fields named:
    * the record Id, the history moved one place down when there is a current
    * officer, and the new officer with the time of the change. */
  function UpdateFields(rec: Record, id: string, newOfficer: string, now: string): Fields {
    var fields: Fields := map[Id := Some(id)];
    var shifted :=
      if Truthy(Get(rec, CurrentOfficer)) then
        fields[Previous(9) := Get(rec, Previous(8))][OfficerDate(9) := Get(rec, OfficerDate(8))]
              [Previous(8) := Get(rec, Previous(7))][OfficerDate(8) := Get(rec, OfficerDate(7))]
              [Previous(7) := Get(rec, Previous(6))][OfficerDate(7) := Get(rec, OfficerDate(6))]
              [Previous(6) := Get(rec, Previous(5))][OfficerDate(6) := Get(rec, OfficerDate(5))]
              [Previous(5) := Get(rec, Previous(4))][OfficerDate(5) := Get(rec, OfficerDate(4))]
              [Previous(4) := Get(rec, Previous(3))][OfficerDate(4) := Get(rec, OfficerDate(3))]
              [Previous(3) := Get(rec, Previous(2))][OfficerDate(3) := Get(rec, OfficerDate(2))]
              [Previous(2) := Get(rec, Previous(1))][OfficerDate(2) := Get(rec, OfficerDate(1))]
              [Previous(1) := Get(rec, CurrentOfficer)][OfficerDate(1) := Get(rec, DateOfficer)]
      else fields;
    shifted[CurrentOfficer := Some(newOfficer)][DateOfficer := Some(now)]
  }

  /** The update names the record and the new officer, and with a current
    * officer each place of the history is sent the officer and date of the
    * place above it. */
  lemma UpdateFieldsContents(rec: Record, id: string, newOfficer: string, now: string)
    ensures var fields := UpdateFields(rec, id, newOfficer, now);
      Id in fields && fields[Id] == Some(id) &&
      CurrentOfficer in fields && fields[CurrentOfficer] == Some(newOfficer) &&
      DateOfficer in fields && fields[DateOfficer] == Some(now) &&
      (Truthy(Get(rec, CurrentOfficer)) ==> forall n :: 1 <= n <= 9 ==> SlotMoved(rec, fields, n))
  {
    var fields := UpdateFields(rec, id, newOfficer, now);
    if Truthy(Get(rec, CurrentOfficer)) {
      forall n | 1 <= n <= 9 ensures SlotMoved(rec, fields, n) {
        NinePlaces(n);
      }
    }
  }

  /** Nothing but the Id, the officer, the time and (with a current officer)
    * the history is sent. */
  lemma UpdateFieldsOnly(rec: Record, id: string, newOfficer: string, now: string)
    ensures var fields := UpdateFields(rec, id, newOfficer, now);
      (Truthy(Get(rec, CurrentOfficer)) ==> forall f :: f in fields ==> f in {Id, CurrentOfficer, DateOfficer} || f in HistoryKeys) &&
      (!Truthy(Get(rec, CurrentOfficer)) ==> fields.Keys == {Id, CurrentOfficer, DateOfficer})
  {
  }

  /** The record as stored after the fields are written: a sent value
    * replaces the stored one, an unsent one leaves it. */
  function Stored(rec: Record, fields: Fields): Record {
    map f | f in rec.Keys + (set g | g in fields && fields[g].Some?) ::
      if f in fields && fields[f].Some? then fields[f].value else rec[f]
  }

  /** A field of the stored record is the value sent for it, or else the
    * value it had. */
  lemma StoredGet(rec: Record, fields: Fields, f: FieldName)
    ensures Get(Stored(rec, fields), f) == if f in fields && fields[f].Some? then fields[f] else Get(rec, f)
  {
  }

  /** `a` when it has a value, else `b`. */
  function Or(a: Option<string>, b: Option<string>): Option<string> {
    if a.Some? then a else b
  }

  /** An update with a current officer moves the stored history one place
    * down: the new officer is current, each place takes the officer and date
    * of the place above it (or keeps its own when the place above is empty),
    * and the ninth officer drops out. */
  lemma HistoryShifted(rec: Record, id: string, newOfficer: string, now: string)
    requires Truthy(Get(rec, CurrentOfficer))
    ensures var after := Stored(rec, UpdateFields(rec, id, newOfficer, now));
      Get(after, CurrentOfficer) == Some(newOfficer) && Get(after, DateOfficer) == Some(now) &&
      Get(after, Id) == Some(id) &&
      forall n :: 1 <= n <= 9 ==>
        Get(after, OfficerSlot(n)) == Or(Get(rec, OfficerSlot(n - 1)), Get(rec, OfficerSlot(n))) &&
        Get(after, DateSlot(n)) == Or(Get(rec, DateSlot(n - 1)), Get(rec, DateSlot(n)))
  {
    var fields := UpdateFields(rec, id, newOfficer, now);
    var after := Stored(rec, fields);
    UpdateFieldsContents(rec, id, newOfficer, now);
    StoredGet(rec, fields, CurrentOfficer);
    StoredGet(rec, fields, DateOfficer);
    StoredGet(rec, fields, Id);
    forall n | 1 <= n <= 9
      ensures Get(after, OfficerSlot(n)) == Or(Get(rec, OfficerSlot(n - 1)), Get(rec, OfficerSlot(n)))
      ensures Get(after, DateSlot(n)) == Or(Get(rec, DateSlot(n - 1)), Get(rec, DateSlot(n)))
    {
      assert SlotMoved(rec, fields, n);
      StoredGet(rec, fields, Previous(n));
      StoredGet(rec, fields, OfficerDate(n));
    }
  }

  /** Without a current officer an update leaves the stored history as it is
    * and only makes the new officer current. */
  lemma NoCurrentOfficerKeepsHistory(rec: Record, id: string, newOfficer: string, now: string)
    requires !Truthy(Get(rec, CurrentOfficer))
    ensures var after := Stored(rec, UpdateFields(rec, id, newOfficer, now));
      Get(after, CurrentOfficer) == Some(newOfficer) && Get(after, DateOfficer) == Some(now) &&
      forall n :: 1 <= n <= 9 ==> Get(after, OfficerSlot(n)) == Get(rec, OfficerSlot(n)) && Get(after, DateSlot(n)) == Get(rec, DateSlot(n))
  {
    var fields := UpdateFields(rec, id, newOfficer, now);
    UpdateFieldsContents(rec, id, newOfficer, now);
    StoredGet(rec, fields, CurrentOfficer);
    StoredGet(rec, fields, DateOfficer);
    forall n | 1 <= n <= 9
      ensures Get(Stored(rec, fields), OfficerSlot(n)) == Get(rec, OfficerSlot(n))
      ensures Get(Stored(rec, fields), DateSlot(n)) == Get(rec, DateSlot(n))
    {
      StoredGet(rec, fields, Previous(n));
      StoredGet(rec, fields, OfficerDate(n));
    }
  }

  /** `updateCaseDetail` as it is written: the history fields are named by
    * constants the component never imports, so with a current officer the
    * update stops with a ReferenceError and nothing is sent; with no record
    * read at all it stops at reading the current officer. */
  function UpdateRequestAsWritten(record: Option<Record>, id: string, newOfficer: string, now: string): Request {
    if record.None? then Failed(TypeError)
    else if Truthy(Get(record.value, CurrentOfficer)) then Failed(ReferenceError)
    else Update(map[Id := Some(id), CurrentOfficer := Some(newOfficer), DateOfficer := Some(now)])
  }

  /** As written, no update of a case with a current officer is ever sent,
    * so the history never moves and the new officer is never stored. */
  lemma AsWrittenLosesEveryChange(rec: Record, id: string, newOfficer: string, now: string)
    requires Truthy(Get(rec, CurrentOfficer))
    ensures UpdateRequestAsWritten(Some(rec), id, newOfficer, now) == Failed(ReferenceError)
  {
  }

  /** A case whose officer is `005A` cannot be given to `005B`. */
  lemma AsWrittenCounterexample()
    ensures UpdateRequestAsWritten(Some(map[CurrentOfficer := "005A"]), "a0X1", "005B", "2024-01-01T00:00:00.000Z").Failed?
  {
    assert Truthy(Get(map[CurrentOfficer := "005A"], CurrentOfficer));
  }

  /** `Object.keys(recordTypes).find(...)`: the first record type named
    * 'Officer History'. */
  function FindRecordType(recordTypes: seq<(string, string)>): (r: Option<string>)
    ensures r.Some? ==> (exists i :: 0 <= i < |recordTypes| && recordTypes[i] == (r.value, "Officer History") &&
                           forall j :: 0 <= j < i ==> recordTypes[j].1 != "Officer History")
    ensures r.None? ==> forall i :: 0 <= i < |recordTypes| ==> recordTypes[i].1 != "Officer History"
    decreases |recordTypes|
  {
    if recordTypes == [] then None
    else if recordTypes[0].1 == "Officer History" then Some(recordTypes[0].0)
    else
      var r := FindRecordType(recordTypes[1..]);
      assert forall i :: 1 <= i < |recordTypes| ==> recordTypes[i] == recordTypes[1..][i - 1];
      if r.Some? then
        var k :| 0 <= k < |recordTypes[1..]| && recordTypes[1..][k] == (r.value, "Officer History")
          && forall j :: 0 <= j < k ==> recordTypes[1..][j].1 != "Officer History";
        assert recordTypes[k + 1] == (r.value, "Officer History");
        r
      else r
  }

  class Buttons {
    var recordId: Option<string>
    var caseDetailId: Option<string>
    var officerHistoryRecordTypeId: Option<string>
    var caseDetailRecord: Option<Record>

    /** `connectedCallback`, with the case the shared service names. */
    constructor (recordId: Option<string>)
      ensures this.recordId == recordId && caseDetailId == None
      ensures officerHistoryRecordTypeId == None && caseDetailRecord == None
    {
      this.recordId := recordId;
      caseDetailId := None;
      officerHistoryRecordTypeId := None;
      caseDetailRecord := None;
    }

    /** `objectInfo`: the record type is found and the record asked for when
      * both the case and the record type are known. */
    method ObjectInfo(recordTypes: seq<(string, string)>) returns (loads: bool)
      modifies this`officerHistoryRecordTypeId
      ensures officerHistoryRecordTypeId == FindRecordType(recordTypes)
      ensures loads <==> Truthy(recordId) && Truthy(officerHistoryRecordTypeId)
    {
      officerHistoryRecordTypeId := FindRecordType(recordTypes);
      loads := Truthy(recordId) && Truthy(officerHistoryRecordTypeId);
    }

    /** `loadCaseDetailRecord`, once the record arrives (or nothing does). */
    method CaseDetailLoaded(result: Option<Record>)
      modifies this`caseDetailRecord, this`caseDetailId
      ensures result.Some? ==> caseDetailRecord == result && caseDetailId == Get(result.value, Id)
      ensures result.None? ==> caseDetailRecord == old(caseDetailRecord) && caseDetailId == old(caseDetailId)
    {
      if result.Some? {
        caseDetailRecord := result;
        caseDetailId := Get(result.value, Id);
      }
    }

    /** `handleCaseOfficerSave`: an update when the record is known, else a
      * create. */
    method HandleCaseOfficerSave(newOfficer: string, now: string) returns (req: Request)
      ensures !Truthy(caseDetailId) ==> req == Create(map[CurrentOfficer := Some(newOfficer), DateOfficer := Some(now),
                                                          BvCase := recordId, RecordTypeId := officerHistoryRecordTypeId])
      ensures Truthy(caseDetailId) && caseDetailRecord.None? ==> req == Failed(TypeError)
      ensures Truthy(caseDetailId) && caseDetailRecord.Some? ==>
        req == Update(UpdateFields(caseDetailRecord.value, caseDetailId.value, newOfficer, now))
    {
      if Truthy(caseDetailId) {
        req := UpdateCaseDetail(newOfficer, now);
      } else {
        req := CreateCaseDetail(newOfficer, now);
        assert req.fields == map[CurrentOfficer := Some(newOfficer), DateOfficer := Some(now),
                                 BvCase := recordId, RecordTypeId := officerHistoryRecordTypeId];
      }
    }

    /** `createCaseDetail`: exactly the new officer, the time, the case and
      * the record type. */
    method CreateCaseDetail(newOfficer: string, now: string) returns (req: Request)
      ensures req.Create? && req.fields.Keys == {CurrentOfficer, DateOfficer, BvCase, RecordTypeId}
      ensures req.fields[CurrentOfficer] == Some(newOfficer) && req.fields[DateOfficer] == Some(now)
      ensures req.fields[BvCase] == recordId && req.fields[RecordTypeId] == officerHistoryRecordTypeId
    {
      var fields: Fields := map[];
      fields := fields[CurrentOfficer := Some(newOfficer)];
      fields := fields[DateOfficer := Some(now)];
      fields := fields[BvCase := recordId];
      fields := fields[RecordTypeId := officerHistoryRecordTypeId];
      req := Create(fields);
    }

    /** The create succeeded with the new record's Id. */
    method CaseDetailCreated(id: string)
      modifies this`caseDetailId
      ensures caseDetailId == Some(id)
    {
      caseDetailId := Some(id);
    }

    /** `updateCaseDetail`, with the history fields named. With no record
      * read the update stops at reading its current officer. This is the
      * corrected update: the source uses the history field names without
      * importing them and throws once there is a current officer
      * (`AsWrittenCounterexample`); here the history shifts (`HistoryShifted`). */
    method UpdateCaseDetail(newOfficer: string, now: string) returns (req: Request)
      requires caseDetailId.Some?
      ensures caseDetailRecord.None? ==> req == Failed(TypeError)
      ensures caseDetailRecord.Some? ==> req == Update(UpdateFields(caseDetailRecord.value, caseDetailId.value, newOfficer, now))
    {
      var fields: Fields := map[];
      fields := fields[Id := caseDetailId];
      if caseDetailRecord.None? {
        return Failed(TypeError);
      }
      var rec := caseDetailRecord.value;
      var currentOfficer := Get(rec, CurrentOfficer);
      var currentDateOfficer := Get(rec, DateOfficer);
      if Truthy(currentOfficer) {
        fields := fields[Previous(9) := Get(rec, Previous(8))][OfficerDate(9) := Get(rec, OfficerDate(8))];
        fields := fields[Previous(8) := Get(rec, Previous(7))][OfficerDate(8) := Get(rec, OfficerDate(7))];
        fields := fields[Previous(7) := Get(rec, Previous(6))][OfficerDate(7) := Get(rec, OfficerDate(6))];
        fields := fields[Previous(6) := Get(rec, Previous(5))][OfficerDate(6) := Get(rec, OfficerDate(5))];
        fields := fields[Previous(5) := Get(rec, Previous(4))][OfficerDate(5) := Get(rec, OfficerDate(4))];
        fields := fields[Previous(4) := Get(rec, Previous(3))][OfficerDate(4) := Get(rec, OfficerDate(3))];
        fields := fields[Previous(3) := Get(rec, Previous(2))][OfficerDate(3) := Get(rec, OfficerDate(2))];
        fields := fields[Previous(2) := Get(rec, Previous(1))][OfficerDate(2) := Get(rec, OfficerDate(1))];
        fields := fields[Previous(1) := currentOfficer][OfficerDate(1) := currentDateOfficer];
      }
      fields := fields[CurrentOfficer := Some(newOfficer)];
      fields := fields[DateOfficer := Some(now)];
      req := Update(fields);
    }
  }
}
