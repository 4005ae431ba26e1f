/** The edit dialog of a case-history item: its fields taken from the record,
  * the list of earlier versions, restoring one of them, edits, and the file
  * attached to the item. */
module HistoryEditModal {
  import opened Seqs
  import opened DatabaseScreenLayout
  import opened DatabaseRecordModal

  /** `value || fallback`. */
  function OrDefault(v: Value, fallback: Value): (r: Value)
    ensures Truthy(v) ==> r == v
    ensures !Truthy(v) ==> r == fallback
  {
    if Truthy(v) then v else fallback
  }

  /** One row of the version list. */
  datatype Version = Version(
    id: Value, dateInserted: Value, description: Value, details: Value, flagImportant: Value,
    fileData: Value, fileName: Value, bvCaseId: Value,
    lastModifiedByName: string, lastModifiedDate: Value, action: Value, versionNumber: int)

  const InitialDescription := "Initial version"

  /** The first row: the item as the dialog holds it. */
  function InitialVersion(dateInserted: Value, details: Value, flagImportant: Value,
                          fileData: Value, fileName: Value, bvCaseId: Value): Version
  {
    Version(Str("initial"), dateInserted, Str(InitialDescription), details, flagImportant, fileData, fileName,
            bvCaseId, "Initial User", dateInserted, Str("History item created"), 1)
  }

  /** The row of a stored version at position `index` of the answer. */
  function StoredVersion(v: Record, index: nat, fileData: Value, fileName: Value): Version {
    Version(Get(v, "Id"), Get(v, "Date_Inserted__c"), Get(v, "Action__c"), Get(v, "Details__c"),
            Get(v, "Flag_as_important__c"), fileData, fileName, Get(v, "BV_Case__c"),
            "User", Get(v, "Date_Inserted__c"), Get(v, "Action__c"), index + 2)
  }

  /** The list `wiredVersions` builds: the initial row, then the stored
    * versions in order. */
  function Versions(initial: Version, data: seq<Record>, fileData: Value, fileName: Value): (r: seq<Version>)
    ensures |r| == |data| + 1
  {
    [initial] + seq(|data|, i requires 0 <= i < |data| => StoredVersion(data[i], i, fileData, fileName))
  }

  /** Row j is numbered j + 1; the first row is the initial version and row
    * i + 1 is stored version i. */
  lemma VersionsNumbered(dateInserted: Value, details: Value, flagImportant: Value,
                         fileData: Value, fileName: Value, bvCaseId: Value, data: seq<Record>)
    ensures var r := Versions(InitialVersion(dateInserted, details, flagImportant, fileData, fileName, bvCaseId),
                              data, fileData, fileName);
      (forall j :: 0 <= j < |r| ==> r[j].versionNumber == j + 1) &&
      r[0].description == Str(InitialDescription) && r[0].dateInserted == dateInserted &&
      forall i :: 0 <= i < |data| ==>
        r[i + 1].id == Get(data[i], "Id") && r[i + 1].description == Get(data[i], "Action__c") &&
        r[i + 1].fileData == fileData && r[i + 1].fileName == fileName
  {
    var r := Versions(InitialVersion(dateInserted, details, flagImportant, fileData, fileName, bvCaseId),
                      data, fileData, fileName);
    forall j | 1 <= j < |r| ensures r[j] == StoredVersion(data[j - 1], j - 1, fileData, fileName) {
    }
  }

  class Dialog {
    var record: Record
    var dateInserted: Value
    var description: Value
    var details: Value
    var flagImportant: Value
    var fileData: Value
    var fileName: Value
    var fileSize: Value
    var documentType: Value
    var correspondenceWith: Value
    var draft: Value
    var bvCaseId: Value
    var versions: seq<Version>

    constructor (record: Record)
      ensures this.record == record && flagImportant == Bool(false) && versions == []
      ensures dateInserted == Undefined && description == Undefined && details == Undefined
      ensures fileData == Undefined && fileName == Undefined && fileSize == Undefined
      ensures documentType == Undefined && correspondenceWith == Undefined && draft == Undefined
      ensures bvCaseId == Undefined
    {
      this.record := record;
      dateInserted := Undefined;
      description := Undefined;
      details := Undefined;
      flagImportant := Bool(false);
      fileData := Undefined;
      fileName := Undefined;
      fileSize := Undefined;
      documentType := Undefined;
      correspondenceWith := Undefined;
      draft := Undefined;
      bvCaseId := Undefined;
      versions := [];
    }

    /** `connectedCallback`: the item's fields, empty or false when missing,
      * and its file only when it names one. */
    method ConnectedCallback()
      modifies this`dateInserted, this`description, this`details, this`flagImportant, this`bvCaseId,
               this`fileName, this`fileSize, this`fileData, this`documentType, this`correspondenceWith, this`draft
      ensures dateInserted == OrDefault(Get(record, "Date_Inserted__c"), Str(""))
      ensures description == OrDefault(Get(record, "Action__c"), Str(""))
      ensures details == OrDefault(Get(record, "Details__c"), Str(""))
      ensures flagImportant == OrDefault(Get(record, "Flag_as_important__c"), Bool(false))
      ensures bvCaseId == OrDefault(Get(record, "BV_Case__c"), Str(""))
      ensures Truthy(Get(record, "fileName")) ==>
        fileName == Get(record, "fileName") && fileSize == Get(record, "fileSize") &&
        fileData == Get(record, "fileData") && documentType == Get(record, "documentType") &&
        correspondenceWith == Get(record, "correspondenceWith") && draft == Get(record, "draft")
      ensures !Truthy(Get(record, "fileName")) ==>
        fileName == old(fileName) && fileSize == old(fileSize) && fileData == old(fileData) &&
        documentType == old(documentType) && correspondenceWith == old(correspondenceWith) && draft == old(draft)
    {
      LoadItemFields();
      if Truthy(Get(record, "fileName")) {
        HandleFileChange(Get(record, "fileData"), Get(record, "fileName"), Get(record, "fileSize"),
                         Get(record, "documentType"), Get(record, "correspondenceWith"), Get(record, "draft"));
      }
    }

    /** The item's own fields, each with its default. */
    method LoadItemFields()
      modifies this`dateInserted, this`description, this`details, this`flagImportant, this`bvCaseId
      ensures dateInserted == OrDefault(Get(record, "Date_Inserted__c"), Str(""))
      ensures description == OrDefault(Get(record, "Action__c"), Str(""))
      ensures details == OrDefault(Get(record, "Details__c"), Str(""))
      ensures flagImportant == OrDefault(Get(record, "Flag_as_important__c"), Bool(false))
      ensures bvCaseId == OrDefault(Get(record, "BV_Case__c"), Str(""))
    {
      dateInserted := OrDefault(Get(record, "Date_Inserted__c"), Str(""));
      description := OrDefault(Get(record, "Action__c"), Str(""));
      details := OrDefault(Get(record, "Details__c"), Str(""));
      flagImportant := OrDefault(Get(record, "Flag_as_important__c"), Bool(false));
      bvCaseId := OrDefault(Get(record, "BV_Case__c"), Str(""));
    }

    /** `wiredVersions`: the list rebuilt when versions arrive, kept on an
      * error. */
    method WiredVersions(data: Option<seq<Record>>)
      modifies this`versions
      ensures data.Some? ==> (versions ==
        Versions(InitialVersion(dateInserted, details, flagImportant, fileData, fileName, bvCaseId),
                 data.value, fileData, fileName))
      ensures data.None? ==> versions == old(versions)
    {
      if data.Some? {
        versions := Versions(InitialVersion(dateInserted, details, flagImportant, fileData, fileName, bvCaseId),
                             data.value, fileData, fileName);
      }
    }

    /** `handleRestore`: the seven fields of the numbered version; a number
      * outside the list fails before anything changes. */
    method HandleRestore(versionNumber: int)
      modifies this`dateInserted, this`description, this`details, this`flagImportant,
               this`fileData, this`fileName, this`bvCaseId
      ensures 1 <= versionNumber <= |versions| ==>
        var v := versions[versionNumber - 1];
        dateInserted == v.dateInserted && description == v.description && details == v.details &&
        flagImportant == v.flagImportant && fileData == v.fileData && fileName == v.fileName &&
        bvCaseId == v.bvCaseId
      ensures !(1 <= versionNumber <= |versions|) ==>
        dateInserted == old(dateInserted) && description == old(description) && details == old(details) &&
        flagImportant == old(flagImportant) && fileData == old(fileData) && fileName == old(fileName) &&
        bvCaseId == old(bvCaseId)
    {
      var versionIndex := versionNumber - 1;
      if 0 <= versionIndex < |versions| {
        var versionToRestore := versions[versionIndex];
        dateInserted := versionToRestore.dateInserted;
        description := versionToRestore.description;
        details := versionToRestore.details;
        flagImportant := versionToRestore.flagImportant;
        fileData := versionToRestore.fileData;
        fileName := versionToRestore.fileName;
        bvCaseId := versionToRestore.bvCaseId;
      }
    }

    /** `handleInputChange`: only the named field changes. */
    method HandleInputChange(field: string, value: Value, checked: bool)
      modifies this`dateInserted, this`description, this`details, this`flagImportant
      ensures dateInserted == if field == "date-inserted" then value else old(dateInserted)
      ensures description == if field == "description" then value else old(description)
      ensures details == if field == "details" then value else old(details)
      ensures flagImportant == if field == "flag-important" then Bool(checked) else old(flagImportant)
    {
      if field == "date-inserted" {
        dateInserted := value;
      } else if field == "description" {
        description := value;
      } else if field == "details" {
        details := value;
      } else if field == "flag-important" {
        flagImportant := Bool(checked);
      }
    }

    /** `handleFileChange`. */
    method HandleFileChange(data: Value, name: Value, size: Value, docType: Value, with: Value, isDraft: Value)
      modifies this`fileData, this`fileName, this`fileSize, this`documentType, this`correspondenceWith, this`draft
      ensures fileData == data && fileName == name && fileSize == size
      ensures documentType == docType && correspondenceWith == with && draft == isDraft
    {
      fileData := data;
      fileName := name;
      fileSize := size;
      documentType := docType;
      correspondenceWith := with;
      draft := isDraft;
    }

    /** `handleFileRemove`: every file field is cleared. */
    method HandleFileRemove()
      modifies this`fileData, this`fileName, this`fileSize, this`documentType, this`correspondenceWith, this`draft
      ensures fileData == Null && fileName == Null && fileSize == Null
      ensures documentType == Null && correspondenceWith == Null && draft == Null
    {
      fileData := Null;
      fileName := Null;
      fileSize := Null;
      documentType := Null;
      correspondenceWith := Null;
      draft := Null;
    }
  }

  /** A restore after `wiredVersions` of the first row gives back the
    * dialog's own fields with the description `Initial version`. */
  lemma RestoreInitial(dateInserted: Value, details: Value, flagImportant: Value,
                       fileData: Value, fileName: Value, bvCaseId: Value, data: seq<Record>)
    ensures var r := Versions(InitialVersion(dateInserted, details, flagImportant, fileData, fileName, bvCaseId),
                              data, fileData, fileName);
      r[1 - 1].description == Str(InitialDescription) && r[1 - 1].details == details &&
      r[1 - 1].flagImportant == flagImportant && r[1 - 1].bvCaseId == bvCaseId &&
      r[1 - 1].dateInserted == dateInserted && r[1 - 1].fileData == fileData && r[1 - 1].fileName == fileName
  {
  }
}
