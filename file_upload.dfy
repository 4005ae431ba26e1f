/** The upload panel of case creation: the same classification and upload
  * checks as the file manager, with documents read from the drive and the
  * files an upload returns appended to the list shown. */
module FileUpload {
  import opened Seqs
  import opened Text
  import opened FileManager

  /** A document the drive lists for a case folder. */
  datatype DriveDocument = DriveDocument(name: string, id: string, webUrl: string, thumbnailUrl: string)

  /** The card `processDocuments` makes of a drive document. */
  function DriveCard(d: DriveDocument): FileCard {
    Card(d.name, d.id, Some(d.webUrl), Classify(NameExtension(d.name)), d.thumbnailUrl)
  }

  /** `processDocuments`. */
  function ProcessDocuments(documents: seq<DriveDocument>): seq<FileCard> {
    Map(documents, DriveCard)
  }

  /** One card per document, in order, classified by the extension of its
    * name with exactly one flag set. */
  lemma ProcessDocumentsProperties(documents: seq<DriveDocument>)
    ensures |ProcessDocuments(documents)| == |documents|
    ensures forall i :: 0 <= i < |documents| ==>
      var card := ProcessDocuments(documents)[i];
      card.title == documents[i].name && card.id == documents[i].id &&
      card.url == Some(documents[i].webUrl) && card.previewPath == documents[i].thumbnailUrl &&
      card.extensionType == ClassName(Classify(NameExtension(documents[i].name))) &&
      (if card.isPdf then 1 else 0) + (if card.isWord then 1 else 0) + (if card.isImage then 1 else 0) +
      (if card.isExcel then 1 else 0) + (if card.isUnknown then 1 else 0) == 1
  {
    forall i | 0 <= i < |documents|
      ensures var card := ProcessDocuments(documents)[i];
        (if card.isPdf then 1 else 0) + (if card.isWord then 1 else 0) + (if card.isImage then 1 else 0) +
        (if card.isExcel then 1 else 0) + (if card.isUnknown then 1 else 0) == 1
    {
      var d := documents[i];
      CardFlags(d.name, d.id, Some(d.webUrl), Classify(NameExtension(d.name)), d.thumbnailUrl);
    }
  }

  /** What the drive returns for an uploaded file. */
  datatype UploadResponse = UploadResponse(fileName: string, documentId: string, webUrl: string, fileExtension: string)

  /** The entry pushed for a response: its extension only lowercased, not
    * classified, and every `is*` flag left unset. */
  function ResponseCard(r: UploadResponse): FileCard {
    FileCard(r.fileName, r.documentId, Some(r.webUrl), ToLower(r.fileExtension),
             false, false, false, false, false, r.webUrl)
  }

  /** A pushed entry keeps the response's name, id and address and shows no
    * kind of file. */
  lemma ResponseCardProperties(r: UploadResponse)
    ensures var card := ResponseCard(r);
      card.title == r.fileName && card.id == r.documentId && card.previewPath == r.webUrl &&
      |card.extensionType| == |r.fileExtension| && ToLower(card.extensionType) == card.extensionType &&
      !(card.isPdf || card.isWord || card.isImage || card.isExcel || card.isUnknown)
  {
    ToLowerIdempotent(r.fileExtension);
  }

  /** `hasReachedMaxFiles` as this panel writes it. */
  predicate PanelReachedMaxFiles(count: nat, maxFiles: int) {
    maxFiles > 0 && count >= maxFiles
  }

  /** Both panels agree on when the limit is reached. */
  lemma ReachedMaxFilesAgree(count: nat, maxFiles: int)
    ensures PanelReachedMaxFiles(count, maxFiles) <==> ReachedMaxFiles(count, maxFiles)
  {
  }

  class Panel {
    var files: seq<FileCard>
    var maxFiles: int
    var fileExtensionsWhitelist: string
    var caseName: Option<string>

    constructor (maxFiles: int, fileExtensionsWhitelist: string, caseName: Option<string>)
      ensures files == []
      ensures this.maxFiles == maxFiles && this.fileExtensionsWhitelist == fileExtensionsWhitelist
      ensures this.caseName == caseName
    {
      files := [];
      this.maxFiles := maxFiles;
      this.fileExtensionsWhitelist := fileExtensionsWhitelist;
      this.caseName := caseName;
    }

    /** `wiredFetchFiles`: the list is replaced when documents arrive and
      * kept when the call fails. */
    method WiredFetchFiles(data: Option<seq<DriveDocument>>)
      modifies this`files
      ensures files == if data.Some? then ProcessDocuments(data.value) else old(files)
    {
      if data.Some? {
        files := ProcessDocuments(data.value);
      }
    }

    /** `handleUploadFinished` up to the call that processes the files. */
    method HandleUploadFinished(uploaded: seq<UploadedFile>) returns (documentIds: Option<seq<string>>)
      ensures documentIds.Some? <==>
        UploadVerdict(|files|, uploaded, maxFiles, fileExtensionsWhitelist) == Accepted
      ensures documentIds.Some? ==> documentIds.value == Map(uploaded, DocumentId)
    {
      documentIds := CheckUpload(|files|, uploaded, maxFiles, fileExtensionsWhitelist);
    }

    /** The responses of the upload pushed onto the list one by one: the
      * entries already shown stay in front, the new ones follow in response
      * order. */
    method AppendResponses(responses: seq<UploadResponse>)
      modifies this`files
      ensures files == old(files) + Map(responses, ResponseCard)
      ensures |files| == |old(files)| + |responses| && files[..|old(files)|] == old(files)
      ensures forall i :: 0 <= i < |responses| ==> files[|old(files)| + i] == ResponseCard(responses[i])
    {
      ghost var before := files;
      for i := 0 to |responses|
        invariant files == before + Map(responses[..i], ResponseCard)
      {
        var response := responses[i];
        var card := FileCard(response.fileName, response.documentId, Some(response.webUrl),
                             ToLower(response.fileExtension), false, false, false, false, false, response.webUrl);
        assert responses[..i + 1] == responses[..i] + [response];
        MapAppend(responses[..i], [response], ResponseCard);
        files := files + [card];
      }
      assert responses[..|responses|] == responses;
    }

    predicate HasReachedMaxFiles()
      reads this
    {
      PanelReachedMaxFiles(|files|, maxFiles)
    }

    function FolderName(): string
      reads this
    {
      BvCaseName(caseName)
    }
  }
}
