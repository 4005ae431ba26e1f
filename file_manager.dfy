/** The file manager of a case: the five kinds of file it recognises from an
  * extension, the cards it shows, the checks an upload must pass before its
  * files are processed, the file-count limit and the case folder name. */
module FileManager {
  import opened Seqs
  import opened Text

  /** The kinds of file the cards distinguish. */
  datatype FileClass = Pdf | Word | Image | Excel | Unknown

  /** The `fileExtensionType` text of a kind. */
  function ClassName(c: FileClass): string {
    match c
    case Pdf => "pdf"
    case Word => "word"
    case Image => "image"
    case Excel => "excel"
    case Unknown => "unknown"
  }

  /** The `switch` on a lowercased extension. */
  function Classify(extension: string): FileClass {
    if extension == "pdf" then Pdf
    else if extension == "doc" || extension == "docx" then Word
    else if extension == "jpg" || extension == "jpeg" || extension == "png" || extension == "gif" then Image
    else if extension == "xls" || extension == "xlsx" || extension == "csv" then Excel
    else Unknown
  }

  /** Each kind is recognised from exactly its own extensions. */
  lemma ClassifyCases(extension: string)
    ensures Classify(extension) == Pdf <==> extension == "pdf"
    ensures Classify(extension) == Word <==> extension in ["doc", "docx"]
    ensures Classify(extension) == Image <==> extension in ["jpg", "jpeg", "png", "gif"]
    ensures Classify(extension) == Excel <==> extension in ["xls", "xlsx", "csv"]
    ensures Classify(extension) == Unknown <==>
      extension !in ["pdf", "doc", "docx", "jpg", "jpeg", "png", "gif", "xls", "xlsx", "csv"]
  {
  }

  /** A file card; `url` is absent for files held by Salesforce. */
  datatype FileCard = FileCard(
    title: string, id: string, url: Option<string>, extensionType: string,
    isPdf: bool, isWord: bool, isImage: bool, isExcel: bool, isUnknown: bool,
    previewPath: string)

  /** A card whose flags are read off its `fileExtensionType`. */
  function Card(title: string, id: string, url: Option<string>, c: FileClass, previewPath: string): FileCard {
    var t := ClassName(c);
    FileCard(title, id, url, t, t == "pdf", t == "word", t == "image", t == "excel", t == "unknown", previewPath)
  }

  /** Exactly one flag of a classified card is set, the one of its kind. */
  lemma CardFlags(title: string, id: string, url: Option<string>, c: FileClass, previewPath: string)
    ensures var card := Card(title, id, url, c, previewPath);
      card.extensionType == ClassName(c) &&
      (card.isPdf <==> c == Pdf) && (card.isWord <==> c == Word) && (card.isImage <==> c == Image) &&
      (card.isExcel <==> c == Excel) && (card.isUnknown <==> c == Unknown) &&
      (if card.isPdf then 1 else 0) + (if card.isWord then 1 else 0) + (if card.isImage then 1 else 0) +
      (if card.isExcel then 1 else 0) + (if card.isUnknown then 1 else 0) == 1
  {
  }

  /** `name.split('.').pop().toLowerCase()`. */
  function NameExtension(name: string): string {
    ToLower(LastPiece(name, '.'))
  }

  /** The extension is the lowercased text after the last dot, the whole
    * lowercased name when there is no dot. */
  lemma NameExtensionProperties(name: string)
    ensures var parts := Split(name, '.'); NameExtension(name) == ToLower(parts[|parts| - 1])
    ensures '.' !in NameExtension(name)
    ensures '.' !in name ==> NameExtension(name) == ToLower(name)
    ensures forall prefix, ext :: name == prefix + "." + ext && '.' !in ext ==> NameExtension(name) == ToLower(ext)
  {
    LastPieceIsLastSplit(name, '.');
    var r := LastPiece(name, '.');
    assert forall k :: 0 <= k < |r| ==> ToLower(r)[k] != '.' by {
      forall k | 0 <= k < |r| ensures ToLower(r)[k] != '.' {
        assert r[k] != '.';
      }
    }
    forall prefix, ext | name == prefix + "." + ext && '.' !in ext
      ensures NameExtension(name) == ToLower(ext)
    {
      LastPieceAfterDot(prefix + ".", ext);
    }
  }

  /** The last piece of a text that ends in a dot and a dot-free tail is
    * that tail. */
  lemma {:induction false} LastPieceAfterDot(init: string, ext: string)
    requires init != [] && init[|init| - 1] == '.' && '.' !in ext
    ensures LastPiece(init + ext, '.') == ext
    decreases |ext|
  {
    if ext == [] {
      assert init + ext == init;
    } else {
      var e := ext[..|ext| - 1];
      LastPieceAfterDot(init, e);
      assert (init + ext)[..|init + ext| - 1] == init + e;
    }
  }

  /** A file held by Salesforce. */
  datatype ContentVersion = ContentVersion(id: string, title: string, fileExtension: Option<string>)

  const SalesforcePreviewPrefix := "/sfc/servlet.shepherd/version/renditionDownload?rendition=THUMB720BY480&versionId="

  /** `FileExtension` lowercased, `unknown` when it is empty or absent. */
  function VersionExtension(f: ContentVersion): string {
    if f.fileExtension.Some? && f.fileExtension.value != "" then ToLower(f.fileExtension.value) else "unknown"
  }

  /** The card `fetchFiles` makes of a Salesforce file. */
  function VersionCard(f: ContentVersion): FileCard {
    Card(f.title, f.id, None, Classify(VersionExtension(f)), SalesforcePreviewPrefix + f.id)
  }

  /** A Salesforce file without an extension is shown as unknown, and the
    * preview names the file's version. */
  lemma VersionCardProperties(f: ContentVersion)
    ensures f.fileExtension.None? ==> VersionCard(f).isUnknown && VersionCard(f).extensionType == "unknown"
    ensures VersionCard(f).extensionType == ClassName(Classify(VersionExtension(f)))
    ensures VersionCard(f).title == f.title && VersionCard(f).id == f.id
    ensures EndsWith(VersionCard(f).previewPath, f.id)
  {
    var p := VersionCard(f).previewPath;
    assert p[|p| - |f.id|..] == f.id;
  }

  /** A document held in SharePoint; `Keywords` carries its id. */
  datatype SharepointDocument = SharepointDocument(name: string, keywords: string, url: string)

  const SharepointPreviewPrefix := "https://glduat.sharepoint.com/sites/XansiumUATTestSite/_layouts/15/getpreview.ashx?path="

  /** The card `fetchFilesSharepoint` makes of a document; the URL is not
    * percent-encoded in this model. */
  function SharepointCard(d: SharepointDocument): FileCard {
    Card(d.name, d.keywords, Some(d.url), Classify(NameExtension(d.name)), SharepointPreviewPrefix + d.url)
  }

  /** A lowercased text is unchanged by lowering it again. */
  lemma ToLowerIdempotent(s: string)
    ensures ToLower(ToLower(s)) == ToLower(s)
  {
  }

  /** Lowering keeps spaces as spaces and everything else as non-spaces. */
  lemma LowerCharSpace(c: char)
    ensures IsSpace(LowerChar(c)) <==> IsSpace(c)
  {
  }

  /** One whitelist entry: `ext.trim().toLowerCase()`. */
  function Normalize(entry: string): string {
    ToLower(Trim(entry))
  }

  /** The parsed whitelist; none when the setting is empty. */
  function Whitelist(csv: string): Option<seq<string>> {
    if csv == "" then None else Some(Map(Split(csv, ','), Normalize))
  }

  /** A normalized entry is in lower case and has no space at either end. */
  lemma NormalizeProperties(entry: string)
    ensures var e := Normalize(entry);
      ToLower(e) == e && (e == [] || (!IsSpace(e[0]) && !IsSpace(e[|e| - 1])))
  {
    var t := Trim(entry);
    ToLowerIdempotent(t);
    if t != [] {
      LowerCharSpace(t[0]);
      LowerCharSpace(t[|t| - 1]);
    }
  }

  /** Normalizing adds no character other than a lowercase letter. */
  lemma TrimKeepsCharacters(entry: string, c: char)
    requires c !in entry && !('a' <= c <= 'z')
    ensures c !in Normalize(entry)
  {
    var mid := TrimStart(entry);
    var t := TrimEnd(mid);
    forall k | 0 <= k < |t| ensures LowerChar(t[k]) != c {
      assert t[k] == mid[k] == entry[|entry| - |mid| + k];
    }
  }

  /** Each entry of a whitelist is one comma-free field of the setting, in
    * lower case and with no space at either end. */
  lemma WhitelistEntries(csv: string)
    requires csv != ""
    ensures var w := Whitelist(csv).value;
      |w| == |Split(csv, ',')| &&
      forall i :: 0 <= i < |w| ==>
        w[i] == Normalize(Split(csv, ',')[i]) && ',' !in w[i] && ToLower(w[i]) == w[i] &&
        (w[i] == [] || (!IsSpace(w[i][0]) && !IsSpace(w[i][|w[i]| - 1])))
  {
    var parts := Split(csv, ',');
    var w := Whitelist(csv).value;
    forall i | 0 <= i < |w|
      ensures ',' !in w[i] && ToLower(w[i]) == w[i]
      ensures w[i] == [] || (!IsSpace(w[i][0]) && !IsSpace(w[i][|w[i]| - 1]))
    {
      NormalizeProperties(parts[i]);
      TrimKeepsCharacters(parts[i], ',');
    }
  }

  /** A file the upload dialog reports. */
  datatype UploadedFile = UploadedFile(name: string, documentId: string)

  function FileName(f: UploadedFile): string { f.name }
  function DocumentId(f: UploadedFile): string { f.documentId }

  /** Whether the extension of an uploaded file may be uploaded. */
  predicate Permitted(allowed: Option<seq<string>>, f: UploadedFile) {
    allowed.None? || NameExtension(f.name) in allowed.value
  }

  datatype Verdict = Accepted | TooMany | Disallowed

  /** The checks of `handleUploadFinished`: the file-count limit first, then
    * every extension against the whitelist. */
  function UploadVerdict(existing: nat, uploaded: seq<UploadedFile>, maxFiles: int, whitelist: string): Verdict {
    if maxFiles > 0 && existing + |uploaded| > maxFiles then TooMany
    else if exists i :: 0 <= i < |uploaded| && !Permitted(Whitelist(whitelist), uploaded[i]) then Disallowed
    else Accepted
  }

  /** The limit only applies when it is positive, and then rejects a batch
    * that would pass it; one disallowed extension rejects the whole batch;
    * with no whitelist every batch within the limit is accepted. */
  lemma UploadVerdictProperties(existing: nat, uploaded: seq<UploadedFile>, maxFiles: int, whitelist: string)
    ensures UploadVerdict(existing, uploaded, maxFiles, whitelist) == TooMany <==>
      maxFiles > 0 && existing + |uploaded| > maxFiles
    ensures UploadVerdict(existing, uploaded, maxFiles, whitelist) == Accepted <==>
      (maxFiles <= 0 || existing + |uploaded| <= maxFiles) &&
      (whitelist == "" || forall i :: 0 <= i < |uploaded| ==> NameExtension(uploaded[i].name) in Whitelist(whitelist).value)
    ensures whitelist == "" && maxFiles <= 0 ==> UploadVerdict(existing, uploaded, maxFiles, whitelist) == Accepted
    ensures forall i :: (0 <= i < |uploaded| && whitelist != "" &&
        NameExtension(uploaded[i].name) !in Whitelist(whitelist).value) ==>
      UploadVerdict(existing, uploaded, maxFiles, whitelist) != Accepted
  {
  }

  /** The checks as the handler runs them: the limit, then the files one by
    * one until a disallowed extension returns early; on success, the ids of
    * the documents to process, in upload order. */
  method CheckUpload(existing: nat, uploaded: seq<UploadedFile>, maxFiles: int, whitelist: string)
    returns (documentIds: Option<seq<string>>)
    ensures documentIds.Some? <==> UploadVerdict(existing, uploaded, maxFiles, whitelist) == Accepted
    ensures documentIds.Some? ==> documentIds.value == Map(uploaded, DocumentId)
  {
    if maxFiles > 0 && existing + |uploaded| > maxFiles {
      return None;
    }
    var allowed := Whitelist(whitelist);
    for i := 0 to |uploaded|
      invariant forall j :: 0 <= j < i ==> Permitted(allowed, uploaded[j])
    {
      var extension := NameExtension(uploaded[i].name);
      if allowed.Some? && extension !in allowed.value {
        VerdictDisallowed(existing, uploaded, maxFiles, whitelist, i);
        return None;
      }
      assert Permitted(allowed, uploaded[i]);
    }
    VerdictAccepted(existing, uploaded, maxFiles, whitelist);
    return Some(Map(uploaded, DocumentId));
  }

  /** A batch within the limit whose every file is permitted is accepted. */
  lemma VerdictAccepted(existing: nat, uploaded: seq<UploadedFile>, maxFiles: int, whitelist: string)
    requires !(maxFiles > 0 && existing + |uploaded| > maxFiles)
    requires forall j :: 0 <= j < |uploaded| ==> Permitted(Whitelist(whitelist), uploaded[j])
    ensures UploadVerdict(existing, uploaded, maxFiles, whitelist) == Accepted
  {
  }

  /** A file the whitelist refuses, in a batch within the limit, refuses the
    * batch. */
  lemma VerdictDisallowed(existing: nat, uploaded: seq<UploadedFile>, maxFiles: int, whitelist: string, i: nat)
    requires !(maxFiles > 0 && existing + |uploaded| > maxFiles)
    requires i < |uploaded| && !Permitted(Whitelist(whitelist), uploaded[i])
    ensures UploadVerdict(existing, uploaded, maxFiles, whitelist) == Disallowed
  {
  }

  /** `hasReachedMaxFiles`: no limit when `maxFiles` is not positive. */
  predicate ReachedMaxFiles(count: nat, maxFiles: int) {
    if maxFiles <= 0 then false else count >= maxFiles
  }

  /** Once the limit is reached, any further upload is refused. */
  lemma ReachedMaxFilesRefusesUploads(count: nat, uploaded: seq<UploadedFile>, maxFiles: int, whitelist: string)
    requires ReachedMaxFiles(count, maxFiles) && uploaded != []
    ensures UploadVerdict(count, uploaded, maxFiles, whitelist) == TooMany
  {
  }

  /** The case name usable as a folder name: every `/` becomes `_`; the empty
    * text when the case has no name. */
  function BvCaseName(caseName: Option<string>): string {
    if caseName.Some? && caseName.value != "" then ReplaceChar(caseName.value, '/', '_') else ""
  }

  /** The folder name has no `/`, keeps the name's length and every other
    * character, and is empty for an absent name. */
  lemma BvCaseNameProperties(caseName: Option<string>)
    ensures '/' !in BvCaseName(caseName)
    ensures caseName.None? ==> BvCaseName(caseName) == ""
    ensures caseName.Some? ==> (|BvCaseName(caseName)| == |caseName.value| &&
      forall i :: 0 <= i < |caseName.value| ==>
        BvCaseName(caseName)[i] == (if caseName.value[i] == '/' then '_' else caseName.value[i]))
  {
    var r := BvCaseName(caseName);
    forall k | 0 <= k < |r| ensures r[k] != '/' {
    }
  }

  class Manager {
    var files: seq<FileCard>
    var maxFiles: int
    var fileExtensionsWhitelist: string
    var caseName: Option<string>
    var fileToDelete: Option<string>

    constructor (maxFiles: int, fileExtensionsWhitelist: string, caseName: Option<string>)
      ensures files == [] && fileToDelete == None
      ensures this.maxFiles == maxFiles && this.fileExtensionsWhitelist == fileExtensionsWhitelist
      ensures this.caseName == caseName
    {
      files := [];
      this.maxFiles := maxFiles;
      this.fileExtensionsWhitelist := fileExtensionsWhitelist;
      this.caseName := caseName;
      fileToDelete := None;
    }

    /** `fetchFiles`: one card per Salesforce file, in order. */
    method FetchFiles(result: seq<ContentVersion>)
      modifies this`files
      ensures files == Map(result, VersionCard)
    {
      files := Map(result, VersionCard);
    }

    /** `fetchFilesSharepoint`: one card per SharePoint document, in order. */
    method FetchFilesSharepoint(result: seq<SharepointDocument>)
      modifies this`files
      ensures files == Map(result, SharepointCard)
    {
      files := Map(result, SharepointCard);
    }

    /** `handleUploadFinished` up to the call that processes the files: the
      * ids handed on, or none when the checks refuse the batch. */
    method HandleUploadFinished(uploaded: seq<UploadedFile>) returns (documentIds: Option<seq<string>>)
      ensures documentIds.Some? <==>
        UploadVerdict(|files|, uploaded, maxFiles, fileExtensionsWhitelist) == Accepted
      ensures documentIds.Some? ==> documentIds.value == Map(uploaded, DocumentId)
    {
      documentIds := CheckUpload(|files|, uploaded, maxFiles, fileExtensionsWhitelist);
    }

    predicate HasReachedMaxFiles()
      reads this
    {
      ReachedMaxFiles(|files|, maxFiles)
    }

    function FolderName(): string
      reads this
    {
      BvCaseName(caseName)
    }

    /** `handleDeleteFile`: the file awaiting confirmation. */
    method HandleDeleteFile(fileId: string)
      modifies this`fileToDelete
      ensures fileToDelete == Some(fileId)
    {
      fileToDelete := Some(fileId);
    }

    method HandleDialogClose()
      modifies this`fileToDelete
      ensures fileToDelete == None
    {
      fileToDelete := None;
    }
  }
}
