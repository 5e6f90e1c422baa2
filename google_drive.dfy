/** Export of Google-native files to Office Open XML (frontend/src/lib/googleDrive.ts):
    the two lookup tables, the native-type test, the exported mime type and
    file name, and which Drive endpoint a download uses. */
module GoogleDrive {
  import opened Wrappers
  import opened Strings

  /** The vendor tree of mime types, shared by Google's and Microsoft's types. */
  const VendorTree := "application/vnd."
  const GoogleAppsPrefix := VendorTree + "google-apps."
  const GoogleDocument := GoogleAppsPrefix + "document"
  const GoogleSpreadsheet := GoogleAppsPrefix + "spreadsheet"
  const GooglePresentation := GoogleAppsPrefix + "presentation"

  /** The common start of the three Office Open XML types. */
  const OfficeOpenXmlPrefix := VendorTree + "openxmlformats-officedocument."
  const WordprocessingDocument := OfficeOpenXmlPrefix + "wordprocessingml.document"
  const SpreadsheetSheet := OfficeOpenXmlPrefix + "spreadsheetml.sheet"
  const PresentationSlides := OfficeOpenXmlPrefix + "presentationml.presentation"
  const Pdf := "application/pdf"
  const PdfExtension := ".pdf"

  /** GOOGLE_TO_MS_MIME_TYPES */
  const ExportMimeTypes: map<string, string> := map[
    GoogleDocument := WordprocessingDocument,
    GoogleSpreadsheet := SpreadsheetSheet,
    GooglePresentation := PresentationSlides]

  /** GOOGLE_TO_MS_EXTENSIONS */
  const ExportExtensions: map<string, string> := map[
    GoogleDocument := ".docx",
    GoogleSpreadsheet := ".xlsx",
    GooglePresentation := ".pptx"]

  /** The fields of a Drive listing entry that the download uses. */
  datatype GoogleDriveFile = GoogleDriveFile(id: string, name: string, mimeType: string)

  predicate IsGoogleDocsFile(mimeType: string) {
    StartsWith(mimeType, GoogleAppsPrefix)
  }

  /** The table entry for a Google-native type, `application/pdf` for any
      other native type; other types are downloaded as they are. */
  function ExportedMimeType(mimeType: string): string {
    if IsGoogleDocsFile(mimeType) then
      if mimeType in ExportMimeTypes then ExportMimeTypes[mimeType] else Pdf
    else mimeType
  }

  /** The extension a Google-native type is exported with. */
  function ExportedExtension(mimeType: string): string {
    if mimeType in ExportExtensions then ExportExtensions[mimeType] else PdfExtension
  }

  /** Where the regular expression `/\.[^/.]+$/` matches `name`: a `.`
      followed by at least one character, none of them `.` or `/`, up to
      the end of the name. */
  predicate IsExtensionAt(name: string, i: int) {
    0 <= i < |name| - 1 && name[i] == '.'
    && forall j :: i < j < |name| ==> name[j] != '.' && name[j] != '/'
  }

  /** The regular expression matches at no more than one position. */
  lemma ExtensionAtUnique(name: string, i: int, k: int)
    requires IsExtensionAt(name, i) && IsExtensionAt(name, k)
    ensures i == k
  {
  }

  /** Scans `name` leftwards from `j`, where everything from `j` on is
      neither `.` nor `/`, for the start of the final extension. */
  function ExtensionScan(name: string, j: nat): (r: Option<nat>)
    requires j <= |name|
    requires forall k :: j <= k < |name| ==> name[k] != '.' && name[k] != '/'
    ensures r.Some? ==> IsExtensionAt(name, r.value)
    ensures r.None? ==> forall i :: !IsExtensionAt(name, i)
    decreases j
  {
    if j == 0 then None
    else if name[j - 1] == '.' then (if j < |name| then Some(j - 1) else None)
    else if name[j - 1] == '/' then None
    else ExtensionScan(name, j - 1)
  }

  /** The position where `/\.[^/.]+$/` matches, if it does. */
  function ExtensionIndex(name: string): (r: Option<nat>)
    ensures r.Some? ==> IsExtensionAt(name, r.value)
    ensures r.None? ==> forall i :: !IsExtensionAt(name, i)
  {
    ExtensionScan(name, |name|)
  }

  /** `name.replace(/\.[^/.]+$/, "")` */
  function StripExtension(name: string): (r: string)
    ensures forall i :: IsExtensionAt(name, i) ==> r == name[..i]
    ensures (forall i :: !IsExtensionAt(name, i)) ==> r == name
  {
    match ExtensionIndex(name)
    case Some(i) => name[..i]
    case None => name
  }

  /** The name a downloaded file gets: for a Google-native type the final
      extension is replaced by the Office (or `.pdf`) one. */
  function ExportedFilename(originalName: string, mimeType: string): string {
    if IsGoogleDocsFile(mimeType) then StripExtension(originalName) + ExportedExtension(mimeType)
    else originalName
  }

  /** Which Drive v3 endpoint `downloadGoogleDriveFile` requests: `/export`
      with a target mime type, or the file itself with `?alt=media`. */
  datatype DriveRequest =
    | ExportRequest(fileId: string, exportMimeType: string)
    | MediaRequest(fileId: string)

  /** The request part of `downloadGoogleDriveFile`, before the fetch. */
  function DownloadRequest(file: GoogleDriveFile): DriveRequest {
    if StartsWith(file.mimeType, GoogleAppsPrefix) then
      ExportRequest(file.id, if file.mimeType in ExportMimeTypes then ExportMimeTypes[file.mimeType] else Pdf)
    else MediaRequest(file.id)
  }

  // ---- Properties ----

  /** The two tables cover the same three native types, all of them Google types. */
  lemma TablesShareKeys()
    ensures ExportMimeTypes.Keys == ExportExtensions.Keys
    ensures ExportMimeTypes.Keys == {GoogleDocument, GoogleSpreadsheet, GooglePresentation}
    ensures forall m | m in ExportMimeTypes :: IsGoogleDocsFile(m)
  {
    assert IsGoogleDocsFile(GoogleDocument);
    assert IsGoogleDocsFile(GoogleSpreadsheet);
    assert IsGoogleDocsFile(GooglePresentation);
  }

  /** Documents, spreadsheets and presentations export to the matching Office
      Open XML type and extension. */
  lemma NativeTypesExportToOffice()
    ensures ExportedMimeType(GoogleDocument) == WordprocessingDocument
    ensures ExportedMimeType(GoogleSpreadsheet) == SpreadsheetSheet
    ensures ExportedMimeType(GooglePresentation) == PresentationSlides
    ensures ExportedExtension(GoogleDocument) == ".docx"
    ensures ExportedExtension(GoogleSpreadsheet) == ".xlsx"
    ensures ExportedExtension(GooglePresentation) == ".pptx"
  {
    TablesShareKeys();
  }

  /** Other native types export as PDF; non-Google types are kept. */
  lemma OtherTypesExport(mimeType: string)
    ensures IsGoogleDocsFile(mimeType) && mimeType !in ExportMimeTypes
        ==> ExportedMimeType(mimeType) == Pdf && ExportedExtension(mimeType) == PdfExtension
    ensures !IsGoogleDocsFile(mimeType) ==> ExportedMimeType(mimeType) == mimeType
  {
  }

  lemma OfficePrefixNotNative(rest: string)
    ensures !IsGoogleDocsFile(OfficeOpenXmlPrefix + rest)
  {
    var m := OfficeOpenXmlPrefix + rest;
    assert m[16] == OfficeOpenXmlPrefix[16];
    assert OfficeOpenXmlPrefix[16] != GoogleAppsPrefix[16];
  }

  /** None of the export targets is a Google-native type. */
  lemma ExportTargetsNotNative()
    ensures !IsGoogleDocsFile(WordprocessingDocument)
    ensures !IsGoogleDocsFile(SpreadsheetSheet)
    ensures !IsGoogleDocsFile(PresentationSlides)
    ensures !IsGoogleDocsFile(Pdf)
  {
    OfficePrefixNotNative("wordprocessingml.document");
    OfficePrefixNotNative("spreadsheetml.sheet");
    OfficePrefixNotNative("presentationml.presentation");
  }

  /** An exported type is never itself a Google-native type, so exporting
      twice changes nothing. */
  lemma ExportedMimeTypeIsFinal(mimeType: string)
    ensures IsGoogleDocsFile(mimeType) ==> !IsGoogleDocsFile(ExportedMimeType(mimeType))
    ensures ExportedMimeType(ExportedMimeType(mimeType)) == ExportedMimeType(mimeType)
  {
    ExportTargetsNotNative();
  }

  /** A well-formed extension: a `.` and at least one character that is
      neither `.` nor `/`. */
  predicate IsExtension(ext: string) {
    |ext| >= 2 && ext[0] == '.' && forall j :: 0 < j < |ext| ==> ext[j] != '.' && ext[j] != '/'
  }

  lemma ExportedExtensionWellFormed(mimeType: string)
    ensures IsExtension(ExportedExtension(mimeType))
  {
  }

  /** Stripping undoes appending a well-formed extension. */
  lemma StripAppendedExtension(stem: string, ext: string)
    requires IsExtension(ext)
    ensures StripExtension(stem + ext) == stem
  {
    var name := stem + ext;
    forall j | |stem| < j < |name| ensures name[j] != '.' && name[j] != '/' {
      assert name[j] == ext[j - |stem|];
    }
    assert IsExtensionAt(name, |stem|);
  }

  /** A non-Google file keeps its name. */
  lemma NonGoogleNameUnchanged(originalName: string, mimeType: string)
    requires !IsGoogleDocsFile(mimeType)
    ensures ExportedFilename(originalName, mimeType) == originalName
  {
  }

  /** For a Google type the result is the name without its final extension
      (or the whole name when it has none) followed by the mapped extension,
      so it always ends with that extension. */
  lemma GoogleNameRewritten(originalName: string, mimeType: string)
    requires IsGoogleDocsFile(mimeType)
    ensures forall i :: (IsExtensionAt(originalName, i)
        ==> ExportedFilename(originalName, mimeType) == originalName[..i] + ExportedExtension(mimeType))
    ensures (forall i :: !IsExtensionAt(originalName, i))
        ==> ExportedFilename(originalName, mimeType) == originalName + ExportedExtension(mimeType)
    ensures EndsWith(ExportedFilename(originalName, mimeType), ExportedExtension(mimeType))
  {
    var r := ExportedFilename(originalName, mimeType);
    var stem, ext := StripExtension(originalName), ExportedExtension(mimeType);
    assert r[|r| - |ext|..] == ext by {
      assert r == stem + ext;
    }
  }

  /** Renaming an already exported name again changes nothing. */
  lemma ExportedFilenameIdempotent(originalName: string, mimeType: string)
    ensures ExportedFilename(ExportedFilename(originalName, mimeType), mimeType)
         == ExportedFilename(originalName, mimeType)
  {
    if IsGoogleDocsFile(mimeType) {
      ExportedExtensionWellFormed(mimeType);
      StripAppendedExtension(StripExtension(originalName), ExportedExtension(mimeType));
    }
  }

  /** Worked names: only the final extension goes, a trailing dot or a
      slash after the last dot stops the match, and a leading dot counts. */
  lemma ExportedFilenameStripsFinalExtension()
    ensures ExportedFilename("Report.gdoc", GoogleDocument) == "Report.docx"
    ensures ExportedFilename("archive.tar.gz", GoogleSpreadsheet) == "archive.tar.xlsx"
    ensures ExportedFilename(".profile", GoogleDocument) == ".docx"
  {
    NativeTypesExportToOffice();
    assert IsExtensionAt("Report.gdoc", 6);
    assert IsExtensionAt("archive.tar.gz", 11);
    assert IsExtensionAt(".profile", 0);
  }

  lemma ExportedFilenameKeepsUnmatchedNames()
    ensures ExportedFilename("Budget", GoogleSpreadsheet) == "Budget.xlsx"
    ensures ExportedFilename("notes.", GooglePresentation) == "notes..pptx"
    ensures ExportedFilename("v1.0/plan", GoogleDocument) == "v1.0/plan.docx"
  {
    NativeTypesExportToOffice();
    assert forall i :: !IsExtensionAt("Budget", i) by {
      forall i | 0 <= i < 5 ensures "Budget"[i] != '.' { }
    }
    assert forall i :: !IsExtensionAt("notes.", i) by {
      assert "notes."[5] == '.';
    }
    assert forall i :: !IsExtensionAt("v1.0/plan", i) by {
      forall i | 0 <= i < 8 && "v1.0/plan"[i] == '.' ensures i < 4 { }
      assert "v1.0/plan"[4] == '/';
    }
  }

  lemma ExportedFilenameOtherTypes()
    ensures ExportedFilename("Drawing.svg", VendorTree + "google-apps.drawing") == "Drawing.pdf"
    ensures ExportedFilename("photo.jpg", "image/jpeg") == "photo.jpg"
  {
    TablesShareKeys();
    assert IsExtensionAt("Drawing.svg", 7);
    assert IsGoogleDocsFile(GoogleAppsPrefix + "drawing");
    assert !IsGoogleDocsFile("image/jpeg");
  }

  /** The download exports exactly the Google types, asking for the mime type
      `getExportedMimeType` gives, and fetches every other file as it is. */
  lemma DownloadRequestAgreesWithExport(file: GoogleDriveFile)
    ensures DownloadRequest(file).ExportRequest? <==> IsGoogleDocsFile(file.mimeType)
    ensures DownloadRequest(file).fileId == file.id
    ensures DownloadRequest(file).ExportRequest?
        ==> DownloadRequest(file).exportMimeType == ExportedMimeType(file.mimeType)
  {
  }
}
