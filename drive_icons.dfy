/** How `getFileIcon` (frontend/src/lib/utils.ts) classifies the mime types
    that frontend/src/lib/googleDrive.ts reads and produces. */
module DriveIcons {
  import opened Strings
  import opened GoogleDrive
  import opened FileIcons

  /** Every `application/...` type misses the image, video and audio prefixes. */
  lemma NotMediaPrefixed(m: string)
    requires |m| >= 2 && m[0] == 'a' && m[1] == 'p'
    ensures !MediaPrefixed(m)
  {
  }

  lemma VendorTypeStart(suffix: string)
    ensures var m := VendorTree + suffix; |m| >= 2 && m[0] == 'a' && m[1] == 'p'
  {
  }

  /** The Google-native prefix holds none of the leading character pairs of
      the fragments `getFileIcon` tests. */
  lemma NativePrefixLacksPd() ensures NoPair(GoogleAppsPrefix, 'p', 'd') { }
  lemma NativePrefixLacksDo() ensures NoPair(GoogleAppsPrefix, 'd', 'o') { }
  lemma NativePrefixLacksWo() ensures NoPair(GoogleAppsPrefix, 'w', 'o') { }
  lemma NativePrefixLacksSp() ensures NoPair(GoogleAppsPrefix, 's', 'p') { }
  lemma NativePrefixLacksEx() ensures NoPair(GoogleAppsPrefix, 'e', 'x') { }
  lemma NativePrefixLacksPr() ensures NoPair(GoogleAppsPrefix, 'p', 'r') { }
  lemma NativePrefixLacksPo() ensures NoPair(GoogleAppsPrefix, 'p', 'o') { }
  lemma NativePrefixLacksZi() ensures NoPair(GoogleAppsPrefix, 'z', 'i') { }
  lemma NativePrefixLacksCo() ensures NoPair(GoogleAppsPrefix, 'c', 'o') { }

  /** A Google Docs document shows the memo icon. */
  lemma GoogleDocumentIcon()
    ensures FileIcon(GoogleDocument) == Memo
  {
    VendorTypeStart("google-apps.document");
    NotMediaPrefixed(GoogleDocument);
    NativePrefixLacksPd();
    AbsentFromConcat(GoogleAppsPrefix, "document", "pdf");
    ContainsSuffix(GoogleAppsPrefix, "document");
  }

  lemma GoogleSpreadsheetLacksEarlierFragments()
    ensures !Contains(GoogleSpreadsheet, "pdf") && !Contains(GoogleSpreadsheet, "document")
    ensures !Contains(GoogleSpreadsheet, "word")
  {
    NativePrefixLacksPd();
    NativePrefixLacksDo();
    NativePrefixLacksWo();
    AbsentFromConcat(GoogleAppsPrefix, "spreadsheet", "pdf");
    AbsentFromConcat(GoogleAppsPrefix, "spreadsheet", "document");
    AbsentFromConcat(GoogleAppsPrefix, "spreadsheet", "word");
  }

  /** A Google Sheets spreadsheet shows the bar chart. */
  lemma GoogleSpreadsheetIcon()
    ensures FileIcon(GoogleSpreadsheet) == BarChart
  {
    VendorTypeStart("google-apps.spreadsheet");
    NotMediaPrefixed(GoogleSpreadsheet);
    GoogleSpreadsheetLacksEarlierFragments();
    ContainsSuffix(GoogleAppsPrefix, "spreadsheet");
  }

  lemma GooglePresentationLacksPdfAndDocument()
    ensures !Contains(GooglePresentation, "pdf") && !Contains(GooglePresentation, "document")
    ensures !Contains(GooglePresentation, "word")
  {
    NativePrefixLacksPd();
    NativePrefixLacksDo();
    NativePrefixLacksWo();
    AbsentFromConcat(GoogleAppsPrefix, "presentation", "pdf");
    AbsentFromConcat(GoogleAppsPrefix, "presentation", "document");
    AbsentFromConcat(GoogleAppsPrefix, "presentation", "word");
  }

  lemma GooglePresentationLacksSheetFragments()
    ensures !Contains(GooglePresentation, "spreadsheet") && !Contains(GooglePresentation, "excel")
  {
    NativePrefixLacksSp();
    NativePrefixLacksEx();
    AbsentFromConcat(GoogleAppsPrefix, "presentation", "spreadsheet");
    AbsentFromConcat(GoogleAppsPrefix, "presentation", "excel");
  }

  /** A Google Slides presentation shows the film projector. */
  lemma GooglePresentationIcon()
    ensures FileIcon(GooglePresentation) == FilmProjector
  {
    VendorTypeStart("google-apps.presentation");
    NotMediaPrefixed(GooglePresentation);
    GooglePresentationLacksPdfAndDocument();
    GooglePresentationLacksSheetFragments();
    ContainsSuffix(GoogleAppsPrefix, "presentation");
  }

  lemma OfficePrefixLacksPd()
    ensures NoPair(OfficeOpenXmlPrefix, 'p', 'd')
  {
    assert NoPair(VendorTree, 'p', 'd');
    assert NoPair("openxmlformats-officedocument.", 'p', 'd');
    NoPairConcat(VendorTree, "openxmlformats-officedocument.", 'p', 'd');
  }

  lemma OfficePrefixHoldsDocument()
    ensures Contains(OfficeOpenXmlPrefix, "document")
  {
    assert OccursAt("openxmlformats-officedocument.", "document", 21);
    ContainsWithin(VendorTree, "openxmlformats-officedocument.", "", "document");
    assert VendorTree + "openxmlformats-officedocument." + "" == OfficeOpenXmlPrefix;
  }

  /** Every Office Open XML type contains "officedocument" and no "pdf", so
      the "document" test claims it before the spreadsheet and presentation
      tests are reached. */
  lemma OfficeTypeShowsMemo(suffix: string)
    requires NoPair(suffix, 'p', 'd')
    ensures FileIcon(OfficeOpenXmlPrefix + suffix) == Memo
  {
    var m := OfficeOpenXmlPrefix + suffix;
    OfficePrefixLacksPd();
    OfficePrefixHoldsDocument();
    VendorTypeStart("openxmlformats-officedocument." + suffix);
    assert m == VendorTree + ("openxmlformats-officedocument." + suffix);
    NotMediaPrefixed(m);
    AbsentFromConcat(OfficeOpenXmlPrefix, suffix, "pdf");
    ContainsWithin([], OfficeOpenXmlPrefix, suffix, "document");
    assert [] + OfficeOpenXmlPrefix + suffix == m;
    DocumentBeforeSheetsAndSlides(m);
  }

  /** What Google exports shows as: the three Office types all get the memo
      icon, so a spreadsheet no longer shows the bar chart and a
      presentation no longer the projector. */
  lemma ExportedDocumentIcon()
    ensures FileIcon(ExportedMimeType(GoogleDocument)) == Memo
  {
    NativeTypesExportToOffice();
    OfficeTypeShowsMemo("wordprocessingml.document");
  }

  lemma ExportedSpreadsheetIcon()
    ensures FileIcon(ExportedMimeType(GoogleSpreadsheet)) == Memo
  {
    NativeTypesExportToOffice();
    OfficeTypeShowsMemo("spreadsheetml.sheet");
  }

  lemma ExportedPresentationIcon()
    ensures FileIcon(ExportedMimeType(GooglePresentation)) == Memo
  {
    NativeTypesExportToOffice();
    OfficeTypeShowsMemo("presentationml.presentation");
  }

  /** Every other native type is exported as PDF, which shows the page. */
  lemma PdfExportIcon()
    ensures FileIcon(Pdf) == PageFacingUp
  {
    NotMediaPrefixed(Pdf);
    ContainsSuffix("application/", "pdf");
    assert "application/" + "pdf" == Pdf;
  }

  lemma FolderSplit()
    ensures FolderMimeType == GoogleAppsPrefix + "folder"
  {
  }

  /** The folder type holds none of the fragments `getFileIcon` tests. */
  lemma FolderLacksEarlyFragments()
    ensures !Contains(FolderMimeType, "pdf") && !Contains(FolderMimeType, "document")
    ensures !Contains(FolderMimeType, "word") && !Contains(FolderMimeType, "spreadsheet")
    ensures !Contains(FolderMimeType, "excel")
  {
    FolderSplit();
    NativePrefixLacksPd(); AbsentFromConcat(GoogleAppsPrefix, "folder", "pdf");
    NativePrefixLacksDo(); AbsentFromConcat(GoogleAppsPrefix, "folder", "document");
    NativePrefixLacksWo(); AbsentFromConcat(GoogleAppsPrefix, "folder", "word");
    NativePrefixLacksSp(); AbsentFromConcat(GoogleAppsPrefix, "folder", "spreadsheet");
    NativePrefixLacksEx(); AbsentFromConcat(GoogleAppsPrefix, "folder", "excel");
  }

  lemma FolderLacksLateFragments()
    ensures !Contains(FolderMimeType, "presentation") && !Contains(FolderMimeType, "powerpoint")
    ensures !Contains(FolderMimeType, "zip") && !Contains(FolderMimeType, "compressed")
  {
    FolderSplit();
    NativePrefixLacksPr(); AbsentFromConcat(GoogleAppsPrefix, "folder", "presentation");
    NativePrefixLacksPo(); AbsentFromConcat(GoogleAppsPrefix, "folder", "powerpoint");
    NativePrefixLacksZi(); AbsentFromConcat(GoogleAppsPrefix, "folder", "zip");
    NativePrefixLacksCo(); AbsentFromConcat(GoogleAppsPrefix, "folder", "compressed");
  }

  /** A Drive folder is a Google-native type outside the tables: it would be
      requested through the export endpoint as PDF. */
  lemma FolderExportsAsPdf()
    ensures IsFolder(FolderMimeType) && IsGoogleDocsFile(FolderMimeType)
    ensures ExportedMimeType(FolderMimeType) == Pdf
  {
    FolderSplit();
    TablesShareKeys();
  }

  /** A Drive folder passes no icon test and shows the default page. */
  lemma FolderIcon()
    ensures FileIcon(FolderMimeType) == PageFacingUp
  {
    FolderSplit();
    VendorTypeStart("google-apps.folder");
    NotMediaPrefixed(FolderMimeType);
    FolderLacksEarlyFragments();
    FolderLacksLateFragments();
  }
}
