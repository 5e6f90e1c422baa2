# Data room client logic in Dafny

This project models the decision logic of the data room web client. The client is a
React front end in which workspace members import files from Google Drive, then
list, view, download and delete them. The model covers these parts:

- **Permissions** (`permissions.dfy`): the client-side checks for who may import,
  delete, view and download, and the member role lookup behind them. A workspace
  role is `admin`, `user` or `reader` (frontend/src/types/auth.ts:9-13). The
  role whose value is `"user"` is called `Editor` in the model, the label the
  member dialog shows for it
  (frontend/src/components/workspaces/ManageMembersDialog.tsx:106); `User`
  already names the user record.
- **Google Drive export** (`google_drive.dfy`): the two tables that map Google
  Docs, Sheets and Slides to Office Open XML mime types and extensions, and the
  test for Google-native types. It also covers the exported mime type, the
  exported file name (the final `.ext` is replaced), and which Drive endpoint a
  download requests.
- **File icons** (`file_icons.dfy`, `drive_icons.dfy`): `isFolder`, and the
  ordered chain of prefix and substring tests in `getFileIcon`. The chain is
  proved equal to a first-match reading of a rule table. `drive_icons.dfy` works
  out the icons of the Drive types that `google_drive.dfy` handles.
- **Query keys** (`query_keys.dfy`): the cache keys for file and workspace
  queries, with their prefix, injectivity and separation properties.
- **Auth store** (`auth_store.dfy`): a class holding `user`, `token` and
  `isAuthenticated`, with `setAuth` and `logout`.
- **Theme store** (`theme_store.dfy`): a class holding the theme, the root
  element's class set and localStorage. It has `applyTheme`, `setTheme` and the
  restore that runs at start-up.
- **File viewer** (`file_viewer.dfy`): a class holding the preview dialog's state.
  It covers loading, the error banner, the download guard, and PDF page
  navigation by buttons and arrow keys.

`strings.dfy` holds the string predicates `startsWith`, `endsWith` and `includes`
(as `StartsWith`, `EndsWith`, `Contains`). It also holds lemmas for showing that a
fragment does or does not occur in a concatenation. `wrappers.dfy` holds `Option`,
which stands for JavaScript's `null` and `undefined`.

`DataRoomFile` in the front-end types (frontend/src/types/file.ts:1-11) has no
`uploadedBy` field, yet `canDeleteFile` reads one. The model gives the file an
`uploadedBy: int`, as the back-end file schema defines it
(backend/src/schemas/file.py:21).

## Model

| member | source | states |
|---|---|---|
| Permissions.FirstMemberIndex | frontend/src/lib/permissions.ts:12 | `members.find` by id: the result is the first index whose member has the id; it is `None` exactly when no member has the id |
| Permissions.NullDeniesEverything | frontend/src/lib/permissions.ts:5-70 | with a null user or a null workspace, every `can*` check is false and `getUserRole` is null |
| Permissions.NonMemberDeniedEverything | frontend/src/lib/permissions.ts:5-70 | a user whose id matches no member is denied every check and has no role |
| Permissions.ImportAllowedIffAdminOrEditor | frontend/src/lib/permissions.ts:5-17 | `canImportFiles` holds iff the member's role is admin or user; a reader never imports |
| Permissions.DeleteAllowedByRole | frontend/src/lib/permissions.ts:19-40 | an admin may delete any file; a user-role member may delete exactly the files with `uploadedBy` equal to their id; readers and non-members may delete none |
| Permissions.HasMemberIffFound | frontend/src/lib/permissions.ts:42-50 | `members.some` holds iff `members.find` finds a member |
| Permissions.ViewAndDownloadAreMembership | frontend/src/lib/permissions.ts:42-60 | `canViewFile` and `canDownloadFile` agree on every input, and hold iff the user has a role in the workspace |
| Permissions.ViewIgnoresRoles | frontend/src/lib/permissions.ts:42-60 | changing members' roles while keeping their ids does not change who may view or download |
| Permissions.ImportOrDeleteImpliesView | frontend/src/lib/permissions.ts:5-50 | whoever may import or delete may also view |
| Permissions.FirstMatchDecides | frontend/src/lib/permissions.ts:5-40 | the first member with the user's id supplies the role, and that role alone decides import and delete |
| Permissions.FirstMemberIndexAppend | frontend/src/lib/permissions.ts:12 | once a member is found, appending members does not change which one `find` returns |
| Permissions.LaterMembersIrrelevant | frontend/src/lib/permissions.ts:5-70 | members listed after the user's own entry change no decision |
| Permissions.GlobalRoleIgnored | frontend/src/lib/permissions.ts:5-70 | the signed-in user's own `role` field never affects any check |
| GoogleDrive.TablesShareKeys | frontend/src/lib/googleDrive.ts:4-18 | the mime-type table and the extension table have the same three keys, and all three are Google-native types |
| GoogleDrive.NativeTypesExportToOffice | frontend/src/lib/googleDrive.ts:4-18 | Docs, Sheets and Slides export to the wordprocessingml, spreadsheetml and presentationml types, with `.docx`, `.xlsx` and `.pptx` |
| GoogleDrive.OtherTypesExport | frontend/src/lib/googleDrive.ts:56-61 | any other native type exports as `application/pdf` with `.pdf`; a non-Google type is returned unchanged |
| GoogleDrive.ExportTargetsNotNative | frontend/src/lib/googleDrive.ts:4-11 | none of the export targets, `application/pdf` included, starts with the Google-native prefix |
| GoogleDrive.ExportedMimeTypeIsFinal | frontend/src/lib/googleDrive.ts:52-61 | an exported type is not native, so exporting twice gives the same type as exporting once |
| GoogleDrive.ExtensionAtUnique | frontend/src/lib/googleDrive.ts:70 | the pattern `/\.[^/.]+$/` can match at no more than one position |
| GoogleDrive.ExtensionScan | frontend/src/lib/googleDrive.ts:70 | the backward scan returns a position where the pattern matches, or `None` when it matches nowhere |
| GoogleDrive.ExtensionIndex | frontend/src/lib/googleDrive.ts:70 | the match position of the pattern in the whole name, or `None` when it has no match |
| GoogleDrive.StripExtension | frontend/src/lib/googleDrive.ts:70 | `replace` cuts the name at the match position, and keeps the whole name when the pattern does not match |
| GoogleDrive.ExportedExtensionWellFormed | frontend/src/lib/googleDrive.ts:14-18 | every extension used is a `.` followed by at least one character that is neither `.` nor `/` |
| GoogleDrive.StripAppendedExtension | frontend/src/lib/googleDrive.ts:70 | stripping undoes appending a well-formed extension |
| GoogleDrive.NonGoogleNameUnchanged | frontend/src/lib/googleDrive.ts:63-74 | a file whose type is not Google-native keeps its name |
| GoogleDrive.GoogleNameRewritten | frontend/src/lib/googleDrive.ts:63-74 | for a native type the name loses its final extension (or is kept whole when there is none), gets the mapped extension, and so always ends with it |
| GoogleDrive.ExportedFilenameIdempotent | frontend/src/lib/googleDrive.ts:63-74 | renaming an exported name again changes nothing |
| GoogleDrive.ExportedFilenameStripsFinalExtension | frontend/src/lib/googleDrive.ts:63-74 | examples: `Report.gdoc` becomes `Report.docx`, `archive.tar.gz` becomes `archive.tar.xlsx`, `.profile` becomes `.docx` |
| GoogleDrive.ExportedFilenameKeepsUnmatchedNames | frontend/src/lib/googleDrive.ts:63-74 | examples: `Budget` becomes `Budget.xlsx`, `notes.` becomes `notes..pptx`, `v1.0/plan` becomes `v1.0/plan.docx` |
| GoogleDrive.ExportedFilenameOtherTypes | frontend/src/lib/googleDrive.ts:63-74 | examples: a Drawing named `Drawing.svg` becomes `Drawing.pdf`; a JPEG keeps its name |
| GoogleDrive.DownloadRequestAgreesWithExport | frontend/src/lib/googleDrive.ts:20-37 | a download uses the export endpoint exactly for native types, with the mime type `getExportedMimeType` gives, and the media endpoint otherwise, always for the file's own id |
| FileIcons.GlyphInjective | frontend/src/lib/utils.ts:39-51 | different icons are different emoji strings |
| FileIcons.FirstFiringDecides | frontend/src/lib/utils.ts:39-51 | in the rule table, the first rule with a passing test decides the icon |
| FileIcons.NoneFiresGivesDefault | frontend/src/lib/utils.ts:50 | when no rule fires the default icon is returned |
| FileIcons.FileIconIsFirstFiringRule | frontend/src/lib/utils.ts:39-51 | `getFileIcon`'s if-chain equals the first-match reading of the eight rules in order: image, video, audio, pdf, document/word, spreadsheet/excel, presentation/powerpoint, zip/compressed |
| FileIcons.MediaPrefixesWin | frontend/src/lib/utils.ts:40-42 | the `image/`, `video/` and `audio/` prefixes decide before any substring test |
| FileIcons.PdfBeforeDocument | frontend/src/lib/utils.ts:43-44 | a non-media type containing `pdf` shows the page icon even if it contains `document` |
| FileIcons.DocumentBeforeSheetsAndSlides | frontend/src/lib/utils.ts:44-48 | a non-media type containing `document` and not `pdf` shows the memo, whatever else it contains |
| FileIcons.UnmatchedGivesDefault | frontend/src/lib/utils.ts:50 | a type that passes no test shows the default page icon |
| DriveIcons.GoogleDocumentIcon | frontend/src/lib/utils.ts:39-51 | the Google Docs type shows the memo |
| DriveIcons.GoogleSpreadsheetIcon | frontend/src/lib/utils.ts:39-51 | the Google Sheets type shows the bar chart |
| DriveIcons.GooglePresentationIcon | frontend/src/lib/utils.ts:39-51 | the Google Slides type shows the film projector |
| DriveIcons.OfficeTypeShowsMemo | frontend/src/lib/utils.ts:44-48 | every Office Open XML type without `pd` in its suffix shows the memo, because `officedocument` meets the `document` test first |
| DriveIcons.ExportedDocumentIcon | frontend/src/lib/utils.ts:44 | the type a Google Doc is exported to shows the memo |
| DriveIcons.ExportedSpreadsheetIcon | frontend/src/lib/utils.ts:44-46 | the type a Google Sheet is exported to shows the memo, not the bar chart |
| DriveIcons.ExportedPresentationIcon | frontend/src/lib/utils.ts:44-48 | the type a Google Slides deck is exported to shows the memo, not the projector |
| DriveIcons.PdfExportIcon | frontend/src/lib/utils.ts:43 | `application/pdf`, the export target of other native types, shows the page icon |
| DriveIcons.FolderExportsAsPdf | frontend/src/lib/utils.ts:35-37 | the folder type passes `isFolder` and is a native type outside the tables, so it would export as PDF |
| DriveIcons.FolderIcon | frontend/src/lib/utils.ts:39-51 | the folder type passes no icon test and shows the default page icon |
| QueryKeys.DetailExtendsAll | frontend/src/lib/queryKeys.ts:2-9 | `files.detail(w, id)` is `files.all(w)` with `id` appended; `workspaces.detail(id)` is `workspaces.all` with `id` appended |
| QueryKeys.KeysInjective | frontend/src/lib/queryKeys.ts:2-9 | equal `files.all` keys have equal workspace ids; equal detail keys have equal ids |
| QueryKeys.FilesAllCoversOwnDetails | frontend/src/lib/queryKeys.ts:3-4 | `files.all(w)` is a prefix of `files.detail(w', id)` iff `w == w'` |
| QueryKeys.WorkspacesAllCoversDetails | frontend/src/lib/queryKeys.ts:7-8 | `workspaces.all` is a prefix of every workspace detail key |
| QueryKeys.FileAndWorkspaceKeysDisjoint | frontend/src/lib/queryKeys.ts:2-9 | no file key equals a workspace key or is a prefix of one, and no workspace key is a prefix of a file key |
| Auth.AuthStore.constructor | frontend/src/store/authStore.ts:18-20 | the store starts with no user, no token and not authenticated |
| Auth.AuthStore.SetAuth | frontend/src/store/authStore.ts:21 | stores the user and token and sets authenticated, overwriting earlier values |
| Auth.AuthStore.Logout | frontend/src/store/authStore.ts:22-31 | clears user and token and authentication whatever the backend answers; a rejection is logged, not rethrown |
| Auth.LoginLogoutRoundTrip | frontend/src/store/authStore.ts:18-31 | a login followed by a logout leaves the initial state |
| Themes.ModeClass | frontend/src/store/themeStore.ts:13-20 | the added class is `dark` or `light`: the theme itself for light and dark, and for system `dark` exactly when the dark scheme is preferred |
| Themes.ThemedClassesExactlyOneMode | frontend/src/store/themeStore.ts:9-22 | after applying a theme exactly one of `dark` and `light` is present, every other class is unchanged, and `system` is never added |
| Themes.ThemedClassesIdempotent | frontend/src/store/themeStore.ts:9-22 | applying the same theme twice gives the same classes as applying it once |
| Themes.RestoreRoundTrip | frontend/src/store/themeStore.ts:36-41 | what `setTheme` writes under `theme-storage` is what start-up reads back |
| Themes.RestoreFallsBackToSystem | frontend/src/store/themeStore.ts:36-41 | a missing key, a missing `state` or a missing `state.theme` restores the system theme |
| Themes.ThemeStore.constructor | frontend/src/store/themeStore.ts:24-25 | the store starts at the system theme and touches neither the page nor storage |
| Themes.ThemeStore.ApplyTheme | frontend/src/store/themeStore.ts:9-22 | the new class set is the old one with both mode classes removed and the selected one added |
| Themes.ThemeStore.SetTheme | frontend/src/store/themeStore.ts:26-33 | records the theme, applies it, and writes `{state: {theme}}` under `theme-storage`, leaving other keys alone |
| Themes.ThemeStore.Restore | frontend/src/store/themeStore.ts:36-41 | sets the restored theme, applies it and writes it back |
| Themes.ChoiceSurvivesReload | frontend/src/store/themeStore.ts:26-41 | a theme set in one page load is restored by the next, which starts from the page's own markup and may see another colour-scheme preference; the root then has exactly one mode class and keeps every other class of the markup |
| Viewer.FileViewer.constructor | frontend/src/components/files/FileViewer.tsx:39-45 | the viewer starts on page 1 of 0 pages, loading, with no error and no object URL |
| Viewer.FileViewer.ClickPrevious | frontend/src/components/files/FileViewer.tsx:232-244 | with the page bar shown and the page above 1, steps back one page; otherwise nothing changes; the page stays at 1 or above and stays in range |
| Viewer.FileViewer.ClickNext | frontend/src/components/files/FileViewer.tsx:248-258 | with the page bar shown and the page below the count, steps forward one page; otherwise nothing changes; a page in range stays in range |
| Viewer.FileViewer.KeyDown | frontend/src/components/files/FileViewer.tsx:87-100 | only for a PDF of more than one page: ArrowLeft goes back while the page is above 1, ArrowRight goes forward while it is below the count, any other key does nothing |
| Viewer.FileViewer.BeginFetch | frontend/src/components/files/FileViewer.tsx:50-51 | loading is set and the error is cleared |
| Viewer.FileViewer.FinishFetch | frontend/src/components/files/FileViewer.tsx:53-66 | a download stores its object URL; a throw sets the error to the `Error`'s message or the fixed fallback; loading ends either way |
| Viewer.FileViewer.FetchFile | frontend/src/components/files/FileViewer.tsx:49-67 | after a fetch loading is over; a successful download with a non-empty URL shows the content; a failure with a non-empty message does not |
| Viewer.FileViewer.HandleRetry | frontend/src/components/files/FileViewer.tsx:121-124 | the error is cleared and the file is fetched again, with the fetch's outcome |
| Viewer.FileViewer.HandleDownload | frontend/src/components/files/FileViewer.tsx:102-119 | without an object URL nothing happens; otherwise a link is clicked, a failing click shows the download error, and downloading ends |
| Viewer.FileViewer.OnDocumentLoadSuccess | frontend/src/components/files/FileViewer.tsx:126-129 | takes the page count and ends page rendering; the page number is left alone |
| Viewer.FileViewer.OnPageLoadSuccess | frontend/src/components/files/FileViewer.tsx:131-133 | page rendering ends |
| Viewer.FileViewer.OnPageRenderStart | frontend/src/components/files/FileViewer.tsx:135-137 | page rendering starts |
| Viewer.RenderAsWiredKeepsSpinner | frontend/src/components/files/FileViewer.tsx:202-226 | with `onRenderSuccess` wired to `onPageRenderStart`, a PDF page that has loaded and rendered still has the spinner over it |
| Viewer.FileViewer.OnPageRenderSuccess | frontend/src/components/files/FileViewer.tsx:131-133 | the intended `onRenderSuccess` handler: rendering is over and no spinner is shown |
| Viewer.RenderAsIntendedClearsSpinner | frontend/src/components/files/FileViewer.tsx:202-226 | with the intended handler, the same run ends with no spinner |
| Viewer.LoadDoesNotClampPage | frontend/src/components/files/FileViewer.tsx:126-129 | after navigating to page 5 of 5, a load that reports 2 pages leaves the viewer on page 5 of 2 |

## Left out

- The network side of `downloadGoogleDriveFile` is not modelled: the fetch with a bearer token, the error on a non-OK response, and the blob. Only the choice of endpoint and export mime type is modelled, as `GoogleDrive.DownloadRequest`. The URL string, with `encodeURIComponent` of the export type, is not built.
- GoogleDrive.DownloadRequest: states the endpoint and the export type, not the literal URL text.
- `fileService.download` is not modelled. Nor are `URL.createObjectURL` and `revokeObjectURL`, or the DOM link used for downloading. The viewer takes the outcome of the download, and whether the click throws, as parameters.
- Viewer.FileViewer.HandleDownload: modelled as one step. `handleDownload` has no `await`, so its body runs to completion at once and React batches the two `setIsDownloading` calls into one render: no handler runs in between and "Downloading..." is never drawn. The one-step model loses nothing of this.
- `getFileType` is not part of this model. It is imported by the viewer but not defined in the shown `utils.ts`. Its four flags are a `FileKind` value given to the constructor.
- JavaScript numbers are modelled as unbounded integers. Page numbers and ids never come near the limits of a double.
- Themes.RestoredTheme: `JSON.parse` of a corrupt record, which would throw, is not modelled. Nor is a stored string that is not one of the three themes. The stored record is a structured value in which either level may be missing.
- The `prefers-color-scheme: dark` media query is a boolean parameter. `window.document` and `localStorage` are fields of the `ThemeStore` class.
- The `persist` middleware of the auth store is not modelled, and neither is the `auth-storage` record it writes. The backend `logout` call is the `BackendLogout` parameter. `console.error` output is the `logged` result.
- The rest of `utils.ts` is not modelled. `formatBytes` uses floating point, `formatDate` uses `Intl`, and `cn` wraps class-name libraries.
- The import dialog's `handleImport` is not modelled: it only logs. The Drive file browser is a placeholder with no listing or search logic.
- The services, the HTTP client, the demo-mode request interceptor, the react-query hooks, `workspaceStore` and the presentation-only components are not modelled. They hold no decision logic beyond what is modelled here. `useFiles.ts:9` passes `QUERY_KEYS.files.all` without calling it; only the key builders themselves are modelled.
- The back end (routes, models, schemas, JWT, database) is not part of this model. Only the `uploadedBy` field is taken from its file schema.
- Viewer.FileViewer.FetchFile: a thrown `Error` whose message is empty leaves `error` empty. The content may then be shown with the previous object URL. The contract states this case exactly as the code behaves, and claims no banner for it.
- Viewer.FileViewer.OnDocumentLoadSuccess: does not keep `1 <= pageNumber <= numPages`, because the code does not clamp the page when a document reports fewer pages. `Viewer.LoadDoesNotClampPage` shows such a case. Navigation keeps the bound once it holds.

## Findings

| source | as written | input that shows it | evidently intended | confidence | as-written member | corrected member |
|---|---|---|---|---|---|---|
| frontend/src/components/files/FileViewer.tsx:226 | the page's `onRenderSuccess` calls `onPageRenderStart`, which sets `isPageRendering`, so the spinner overlay of lines 202-206 stays over a page that has finished rendering | open a PDF: the document loads, the page loads (flag cleared), the page renders (flag set again) | a finished render clears the flag, so the overlay is shown only while a page is being drawn | medium, not executed | Viewer.RenderAsWiredKeepsSpinner | Viewer.FileViewer.OnPageRenderSuccess, Viewer.RenderAsIntendedClearsSpinner |
