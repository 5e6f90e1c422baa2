/** Mime-type classification of frontend/src/lib/utils.ts: `isFolder` and
    the ordered chain of tests in `getFileIcon`. */
module FileIcons {
  import opened Strings

  const FolderMimeType := "application/vnd.google-apps.folder"

  predicate IsFolder(mimeType: string) {
    mimeType == FolderMimeType
  }

  /** The icons, by their Unicode names. `PageFacingUp` serves both for PDF
      and as the default. */
  datatype Icon = FramedPicture | MovieCamera | MusicalNote | PageFacingUp
                | Memo | BarChart | FilmProjector | Package

  /** The emoji string `getFileIcon` returns for each icon. */
  function Glyph(icon: Icon): string {
    match icon
    case FramedPicture => "\U{1F5BC}\U{FE0F}"
    case MovieCamera => "\U{1F3A5}"
    case MusicalNote => "\U{1F3B5}"
    case PageFacingUp => "\U{1F4C4}"
    case Memo => "\U{1F4DD}"
    case BarChart => "\U{1F4CA}"
    case FilmProjector => "\U{1F4FD}\U{FE0F}"
    case Package => "\U{1F4E6}"
  }

  /** Different icons are different strings. */
  lemma GlyphInjective(a: Icon, b: Icon)
    requires Glyph(a) == Glyph(b)
    ensures a == b
  {
  }

  /** `getFileIcon`: the first test that holds decides. */
  function FileIcon(mimeType: string): Icon {
    if StartsWith(mimeType, "image/") then FramedPicture
    else if StartsWith(mimeType, "video/") then MovieCamera
    else if StartsWith(mimeType, "audio/") then MusicalNote
    else if Contains(mimeType, "pdf") then PageFacingUp
    else if Contains(mimeType, "document") || Contains(mimeType, "word") then Memo
    else if Contains(mimeType, "spreadsheet") || Contains(mimeType, "excel") then BarChart
    else if Contains(mimeType, "presentation") || Contains(mimeType, "powerpoint") then FilmProjector
    else if Contains(mimeType, "zip") || Contains(mimeType, "compressed") then Package
    else PageFacingUp
  }

  // ---- An independent, table-driven statement of the same classification ----

  datatype Test = HasPrefix(prefix: string) | Includes(fragment: string)

  /** A rule fires when any of its tests holds. */
  datatype Rule = Rule(tests: seq<Test>, icon: Icon)

  predicate Passes(test: Test, mimeType: string) {
    match test
    case HasPrefix(p) => StartsWith(mimeType, p)
    case Includes(f) => Contains(mimeType, f)
  }

  predicate Fires(rule: Rule, mimeType: string) {
    exists k | 0 <= k < |rule.tests| :: Passes(rule.tests[k], mimeType)
  }

  /** The rules in the order `getFileIcon` tries them. */
  const IconRules: seq<Rule> := [
    Rule([HasPrefix("image/")], FramedPicture),
    Rule([HasPrefix("video/")], MovieCamera),
    Rule([HasPrefix("audio/")], MusicalNote),
    Rule([Includes("pdf")], PageFacingUp),
    Rule([Includes("document"), Includes("word")], Memo),
    Rule([Includes("spreadsheet"), Includes("excel")], BarChart),
    Rule([Includes("presentation"), Includes("powerpoint")], FilmProjector),
    Rule([Includes("zip"), Includes("compressed")], Package)]

  const DefaultIcon := PageFacingUp

  /** The icon of the first rule that fires, or `default` when none does. */
  function FirstFiring(rules: seq<Rule>, mimeType: string, default: Icon): Icon {
    if rules == [] then default
    else if Fires(rules[0], mimeType) then rules[0].icon
    else FirstFiring(rules[1..], mimeType, default)
  }

  /** First match wins: the rule at index `k` decides when it fires and no
      earlier rule does. */
  lemma {:induction false} FirstFiringDecides(rules: seq<Rule>, mimeType: string, default: Icon, k: nat)
    requires k < |rules| && Fires(rules[k], mimeType)
    requires forall j :: 0 <= j < k ==> !Fires(rules[j], mimeType)
    ensures FirstFiring(rules, mimeType, default) == rules[k].icon
  {
    if k > 0 {
      assert !Fires(rules[0], mimeType);
      FirstFiringDecides(rules[1..], mimeType, default, k - 1);
    }
  }

  /** When no rule fires the default is returned. */
  lemma {:induction false} NoneFiresGivesDefault(rules: seq<Rule>, mimeType: string, default: Icon)
    requires forall j :: 0 <= j < |rules| ==> !Fires(rules[j], mimeType)
    ensures FirstFiring(rules, mimeType, default) == default
  {
    if rules != [] {
      assert !Fires(rules[0], mimeType);
      NoneFiresGivesDefault(rules[1..], mimeType, default);
    }
  }

  lemma FiresTwo(a: Test, b: Test, icon: Icon, mimeType: string)
    ensures Fires(Rule([a, b], icon), mimeType) <==> Passes(a, mimeType) || Passes(b, mimeType)
  {
    if Passes(a, mimeType) { assert Passes(Rule([a, b], icon).tests[0], mimeType); }
    if Passes(b, mimeType) { assert Passes(Rule([a, b], icon).tests[1], mimeType); }
  }

  lemma FiresOne(a: Test, icon: Icon, mimeType: string)
    ensures Fires(Rule([a], icon), mimeType) <==> Passes(a, mimeType)
  {
    if Passes(a, mimeType) { assert Passes(Rule([a], icon).tests[0], mimeType); }
  }

  /** The if-chain of `getFileIcon` is the first-match reading of the rule table. */
  lemma FileIconIsFirstFiringRule(mimeType: string)
    ensures FileIcon(mimeType) == FirstFiring(IconRules, mimeType, DefaultIcon)
  {
    var m := mimeType;
    FiresOne(HasPrefix("image/"), FramedPicture, m);
    FiresOne(HasPrefix("video/"), MovieCamera, m);
    FiresOne(HasPrefix("audio/"), MusicalNote, m);
    FiresOne(Includes("pdf"), PageFacingUp, m);
    FiresTwo(Includes("document"), Includes("word"), Memo, m);
    FiresTwo(Includes("spreadsheet"), Includes("excel"), BarChart, m);
    FiresTwo(Includes("presentation"), Includes("powerpoint"), FilmProjector, m);
    FiresTwo(Includes("zip"), Includes("compressed"), Package, m);
    var k := if StartsWith(m, "image/") then 0
      else if StartsWith(m, "video/") then 1
      else if StartsWith(m, "audio/") then 2
      else if Contains(m, "pdf") then 3
      else if Contains(m, "document") || Contains(m, "word") then 4
      else if Contains(m, "spreadsheet") || Contains(m, "excel") then 5
      else if Contains(m, "presentation") || Contains(m, "powerpoint") then 6
      else if Contains(m, "zip") || Contains(m, "compressed") then 7
      else 8;
    if k < |IconRules| {
      FirstFiringDecides(IconRules, m, DefaultIcon, k);
    } else {
      NoneFiresGivesDefault(IconRules, m, DefaultIcon);
    }
  }

  // ---- Consequences of the order ----

  /** The image, video and audio prefixes win over every substring test. */
  lemma MediaPrefixesWin(mimeType: string)
    ensures StartsWith(mimeType, "image/") ==> FileIcon(mimeType) == FramedPicture
    ensures StartsWith(mimeType, "video/") ==> FileIcon(mimeType) == MovieCamera
    ensures StartsWith(mimeType, "audio/") ==> FileIcon(mimeType) == MusicalNote
  {
  }

  predicate MediaPrefixed(mimeType: string) {
    StartsWith(mimeType, "image/") || StartsWith(mimeType, "video/") || StartsWith(mimeType, "audio/")
  }

  /** "pdf" is tested before "document": a type holding both shows the page. */
  lemma PdfBeforeDocument(mimeType: string)
    requires !MediaPrefixed(mimeType) && Contains(mimeType, "pdf")
    ensures FileIcon(mimeType) == PageFacingUp
  {
  }

  /** "document" is tested before "spreadsheet" and "presentation": a type
      holding it and no "pdf" shows the memo whatever else it holds. */
  lemma DocumentBeforeSheetsAndSlides(mimeType: string)
    requires !MediaPrefixed(mimeType) && !Contains(mimeType, "pdf") && Contains(mimeType, "document")
    ensures FileIcon(mimeType) == Memo
  {
  }

  /** A type that passes no test shows the default page. */
  lemma UnmatchedGivesDefault(mimeType: string)
    requires forall k | 0 <= k < |IconRules| :: !Fires(IconRules[k], mimeType)
    ensures FileIcon(mimeType) == DefaultIcon
  {
    FileIconIsFirstFiringRule(mimeType);
    NoneFiresGivesDefault(IconRules, mimeType, DefaultIcon);
  }
}
