/** The file browser: a fixed list of files and folders, filtered by a
    case-insensitive name search, each shown with an icon chosen by its
    extension. */
module FileManager {
  import opened Wrappers
  import opened Strings
  import opened Seqs

  datatype ItemType = FileEntry | FolderEntry

  datatype FileItem = FileItem(
    id: string,
    name: string,
    itemType: ItemType,
    size: Option<string>,
    modified: string,
    path: string)

  /** The two layouts of the listing. */
  datatype View = Grid | List

  /** The icon names the browser chooses between. */
  datatype Icon = Folder | FileText | Presentation | Sheet | Image | File

  /** The browser's fixed contents. */
  const MockFiles: seq<FileItem> := [
    FileItem("1", "Документы", FolderEntry, None, "2024-12-05", "/documents"),
    FileItem("2", "Проекты", FolderEntry, None, "2024-12-08", "/projects"),
    FileItem("3", "Отчет_Q4.pdf", FileEntry, Some("2.4 MB"), "2024-12-09", "/report.pdf"),
    FileItem("4", "Презентация.pptx", FileEntry, Some("5.1 MB"), "2024-12-07", "/presentation.pptx"),
    FileItem("5", "Таблица_данных.xlsx", FileEntry, Some("890 KB"), "2024-12-06", "/data.xlsx"),
    FileItem("6", "Архив", FolderEntry, None, "2024-11-28", "/archive")
  ]

  // ---------------------------------------------------------------------
  // Search
  // ---------------------------------------------------------------------

  /** The item's lower-cased name includes the lower-cased query. */
  predicate NameMatches(item: FileItem, query: string) {
    Contains(Lower(item.name), Lower(query))
  }

  /** The items the search keeps: exactly the matching ones, each as often
      as it is listed, in list order. */
  function FilteredFiles(files: seq<FileItem>, query: string): (r: seq<FileItem>)
    ensures forall x :: x in r <==> x in files && NameMatches(x, query)
    ensures forall x :: x in files && NameMatches(x, query) ==> multiset(r)[x] == multiset(files)[x]
    ensures IsSubsequence(r, files)
  {
    var keep := (item: FileItem) => NameMatches(item, query);
    FilterComplete(files, keep);
    FilterIsSubsequence(files, keep);
    Filter(files, keep)
  }

  /** An empty search keeps every item, in order. */
  lemma EmptyQueryKeepsAll(files: seq<FileItem>)
    ensures FilteredFiles(files, "") == files
  {
    forall x | x in files
      ensures NameMatches(x, "")
    {
      ContainsEmpty(Lower(x.name));
    }
    FilterKeepsAll(files, (item: FileItem) => NameMatches(item, ""));
  }

  /** What the browser shows for a query in a layout: the items, and
      whether the "nothing found" message appears. */
  datatype Listing = Listing(layout: View, shown: seq<FileItem>, nothingFound: bool)

  function Show(files: seq<FileItem>, query: string, view: View): (l: Listing)
    ensures l.layout == view
    ensures forall x :: x in l.shown <==> x in files && NameMatches(x, query)
    ensures forall x :: x in files && NameMatches(x, query) ==> multiset(l.shown)[x] == multiset(files)[x]
    ensures IsSubsequence(l.shown, files)
    ensures l.nothingFound <==> forall x :: x in files ==> !NameMatches(x, query)
  {
    var shown := FilteredFiles(files, query);
    assert |shown| > 0 ==> shown[0] in shown;
    Listing(view, shown, |shown| == 0)
  }

  /** Switching between grid and list changes only the layout. */
  lemma ViewDoesNotFilter(files: seq<FileItem>, query: string, v: View, w: View)
    ensures Show(files, query, v).shown == Show(files, query, w).shown
    ensures Show(files, query, v).nothingFound == Show(files, query, w).nothingFound
  {
  }

  // ---------------------------------------------------------------------
  // Icons
  // ---------------------------------------------------------------------

  /** `name.split('.').pop().toLowerCase()`: the lower-cased text after the
      last dot, or the whole lower-cased name when it has no dot. */
  function Extension(name: string): (ext: string)
    ensures '.' !in ext
    ensures |ext| <= |name| && ext == Lower(name[|name| - |ext|..])
    ensures |ext| < |name| ==> name[|name| - |ext| - 1] == '.'
    ensures '.' !in name ==> ext == Lower(name)
  {
    var seg := LastSegment(name, '.');
    assert forall i :: 0 <= i < |seg| ==> LowerChar(seg[i]) != '.' by {
      forall i | 0 <= i < |seg| ensures LowerChar(seg[i]) != '.' {
        LowerCharKeepsSeparator(seg[i], '.');
      }
    }
    Lower(seg)
  }

  /** The extension table; every extension not listed gets the generic
      file icon. */
  function IconForExtension(ext: string): Icon {
    if ext == "pdf" then FileText
    else if ext == "pptx" || ext == "ppt" then Presentation
    else if ext == "xlsx" || ext == "xls" then Sheet
    else if ext == "docx" || ext == "doc" then FileText
    else if ext == "jpg" || ext == "png" || ext == "jpeg" then Image
    else File
  }

  /** A folder always gets the folder icon, and a file never does. */
  function FileIcon(item: FileItem): (icon: Icon)
    ensures icon == Folder <==> item.itemType == FolderEntry
  {
    if item.itemType == FolderEntry then Folder
    else IconForExtension(Extension(item.name))
  }

  /** Which extensions give a file which icon; any other extension gives
      the generic file icon. */
  lemma FileIconTable(item: FileItem)
    requires item.itemType == FileEntry
    ensures var ext, icon := Extension(item.name), FileIcon(item);
      && (icon == FileText <==> ext == "pdf" || ext == "doc" || ext == "docx")
      && (icon == Presentation <==> ext == "ppt" || ext == "pptx")
      && (icon == Sheet <==> ext == "xls" || ext == "xlsx")
      && (icon == Image <==> ext == "jpg" || ext == "jpeg" || ext == "png")
  {
  }

  /** Only the case of a name's letters differs: same icon. */
  lemma IconIgnoresCase(a: FileItem, b: FileItem)
    requires a.itemType == b.itemType
    requires Lower(a.name) == Lower(b.name)
    ensures FileIcon(a) == FileIcon(b)
  {
    LastSegmentLower(a.name, '.');
    LastSegmentLower(b.name, '.');
  }

  /** A name ending in a dot has an empty extension and gets the generic
      icon. */
  lemma TrailingDotIsGenericFile(item: FileItem)
    requires item.itemType == FileEntry
    requires |item.name| > 0 && item.name[|item.name| - 1] == '.'
    ensures Extension(item.name) == ""
    ensures FileIcon(item) == File
  {

  }

  /** The extension of `stem.ext` is `ext` lower-cased when `ext` has no
      dot, whatever the stem. */
  lemma ExtensionOf(stem: string, ext: string)
    requires '.' !in ext
    ensures Extension(stem + "." + ext) == Lower(ext)
  {
    var name := stem + "." + ext;
    assert name[|name| - |ext|..] == ext;
    assert |ext| < |name| && name[|name| - |ext| - 1] == '.';
    LastSegmentUnique(name, '.', ext);
  }

  /** A file named `stem.ext`, with no dot in `ext`, gets the icon the
      table gives `ext` lower-cased. */
  lemma IconOfName(item: FileItem, stem: string, ext: string)
    requires item.itemType == FileEntry && item.name == stem + "." + ext
    requires '.' !in ext
    ensures FileIcon(item) == IconForExtension(Lower(ext))
  {
    ExtensionOf(stem, ext);
  }

  /** A worked example: "report.pdf" shows the document icon. */
  lemma ReportPdfIcon(item: FileItem)
    requires item.itemType == FileEntry && item.name == "report.pdf"
    ensures FileIcon(item) == FileText
  {
    assert Lower("pdf") == "pdf";
    IconOfName(item, "report", "pdf");
  }

  /** The icon choice ignores case: "REPORT.PDF" shows the same icon. */
  lemma UpperCaseReportPdfIcon(item: FileItem)
    requires item.itemType == FileEntry && item.name == "REPORT.PDF"
    ensures FileIcon(item) == FileText
  {
    assert Lower("PDF") == "pdf";
    IconOfName(item, "REPORT", "PDF");
  }

  /** The browser's own report, presentation and spreadsheet get the
      document, slides and table icons. */
  lemma MockReportIcon()
    ensures FileIcon(MockFiles[2]) == FileText
  {
    assert Lower("pdf") == "pdf";
    IconOfName(MockFiles[2], "Отчет_Q4", "pdf");
  }

  lemma MockPresentationIcon()
    ensures FileIcon(MockFiles[3]) == Presentation
  {
    assert Lower("pptx") == "pptx";
    IconOfName(MockFiles[3], "Презентация", "pptx");
  }

  lemma MockSpreadsheetIcon()
    ensures FileIcon(MockFiles[4]) == Sheet
  {
    assert Lower("xlsx") == "xlsx";
    IconOfName(MockFiles[4], "Таблица_данных", "xlsx");
  }
}
