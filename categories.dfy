/**
 * The category registry: a fixed table of nineteen categories in declaration
 * order, and the lookups over it by extension, by filename keyword and by key.
 * Every lookup scans the table in order and stops at the first hit.
 */
module Categories {
  import opened Wrappers
  import opened Text

  /** A category: display name, folder relative to the output root, description, and the extensions and filename keywords that select it. */
  datatype Category = Category(name: string, path: string, description: string, extensions: set<string>, keywords: set<string>)

  /** `Category(...)` followed by `__post_init__`: an extension or keyword set left out (None) becomes the empty set. */
  function MakeCategory(name: string, path: string, description: string,
                        extensions: Option<set<string>>, keywords: Option<set<string>>): (c: Category)
    ensures c.name == name && c.path == path && c.description == description
    ensures extensions.Some? ==> c.extensions == extensions.value
    ensures keywords.Some? ==> c.keywords == keywords.value
    ensures extensions.None? ==> c.extensions == {}
    ensures keywords.None? ==> c.keywords == {}
  {
    Category(name, path, description, extensions.GetOr({}), keywords.GetOr({}))
  }

  /** One `key: Category` item of the registry. */
  datatype Entry = Entry(key: string, category: Category)

  const Work: Category := Category("Work Documents", "Documents/Work", "Work-related documents, reports, presentations",
        {".doc", ".docx", ".odp", ".ods", ".odt", ".ppt", ".pptx", ".xls", ".xlsx"},
        {"agenda", "contract", "invoice", "meeting", "memo", "project", "proposal", "report"})
  const Personal: Category := Category("Personal Documents", "Documents/Personal", "Personal documents, letters, notes",
        {},
        {"diary", "journal", "letter", "list", "note", "personal", "todo"})
  const Financial: Category := Category("Financial Documents", "Documents/Financial", "Financial records, receipts, tax documents",
        {},
        {"bank", "budget", "expense", "invoice", "payment", "receipt", "salary", "statement", "tax"})
  const Legal: Category := Category("Legal Documents", "Documents/Legal", "Legal documents, contracts, agreements",
        {},
        {"agreement", "contract", "court", "law", "legal", "license", "nda", "policy", "terms"})
  const Ebooks: Category := Category("eBooks", "Documents/eBooks", "Electronic books and publications",
        {".azw", ".azw3", ".epub", ".mobi"},
        {"book", "ebook", "guide", "manual", "novel"})
  const Pdf: Category := Category("PDFs", "Documents/PDFs", "PDF documents",
        {".pdf"},
        {})
  const Python: Category := Category("Python Code", "Code/Python", "Python source files",
        {".pxd", ".py", ".pyi", ".pyw", ".pyx"},
        {})
  const JavaScript: Category := Category("JavaScript Code", "Code/JavaScript", "JavaScript and TypeScript files",
        {".cjs", ".js", ".jsx", ".mjs", ".ts", ".tsx"},
        {})
  const Web: Category := Category("Web Files", "Code/Web", "HTML, CSS, and web assets",
        {".css", ".htm", ".html", ".less", ".sass", ".scss", ".svg"},
        {})
  const CodeOther: Category := Category("Other Code", "Code/Other", "Other programming languages",
        {".bash", ".bat", ".c", ".cmd", ".cpp", ".cs", ".go", ".h", ".hpp", ".java", ".kt", ".m", ".mm", ".php", ".ps1", ".r", ".rb", ".rs", ".scala", ".sh", ".sql", ".swift", ".zsh"},
        {})
  const ConfigFiles: Category := Category("Config Files", "Code/Config", "Configuration and settings files",
        {".cfg", ".conf", ".env", ".ini", ".json", ".properties", ".toml", ".xml", ".yaml", ".yml"},
        {"config", "preferences", "settings"})
  const Photos: Category := Category("Photos", "Media/Photos", "Image files and photographs",
        {".arw", ".bmp", ".cr2", ".gif", ".heic", ".heif", ".jpeg", ".jpg", ".nef", ".png", ".raw", ".webp"},
        {"image", "img", "photo", "pic", "picture", "screenshot"})
  const Videos: Category := Category("Videos", "Media/Videos", "Video files",
        {".3gp", ".avi", ".flv", ".m4v", ".mkv", ".mov", ".mp4", ".mpeg", ".mpg", ".webm", ".wmv"},
        {"clip", "movie", "recording", "video"})
  const Music: Category := Category("Music", "Media/Music", "Audio and music files",
        {".aac", ".aiff", ".alac", ".flac", ".m4a", ".mp3", ".ogg", ".wav", ".wma"},
        {"audio", "music", "podcast", "song", "track"})
  const Graphics: Category := Category("Graphics", "Media/Graphics", "Design and graphics files",
        {".afdesign", ".afphoto", ".ai", ".eps", ".fig", ".indd", ".psd", ".sketch", ".xd"},
        {"banner", "design", "graphic", "icon", "logo"})
  const Archives: Category := Category("Archives", "Archives", "Compressed files and archives",
        {".7z", ".bz2", ".gz", ".rar", ".tar", ".tbz2", ".tgz", ".xz", ".zip"},
        {"archive", "backup"})
  const Data: Category := Category("Data Files", "Data", "Data files, spreadsheets, databases",
        {".accdb", ".csv", ".db", ".mdb", ".parquet", ".sqlite", ".tsv"},
        {"data", "dataset", "export", "import"})
  const Installers: Category := Category("Installers", "Applications/Installers", "Application installers and packages",
        {".appimage", ".deb", ".dmg", ".exe", ".msi", ".pkg", ".rpm", ".snap"},
        {"install", "installer", "setup"})
  const Misc: Category := Category("Miscellaneous", "Misc", "Uncategorized files",
        {},
        {})

  /** Entry `i` of `CATEGORIES`, in declaration order; every position from 18 on is the last entry, `misc`. */
  function EntryAt(i: int): Entry {
    match i
    case 0 => Entry("work", Work)
    case 1 => Entry("personal", Personal)
    case 2 => Entry("financial", Financial)
    case 3 => Entry("legal", Legal)
    case 4 => Entry("ebooks", Ebooks)
    case 5 => Entry("pdf", Pdf)
    case 6 => Entry("python", Python)
    case 7 => Entry("javascript", JavaScript)
    case 8 => Entry("web", Web)
    case 9 => Entry("code_other", CodeOther)
    case 10 => Entry("config", ConfigFiles)
    case 11 => Entry("photos", Photos)
    case 12 => Entry("videos", Videos)
    case 13 => Entry("music", Music)
    case 14 => Entry("graphics", Graphics)
    case 15 => Entry("archives", Archives)
    case 16 => Entry("data", Data)
    case 17 => Entry("installers", Installers)
    case _ => Entry("misc", Misc)
  }

  /** `CATEGORIES`: its nineteen entries, in declaration order. */
  function Table(): seq<Entry> {
    seq(19, EntryAt)
  }

  /** The key of the catch-all category. */
  const FallbackKey := "misc"

  // ---------------------------------------------------------------------------
  // Scanning the table in order

  predicate HasExtension(e: Entry, ext: string) {
    ext in e.category.extensions
  }

  /** Some keyword of the entry is a substring of `name`. */
  predicate HasKeywordIn(e: Entry, name: string) {
    exists k | k in e.category.keywords :: Contains(name, k)
  }

  /** The position of the first entry whose extension set holds `ext`. */
  function ExtensionIndex(entries: seq<Entry>, ext: string): (r: Option<nat>)
    ensures r.Some? ==> r.value < |entries| && HasExtension(entries[r.value], ext)
    ensures r.Some? ==> forall j :: 0 <= j < r.value ==> !HasExtension(entries[j], ext)
    ensures r.None? ==> forall j :: 0 <= j < |entries| ==> !HasExtension(entries[j], ext)
  {
    if entries == [] then None
    else if HasExtension(entries[0], ext) then Some(0)
    else
      match ExtensionIndex(entries[1..], ext)
      case None => None
      case Some(i) => Some(i + 1)
  }

  /** The position of the first entry with a keyword that occurs in `name`. */
  function KeywordIndex(entries: seq<Entry>, name: string): (r: Option<nat>)
    ensures r.Some? ==> r.value < |entries| && HasKeywordIn(entries[r.value], name)
    ensures r.Some? ==> forall j :: 0 <= j < r.value ==> !HasKeywordIn(entries[j], name)
    ensures r.None? ==> forall j :: 0 <= j < |entries| ==> !HasKeywordIn(entries[j], name)
  {
    if entries == [] then None
    else if HasKeywordIn(entries[0], name) then Some(0)
    else
      match KeywordIndex(entries[1..], name)
      case None => None
      case Some(i) => Some(i + 1)
  }

  /** The position of the entry stored under `key` (the dict lookup `key in CATEGORIES`). */
  function KeyIndex(entries: seq<Entry>, key: string): (r: Option<nat>)
    ensures r.Some? ==> r.value < |entries| && entries[r.value].key == key
    ensures r.None? ==> forall j :: 0 <= j < |entries| ==> entries[j].key != key
  {
    if entries == [] then None
    else if entries[0].key == key then Some(0)
    else
      match KeyIndex(entries[1..], key)
      case None => None
      case Some(i) => Some(i + 1)
  }

  // ---------------------------------------------------------------------------
  // The lookups

  /** The extension lookup over any table: the first category, in table order, whose extension set holds the lower-cased extension. */
  function LookupExtension(entries: seq<Entry>, extension: string): (r: Option<Category>)
    ensures r.None? <==> forall i :: 0 <= i < |entries| ==> !HasExtension(entries[i], Lower(extension))
    ensures r.Some? ==> exists i :: 0 <= i < |entries| && HasExtension(entries[i], Lower(extension))
                               && r.value == entries[i].category
                               && forall j :: 0 <= j < i ==> !HasExtension(entries[j], Lower(extension))
  {
    match ExtensionIndex(entries, Lower(extension))
    case None => None
    case Some(i) => Some(entries[i].category)
  }

  /** The keyword lookup over any table: the first category, in table order, one of whose keywords occurs in the lower-cased file name. */
  function LookupKeywords(entries: seq<Entry>, filename: string): (r: Option<Category>)
    ensures r.None? <==> forall i :: 0 <= i < |entries| ==> !HasKeywordIn(entries[i], Lower(filename))
    ensures r.Some? ==> exists i :: 0 <= i < |entries| && HasKeywordIn(entries[i], Lower(filename))
                               && r.value == entries[i].category
                               && forall j :: 0 <= j < i ==> !HasKeywordIn(entries[j], Lower(filename))
  {
    match KeywordIndex(entries, Lower(filename))
    case None => None
    case Some(i) => Some(entries[i].category)
  }

  /** `get_category_by_extension`: the extension lookup on `CATEGORIES`. */
  function GetCategoryByExtension(extension: string): (r: Option<Category>)
    ensures r.None? <==> forall i :: 0 <= i < |Table()| ==> !HasExtension(Table()[i], Lower(extension))
    ensures r.Some? ==> exists i :: 0 <= i < |Table()| && HasExtension(Table()[i], Lower(extension))
                               && r.value == Table()[i].category
                               && forall j :: 0 <= j < i ==> !HasExtension(Table()[j], Lower(extension))
  {
    LookupExtension(Table(), extension)
  }

  /** `get_category_by_keywords`: the keyword lookup on `CATEGORIES`. */
  function GetCategoryByKeywords(filename: string): (r: Option<Category>)
    ensures r.None? <==> forall i :: 0 <= i < |Table()| ==> !HasKeywordIn(Table()[i], Lower(filename))
    ensures r.Some? ==> exists i :: 0 <= i < |Table()| && HasKeywordIn(Table()[i], Lower(filename))
                               && r.value == Table()[i].category
                               && forall j :: 0 <= j < i ==> !HasKeywordIn(Table()[j], Lower(filename))
  {
    LookupKeywords(Table(), filename)
  }

  /** `get_category_by_name`: the category stored under the lower-cased key; None for an unknown key. */
  function GetCategoryByName(name: string): (r: Option<Category>)
    ensures r.None? <==> forall i :: 0 <= i < |Table()| ==> Table()[i].key != Lower(name)
    ensures r.Some? ==> exists i :: 0 <= i < |Table()| && Table()[i].key == Lower(name) && r.value == Table()[i].category
  {
    match KeyIndex(Table(), Lower(name))
    case None => None
    case Some(i) => Some(Table()[i].category)
  }

  /** `get_fallback_category`: `CATEGORIES["misc"]`, the last entry, which lists no extension and no keyword. */
  function GetFallbackCategory(): (c: Category)
    ensures Table()[|Table()| - 1] == Entry(FallbackKey, c)
    ensures c.extensions == {} && c.keywords == {}
  {
    Table()[|Table()| - 1].category
  }

  /** The categories of `entries`, in order. */
  function CategoriesOf(entries: seq<Entry>): (r: seq<Category>)
    ensures |r| == |entries|
    ensures forall i :: 0 <= i < |entries| ==> r[i] == entries[i].category
  {
    if entries == [] then [] else [entries[0].category] + CategoriesOf(entries[1..])
  }

  /** The keys of `entries`, in order. */
  function KeysOf(entries: seq<Entry>): (r: seq<string>)
    ensures |r| == |entries|
    ensures forall i :: 0 <= i < |entries| ==> r[i] == entries[i].key
  {
    if entries == [] then [] else [entries[0].key] + KeysOf(entries[1..])
  }

  /** `get_all_categories`: every category, in table order. */
  function GetAllCategories(): (r: seq<Category>)
    ensures |r| == |Table()|
    ensures forall i :: 0 <= i < |Table()| ==> r[i] == Table()[i].category
  {
    CategoriesOf(Table())
  }

  /** `CATEGORY_NAMES`: the keys, in table order. */
  function CategoryNames(): (r: seq<string>)
    ensures |r| == |Table()|
    ensures forall i :: 0 <= i < |Table()| ==> r[i] == Table()[i].key
  {
    KeysOf(Table())
  }

  /** One line of `CATEGORY_DESCRIPTIONS`. */
  function DescriptionLine(e: Entry): string {
    "- " + e.key + ": " + e.category.description + " (path: " + e.category.path + ")"
  }

  /** The description lines of `entries`, in order. */
  function DescriptionLines(entries: seq<Entry>): (r: seq<string>)
    ensures |r| == |entries|
    ensures forall i :: 0 <= i < |entries| ==> r[i] == DescriptionLine(entries[i])
  {
    if entries == [] then [] else [DescriptionLine(entries[0])] + DescriptionLines(entries[1..])
  }

  /** `CATEGORY_DESCRIPTIONS`: one line per entry, in table order, joined by newlines. */
  function CategoryDescriptions(): string {
    Join(DescriptionLines(Table()), '\n')
  }

  // ---------------------------------------------------------------------------
  // Properties of the table

  /** No two entries share a key, a folder or an extension. */
  lemma KeysDistinct(i: nat, j: nat)
    requires i < j < |Table()|
    ensures Table()[i].key != Table()[j].key
  {
  }

  /** Every key is a non-empty string. */
  lemma KeysNonEmpty(i: nat)
    requires i < |Table()|
    ensures Table()[i].key != ""
  {
  }

  lemma PathsDistinct(i: nat, j: nat)
    requires i < j < |Table()|
    ensures Table()[i].category.path != Table()[j].category.path
  {
  }

  /** No extension is listed by two categories. */
  lemma ExtensionsDisjoint(i: nat, j: nat)
    requires i < j < |Table()|
    ensures Table()[i].category.extensions !! Table()[j].category.extensions
  {
    if i == 0 {
      WorkExtensionsDisjoint(j);
    } else if i == 4 {
      EbooksExtensionsDisjoint(j);
    } else if i == 5 {
      PdfExtensionsDisjoint(j);
    } else if i == 6 {
      PythonExtensionsDisjoint(j);
    } else if i == 7 {
      JavaScriptExtensionsDisjoint(j);
    } else if i == 8 {
      WebExtensionsDisjoint(j);
    } else if i == 9 {
      CodeOtherExtensionsDisjoint(j);
    } else if i == 10 {
      ConfigFilesExtensionsDisjoint(j);
    } else if i == 11 {
      PhotosExtensionsDisjoint(j);
    } else if i == 12 {
      VideosExtensionsDisjoint(j);
    } else if i == 13 {
      MusicExtensionsDisjoint(j);
    } else if i == 14 {
      GraphicsExtensionsDisjoint(j);
    } else if i == 15 {
      ArchivesExtensionsDisjoint(j);
    } else if i == 16 {
      DataExtensionsDisjoint(j);
    } else if i == 17 {
      assert Table()[j].category.extensions == {};
    } else {
      assert Table()[i].category.extensions == {};
    }
  }

  lemma WorkExtensionsDisjoint(j: nat)
    requires 0 < j < |Table()|
    ensures Work.extensions !! Table()[j].category.extensions
  {
    if j == 4 {
      WorkEbooksDisjoint();
    } else if j == 5 {
      WorkPdfDisjoint();
    } else if j == 6 {
      WorkPythonDisjoint();
    } else if j == 7 {
      WorkJavaScriptDisjoint();
    } else if j == 8 {
      WorkWebDisjoint();
    } else if j == 9 {
      WorkCodeOtherDisjoint();
    } else if j == 10 {
      WorkConfigFilesDisjoint();
    } else if j == 11 {
      WorkPhotosDisjoint();
    } else if j == 12 {
      WorkVideosDisjoint();
    } else if j == 13 {
      WorkMusicDisjoint();
    } else if j == 14 {
      WorkGraphicsDisjoint();
    } else if j == 15 {
      WorkArchivesDisjoint();
    } else if j == 16 {
      WorkDataDisjoint();
    } else if j == 17 {
      WorkInstallersDisjoint();
    } else {
      assert Table()[j].category.extensions == {};
    }
  }

  lemma EbooksExtensionsDisjoint(j: nat)
    requires 4 < j < |Table()|
    ensures Ebooks.extensions !! Table()[j].category.extensions
  {
    if j == 5 {
      EbooksPdfDisjoint();
    } else if j == 6 {
      EbooksPythonDisjoint();
    } else if j == 7 {
      EbooksJavaScriptDisjoint();
    } else if j == 8 {
      EbooksWebDisjoint();
    } else if j == 9 {
      EbooksCodeOtherDisjoint();
    } else if j == 10 {
      EbooksConfigFilesDisjoint();
    } else if j == 11 {
      EbooksPhotosDisjoint();
    } else if j == 12 {
      EbooksVideosDisjoint();
    } else if j == 13 {
      EbooksMusicDisjoint();
    } else if j == 14 {
      EbooksGraphicsDisjoint();
    } else if j == 15 {
      EbooksArchivesDisjoint();
    } else if j == 16 {
      EbooksDataDisjoint();
    } else if j == 17 {
      EbooksInstallersDisjoint();
    } else {
      assert Table()[j].category.extensions == {};
    }
  }

  lemma PdfExtensionsDisjoint(j: nat)
    requires 5 < j < |Table()|
    ensures Pdf.extensions !! Table()[j].category.extensions
  {
    if j == 6 {
      PdfPythonDisjoint();
    } else if j == 7 {
      PdfJavaScriptDisjoint();
    } else if j == 8 {
      PdfWebDisjoint();
    } else if j == 9 {
      PdfCodeOtherDisjoint();
    } else if j == 10 {
      PdfConfigFilesDisjoint();
    } else if j == 11 {
      PdfPhotosDisjoint();
    } else if j == 12 {
      PdfVideosDisjoint();
    } else if j == 13 {
      PdfMusicDisjoint();
    } else if j == 14 {
      PdfGraphicsDisjoint();
    } else if j == 15 {
      PdfArchivesDisjoint();
    } else if j == 16 {
      PdfDataDisjoint();
    } else if j == 17 {
      PdfInstallersDisjoint();
    } else {
      assert Table()[j].category.extensions == {};
    }
  }

  lemma PythonExtensionsDisjoint(j: nat)
    requires 6 < j < |Table()|
    ensures Python.extensions !! Table()[j].category.extensions
  {
    if j == 7 {
      PythonJavaScriptDisjoint();
    } else if j == 8 {
      PythonWebDisjoint();
    } else if j == 9 {
      PythonCodeOtherDisjoint();
    } else if j == 10 {
      PythonConfigFilesDisjoint();
    } else if j == 11 {
      PythonPhotosDisjoint();
    } else if j == 12 {
      PythonVideosDisjoint();
    } else if j == 13 {
      PythonMusicDisjoint();
    } else if j == 14 {
      PythonGraphicsDisjoint();
    } else if j == 15 {
      PythonArchivesDisjoint();
    } else if j == 16 {
      PythonDataDisjoint();
    } else if j == 17 {
      PythonInstallersDisjoint();
    } else {
      assert Table()[j].category.extensions == {};
    }
  }

  lemma JavaScriptExtensionsDisjoint(j: nat)
    requires 7 < j < |Table()|
    ensures JavaScript.extensions !! Table()[j].category.extensions
  {
    if j == 8 {
      JavaScriptWebDisjoint();
    } else if j == 9 {
      JavaScriptCodeOtherDisjoint();
    } else if j == 10 {
      JavaScriptConfigFilesDisjoint();
    } else if j == 11 {
      JavaScriptPhotosDisjoint();
    } else if j == 12 {
      JavaScriptVideosDisjoint();
    } else if j == 13 {
      JavaScriptMusicDisjoint();
    } else if j == 14 {
      JavaScriptGraphicsDisjoint();
    } else if j == 15 {
      JavaScriptArchivesDisjoint();
    } else if j == 16 {
      JavaScriptDataDisjoint();
    } else if j == 17 {
      JavaScriptInstallersDisjoint();
    } else {
      assert Table()[j].category.extensions == {};
    }
  }

  lemma WebExtensionsDisjoint(j: nat)
    requires 8 < j < |Table()|
    ensures Web.extensions !! Table()[j].category.extensions
  {
    if j == 9 {
      WebCodeOtherDisjoint();
    } else if j == 10 {
      WebConfigFilesDisjoint();
    } else if j == 11 {
      WebPhotosDisjoint();
    } else if j == 12 {
      WebVideosDisjoint();
    } else if j == 13 {
      WebMusicDisjoint();
    } else if j == 14 {
      WebGraphicsDisjoint();
    } else if j == 15 {
      WebArchivesDisjoint();
    } else if j == 16 {
      WebDataDisjoint();
    } else if j == 17 {
      WebInstallersDisjoint();
    } else {
      assert Table()[j].category.extensions == {};
    }
  }

  lemma CodeOtherExtensionsDisjoint(j: nat)
    requires 9 < j < |Table()|
    ensures CodeOther.extensions !! Table()[j].category.extensions
  {
    if j == 10 {
      CodeOtherConfigFilesDisjoint();
    } else if j == 11 {
      CodeOtherPhotosDisjoint();
    } else if j == 12 {
      CodeOtherVideosDisjoint();
    } else if j == 13 {
      CodeOtherMusicDisjoint();
    } else if j == 14 {
      CodeOtherGraphicsDisjoint();
    } else if j == 15 {
      CodeOtherArchivesDisjoint();
    } else if j == 16 {
      CodeOtherDataDisjoint();
    } else if j == 17 {
      CodeOtherInstallersDisjoint();
    } else {
      assert Table()[j].category.extensions == {};
    }
  }

  lemma ConfigFilesExtensionsDisjoint(j: nat)
    requires 10 < j < |Table()|
    ensures ConfigFiles.extensions !! Table()[j].category.extensions
  {
    if j == 11 {
      ConfigFilesPhotosDisjoint();
    } else if j == 12 {
      ConfigFilesVideosDisjoint();
    } else if j == 13 {
      ConfigFilesMusicDisjoint();
    } else if j == 14 {
      ConfigFilesGraphicsDisjoint();
    } else if j == 15 {
      ConfigFilesArchivesDisjoint();
    } else if j == 16 {
      ConfigFilesDataDisjoint();
    } else if j == 17 {
      ConfigFilesInstallersDisjoint();
    } else {
      assert Table()[j].category.extensions == {};
    }
  }

  lemma PhotosExtensionsDisjoint(j: nat)
    requires 11 < j < |Table()|
    ensures Photos.extensions !! Table()[j].category.extensions
  {
    if j == 12 {
      PhotosVideosDisjoint();
    } else if j == 13 {
      PhotosMusicDisjoint();
    } else if j == 14 {
      PhotosGraphicsDisjoint();
    } else if j == 15 {
      PhotosArchivesDisjoint();
    } else if j == 16 {
      PhotosDataDisjoint();
    } else if j == 17 {
      PhotosInstallersDisjoint();
    } else {
      assert Table()[j].category.extensions == {};
    }
  }

  lemma VideosExtensionsDisjoint(j: nat)
    requires 12 < j < |Table()|
    ensures Videos.extensions !! Table()[j].category.extensions
  {
    if j == 13 {
      VideosMusicDisjoint();
    } else if j == 14 {
      VideosGraphicsDisjoint();
    } else if j == 15 {
      VideosArchivesDisjoint();
    } else if j == 16 {
      VideosDataDisjoint();
    } else if j == 17 {
      VideosInstallersDisjoint();
    } else {
      assert Table()[j].category.extensions == {};
    }
  }

  lemma MusicExtensionsDisjoint(j: nat)
    requires 13 < j < |Table()|
    ensures Music.extensions !! Table()[j].category.extensions
  {
    if j == 14 {
      MusicGraphicsDisjoint();
    } else if j == 15 {
      MusicArchivesDisjoint();
    } else if j == 16 {
      MusicDataDisjoint();
    } else if j == 17 {
      MusicInstallersDisjoint();
    } else {
      assert Table()[j].category.extensions == {};
    }
  }

  lemma GraphicsExtensionsDisjoint(j: nat)
    requires 14 < j < |Table()|
    ensures Graphics.extensions !! Table()[j].category.extensions
  {
    if j == 15 {
      GraphicsArchivesDisjoint();
    } else if j == 16 {
      GraphicsDataDisjoint();
    } else if j == 17 {
      GraphicsInstallersDisjoint();
    } else {
      assert Table()[j].category.extensions == {};
    }
  }

  lemma ArchivesExtensionsDisjoint(j: nat)
    requires 15 < j < |Table()|
    ensures Archives.extensions !! Table()[j].category.extensions
  {
    if j == 16 {
      ArchivesDataDisjoint();
    } else if j == 17 {
      ArchivesInstallersDisjoint();
    } else {
      assert Table()[j].category.extensions == {};
    }
  }

  lemma DataExtensionsDisjoint(j: nat)
    requires 16 < j < |Table()|
    ensures Data.extensions !! Table()[j].category.extensions
  {
    if j == 17 {
      DataInstallersDisjoint();
    } else {
      assert Table()[j].category.extensions == {};
    }
  }

  // One lemma per pair of categories that both list extensions.
  lemma WorkEbooksDisjoint() ensures Work.extensions !! Ebooks.extensions { }
  lemma WorkPdfDisjoint() ensures Work.extensions !! Pdf.extensions { }
  lemma WorkPythonDisjoint() ensures Work.extensions !! Python.extensions { }
  lemma WorkJavaScriptDisjoint() ensures Work.extensions !! JavaScript.extensions { }
  lemma WorkWebDisjoint() ensures Work.extensions !! Web.extensions { }
  lemma WorkCodeOtherDisjoint() ensures Work.extensions !! CodeOther.extensions { }
  lemma WorkConfigFilesDisjoint() ensures Work.extensions !! ConfigFiles.extensions { }
  lemma WorkPhotosDisjoint() ensures Work.extensions !! Photos.extensions { }
  lemma WorkVideosDisjoint() ensures Work.extensions !! Videos.extensions { }
  lemma WorkMusicDisjoint() ensures Work.extensions !! Music.extensions { }
  lemma WorkGraphicsDisjoint() ensures Work.extensions !! Graphics.extensions { }
  lemma WorkArchivesDisjoint() ensures Work.extensions !! Archives.extensions { }
  lemma WorkDataDisjoint() ensures Work.extensions !! Data.extensions { }
  lemma WorkInstallersDisjoint() ensures Work.extensions !! Installers.extensions { }
  lemma EbooksPdfDisjoint() ensures Ebooks.extensions !! Pdf.extensions { }
  lemma EbooksPythonDisjoint() ensures Ebooks.extensions !! Python.extensions { }
  lemma EbooksJavaScriptDisjoint() ensures Ebooks.extensions !! JavaScript.extensions { }
  lemma EbooksWebDisjoint() ensures Ebooks.extensions !! Web.extensions { }
  lemma EbooksCodeOtherDisjoint() ensures Ebooks.extensions !! CodeOther.extensions { }
  lemma EbooksConfigFilesDisjoint() ensures Ebooks.extensions !! ConfigFiles.extensions { }
  lemma EbooksPhotosDisjoint() ensures Ebooks.extensions !! Photos.extensions { }
  lemma EbooksVideosDisjoint() ensures Ebooks.extensions !! Videos.extensions { }
  lemma EbooksMusicDisjoint() ensures Ebooks.extensions !! Music.extensions { }
  lemma EbooksGraphicsDisjoint() ensures Ebooks.extensions !! Graphics.extensions { }
  lemma EbooksArchivesDisjoint() ensures Ebooks.extensions !! Archives.extensions { }
  lemma EbooksDataDisjoint() ensures Ebooks.extensions !! Data.extensions { }
  lemma EbooksInstallersDisjoint() ensures Ebooks.extensions !! Installers.extensions { }
  lemma PdfPythonDisjoint() ensures Pdf.extensions !! Python.extensions { }
  lemma PdfJavaScriptDisjoint() ensures Pdf.extensions !! JavaScript.extensions { }
  lemma PdfWebDisjoint() ensures Pdf.extensions !! Web.extensions { }
  lemma PdfCodeOtherDisjoint() ensures Pdf.extensions !! CodeOther.extensions { }
  lemma PdfConfigFilesDisjoint() ensures Pdf.extensions !! ConfigFiles.extensions { }
  lemma PdfPhotosDisjoint() ensures Pdf.extensions !! Photos.extensions { }
  lemma PdfVideosDisjoint() ensures Pdf.extensions !! Videos.extensions { }
  lemma PdfMusicDisjoint() ensures Pdf.extensions !! Music.extensions { }
  lemma PdfGraphicsDisjoint() ensures Pdf.extensions !! Graphics.extensions { }
  lemma PdfArchivesDisjoint() ensures Pdf.extensions !! Archives.extensions { }
  lemma PdfDataDisjoint() ensures Pdf.extensions !! Data.extensions { }
  lemma PdfInstallersDisjoint() ensures Pdf.extensions !! Installers.extensions { }
  lemma PythonJavaScriptDisjoint() ensures Python.extensions !! JavaScript.extensions { }
  lemma PythonWebDisjoint() ensures Python.extensions !! Web.extensions { }
  lemma PythonCodeOtherDisjoint() ensures Python.extensions !! CodeOther.extensions { }
  lemma PythonConfigFilesDisjoint() ensures Python.extensions !! ConfigFiles.extensions { }
  lemma PythonPhotosDisjoint() ensures Python.extensions !! Photos.extensions { }
  lemma PythonVideosDisjoint() ensures Python.extensions !! Videos.extensions { }
  lemma PythonMusicDisjoint() ensures Python.extensions !! Music.extensions { }
  lemma PythonGraphicsDisjoint() ensures Python.extensions !! Graphics.extensions { }
  lemma PythonArchivesDisjoint() ensures Python.extensions !! Archives.extensions { }
  lemma PythonDataDisjoint() ensures Python.extensions !! Data.extensions { }
  lemma PythonInstallersDisjoint() ensures Python.extensions !! Installers.extensions { }
  lemma JavaScriptWebDisjoint() ensures JavaScript.extensions !! Web.extensions { }
  lemma JavaScriptCodeOtherDisjoint() ensures JavaScript.extensions !! CodeOther.extensions { }
  lemma JavaScriptConfigFilesDisjoint() ensures JavaScript.extensions !! ConfigFiles.extensions { }
  lemma JavaScriptPhotosDisjoint() ensures JavaScript.extensions !! Photos.extensions { }
  lemma JavaScriptVideosDisjoint() ensures JavaScript.extensions !! Videos.extensions { }
  lemma JavaScriptMusicDisjoint() ensures JavaScript.extensions !! Music.extensions { }
  lemma JavaScriptGraphicsDisjoint() ensures JavaScript.extensions !! Graphics.extensions { }
  lemma JavaScriptArchivesDisjoint() ensures JavaScript.extensions !! Archives.extensions { }
  lemma JavaScriptDataDisjoint() ensures JavaScript.extensions !! Data.extensions { }
  lemma JavaScriptInstallersDisjoint() ensures JavaScript.extensions !! Installers.extensions { }
  lemma WebCodeOtherDisjoint() ensures Web.extensions !! CodeOther.extensions { }
  lemma WebConfigFilesDisjoint() ensures Web.extensions !! ConfigFiles.extensions { }
  lemma WebPhotosDisjoint() ensures Web.extensions !! Photos.extensions { }
  lemma WebVideosDisjoint() ensures Web.extensions !! Videos.extensions { }
  lemma WebMusicDisjoint() ensures Web.extensions !! Music.extensions { }
  lemma WebGraphicsDisjoint() ensures Web.extensions !! Graphics.extensions { }
  lemma WebArchivesDisjoint() ensures Web.extensions !! Archives.extensions { }
  lemma WebDataDisjoint() ensures Web.extensions !! Data.extensions { }
  lemma WebInstallersDisjoint() ensures Web.extensions !! Installers.extensions { }
  lemma CodeOtherConfigFilesDisjoint() ensures CodeOther.extensions !! ConfigFiles.extensions { }
  lemma CodeOtherPhotosDisjoint() ensures CodeOther.extensions !! Photos.extensions { }
  lemma CodeOtherVideosDisjoint() ensures CodeOther.extensions !! Videos.extensions { }
  lemma CodeOtherMusicDisjoint() ensures CodeOther.extensions !! Music.extensions { }
  lemma CodeOtherGraphicsDisjoint() ensures CodeOther.extensions !! Graphics.extensions { }
  lemma CodeOtherArchivesDisjoint() ensures CodeOther.extensions !! Archives.extensions { }
  lemma CodeOtherDataDisjoint() ensures CodeOther.extensions !! Data.extensions { }
  lemma CodeOtherInstallersDisjoint() ensures CodeOther.extensions !! Installers.extensions { }
  lemma ConfigFilesPhotosDisjoint() ensures ConfigFiles.extensions !! Photos.extensions { }
  lemma ConfigFilesVideosDisjoint() ensures ConfigFiles.extensions !! Videos.extensions { }
  lemma ConfigFilesMusicDisjoint() ensures ConfigFiles.extensions !! Music.extensions { }
  lemma ConfigFilesGraphicsDisjoint() ensures ConfigFiles.extensions !! Graphics.extensions { }
  lemma ConfigFilesArchivesDisjoint() ensures ConfigFiles.extensions !! Archives.extensions { }
  lemma ConfigFilesDataDisjoint() ensures ConfigFiles.extensions !! Data.extensions { }
  lemma ConfigFilesInstallersDisjoint() ensures ConfigFiles.extensions !! Installers.extensions { }
  lemma PhotosVideosDisjoint() ensures Photos.extensions !! Videos.extensions { }
  lemma PhotosMusicDisjoint() ensures Photos.extensions !! Music.extensions { }
  lemma PhotosGraphicsDisjoint() ensures Photos.extensions !! Graphics.extensions { }
  lemma PhotosArchivesDisjoint() ensures Photos.extensions !! Archives.extensions { }
  lemma PhotosDataDisjoint() ensures Photos.extensions !! Data.extensions { }
  lemma PhotosInstallersDisjoint() ensures Photos.extensions !! Installers.extensions { }
  lemma VideosMusicDisjoint() ensures Videos.extensions !! Music.extensions { }
  lemma VideosGraphicsDisjoint() ensures Videos.extensions !! Graphics.extensions { }
  lemma VideosArchivesDisjoint() ensures Videos.extensions !! Archives.extensions { }
  lemma VideosDataDisjoint() ensures Videos.extensions !! Data.extensions { }
  lemma VideosInstallersDisjoint() ensures Videos.extensions !! Installers.extensions { }
  lemma MusicGraphicsDisjoint() ensures Music.extensions !! Graphics.extensions { }
  lemma MusicArchivesDisjoint() ensures Music.extensions !! Archives.extensions { }
  lemma MusicDataDisjoint() ensures Music.extensions !! Data.extensions { }
  lemma MusicInstallersDisjoint() ensures Music.extensions !! Installers.extensions { }
  lemma GraphicsArchivesDisjoint() ensures Graphics.extensions !! Archives.extensions { }
  lemma GraphicsDataDisjoint() ensures Graphics.extensions !! Data.extensions { }
  lemma GraphicsInstallersDisjoint() ensures Graphics.extensions !! Installers.extensions { }
  lemma ArchivesDataDisjoint() ensures Archives.extensions !! Data.extensions { }
  lemma ArchivesInstallersDisjoint() ensures Archives.extensions !! Installers.extensions { }
  lemma DataInstallersDisjoint() ensures Data.extensions !! Installers.extensions { }

  /** Since no extension belongs to two categories, an extension lookup finds the one category that lists the extension: table order never decides it. */
  lemma ExtensionLookupUnique(extension: string, i: nat)
    requires i < |Table()| && HasExtension(Table()[i], Lower(extension))
    ensures GetCategoryByExtension(extension) == Some(Table()[i].category)
  {
    forall a: nat, b: nat | a < b < |Table()|
      ensures Table()[a].category.extensions !! Table()[b].category.extensions
    {
      ExtensionsDisjoint(a, b);
    }
    ExtensionIndexOfDisjoint(Table(), Lower(extension), i);
  }

  /** In a table whose extension sets are pairwise disjoint, the scan stops at the one entry that holds the extension. */
  lemma ExtensionIndexOfDisjoint(entries: seq<Entry>, ext: string, i: nat)
    requires i < |entries| && HasExtension(entries[i], ext)
    requires forall a: nat, b: nat | a < b < |entries| :: entries[a].category.extensions !! entries[b].category.extensions
    ensures ExtensionIndex(entries, ext) == Some(i)
  {
    var k := ExtensionIndex(entries, ext).value;
    assert ext in entries[k].category.extensions;
  }


  /** "invoice" is a keyword of both `work` and `financial`; the earlier entry, `work`, wins. */
  lemma InvoiceIsWork(filename: string)
    requires Contains(Lower(filename), "invoice")
    ensures "invoice" in Table()[0].category.keywords && "invoice" in Table()[2].category.keywords
    ensures GetCategoryByKeywords(filename) == Some(Table()[0].category) && Table()[0].key == "work"
  {
    assert HasKeywordIn(Table()[0], Lower(filename));
  }

  /** "contract" is a keyword of both `work` and `legal`; the earlier entry, `work`, wins. */
  lemma ContractIsWork(filename: string)
    requires Contains(Lower(filename), "contract")
    ensures "contract" in Table()[0].category.keywords && "contract" in Table()[3].category.keywords
    ensures GetCategoryByKeywords(filename) == Some(Table()[0].category) && Table()[0].key == "work"
  {
    assert HasKeywordIn(Table()[0], Lower(filename));
  }

  /** Neither lookup ever yields the fallback category: it is reached only through `get_fallback_category`. */
  lemma FallbackNeverLookedUp(extension: string, filename: string)
    ensures GetCategoryByExtension(extension) != Some(GetFallbackCategory())
    ensures GetCategoryByKeywords(filename) != Some(GetFallbackCategory())
  {
    var last := |Table()| - 1;
    match ExtensionIndex(Table(), Lower(extension))
    case None =>
    case Some(i) =>
      assert i != last;
      PathsDistinct(i, last);
    match KeywordIndex(Table(), Lower(filename))
    case None =>
    case Some(i) =>
      assert i != last;
      PathsDistinct(i, last);
  }

  /** The lookup by name finds every entry under its own key, in any letter case. */
  lemma NameLookupFindsKey(i: nat, name: string)
    requires i < |Table()| && Lower(name) == Table()[i].key
    ensures GetCategoryByName(name) == Some(Table()[i].category)
  {
    forall a: nat, b: nat | a < b < |Table()| ensures Table()[a].key != Table()[b].key {
      KeysDistinct(a, b);
    }
    KeyIndexOfDistinct(Table(), Lower(name), i);
  }

  /** The key scan finds every entry at its own position. */
  lemma KeyIndexOfKey(i: nat)
    requires i < |Table()|
    ensures KeyIndex(Table(), Table()[i].key) == Some(i)
  {
    forall a: nat, b: nat | a < b < |Table()| ensures Table()[a].key != Table()[b].key {
      KeysDistinct(a, b);
    }
    KeyIndexOfDistinct(Table(), Table()[i].key, i);
  }

  /** `CATEGORIES["misc"]` is the last entry. */
  lemma FallbackKeyIsLast()
    ensures KeyIndex(Table(), FallbackKey) == Some(|Table()| - 1)
  {
    assert Table()[18].key == FallbackKey;
    KeyIndexOfKey(18);
  }

  /** In a table without repeated keys, the scan stops at the one entry stored under the key. */
  lemma KeyIndexOfDistinct(entries: seq<Entry>, key: string, i: nat)
    requires i < |entries| && entries[i].key == key
    requires forall a: nat, b: nat | a < b < |entries| :: entries[a].key != entries[b].key
    ensures KeyIndex(entries, key) == Some(i)
  {
    var k := KeyIndex(entries, key).value;
    assert entries[k].key == key;
  }

}
