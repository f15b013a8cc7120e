/** The oldest revision, the single script exhibiter.py: every folder of
    the input whose name holds a number is an exhibit, each of its PDF and
    image files and folders is a document named by the shared legacy rules
    plus " (n)" when it has more than one page, the pages go to one output
    PDF, and each exhibit adds a row "number, X, blank, description,
    disputes" to the exhibit list, followed by a row reserved for rebuttal. */
module ExhibiterScript {
  import opened Outcomes
  import opened Text
  import opened Files
  import opened Naming

  /** What the modelled code consults: `includeAll` (--all, or the answer
      to the discovery question), --keep-digits, --nopdf, `makeList`
      (--nolist, or no Pandoc) and --norebuttal. */
  datatype Options = Options(includeAll: bool, keepDigits: bool, noPdf: bool, makeList: bool, noRebuttal: bool)

  // ---------------------------------------------------------------------
  // The filters of the main loop
  // ---------------------------------------------------------------------

  /** `search(omitPattern, name) and not includeAll`. */
  predicate Omitted(name: string, opts: Options)
  {
    HasOmitTag(name) && !opts.includeAll
  }

  /** `search("\d+( \(.+\))?", name)`: the group is optional, so one digit
      anywhere in the name is enough. */
  predicate HasDigit(name: string)
  {
    exists k | 0 <= k < |name| :: IsDigit(name[k])
  }

  /** The test an entry of the input folder must pass to be an exhibit. */
  predicate IsExhibitFolder(e: Entry, opts: Options)
  {
    e.Folder? && HasDigit(e.name) && !Omitted(e.name, opts)
  }

  /** `search(".pdf$|.png$|.jpg$|.jpeg$", name)`: lower case only, and the
      character before the suffix need not be a dot. */
  predicate HasListedEnding(name: string)
  {
    AnyThenAtEnd(name, "pdf") || AnyThenAtEnd(name, "png") || AnyThenAtEnd(name, "jpg") || AnyThenAtEnd(name, "jpeg")
  }

  /** The test an entry of an exhibit folder must pass to be a document:
      not omitted, and a folder or a file with a listed ending. */
  predicate IsDocumentEntry(e: Entry, opts: Options)
  {
    !Omitted(e.name, opts) && (e.Folder? || HasListedEnding(e.name))
  }

  function ExhibitTest(opts: Options): Entry -> bool { (e: Entry) => IsExhibitFolder(e, opts) }

  function DocumentTest(opts: Options): Entry -> bool { (e: Entry) => IsDocumentEntry(e, opts) }

  /** Every listed ending is a lower-case 'f' or 'g', so a file whose name
      ends in anything else (other than a newline) is never a document:
      "Scan.PDF" and "notes.txt" are passed over. */
  lemma {:induction false} HasListedEndingNeedsEnding(s: string)
    requires s != [] && s[|s| - 1] !in {'f', 'g', '\n'}
    ensures !HasListedEnding(s)
    ensures forall c: Content, opts: Options :: !IsDocumentEntry(File(s, c), opts)
  {
    forall lit | lit in ["pdf", "png", "jpg", "jpeg"] ensures !AnyThenEndsAt(s, lit, |s|) {
      if AnyThenEndsAt(s, lit, |s|) {
        EndsAsLiteral(s, lit);
      }
    }
  }

  /** A folder whose name starts with a word and holds a digit later on
      passes the exhibit test, yet `int()` refuses its first word; when the
      word holds no dot, the stem the main loop reads still starts with it. */
  lemma {:induction false} WordBeforeNumber(word: string, rest: string, children: seq<Entry>, opts: Options)
    requires word != [] && NoChar(word, ' ') && !IsDigit(word[0]) && word[0] !in {'+', '-'}
    requires HasDigit(rest) && !HasOmitTag(word + " " + rest)
    ensures IsExhibitFolder(Folder(word + " " + rest, children, None), opts)
    ensures HeadingOf(word + " " + rest) == Err(ValueError(word))
    ensures NoChar(word, '.') ==> HeadingOf(Stem(word + " " + rest)) == Err(ValueError(word))
  {
    var s := word + " " + rest;
    var k :| 0 <= k < |rest| && IsDigit(rest[k]);
    assert s[|word| + 1 + k] == rest[k];
    SplitOnceAt(word, " ", rest);
    var st := Stem(s);
    if NoChar(word, '.') && st != s {
      StemThenSuffix(s);
      assert s[|st|] == Suffix(s)[0] == '.';
      assert |st| > |word|;
      var cut := rest[..|st| - |word| - 1];
      assert st == word + " " + cut;
      SplitOnceAt(word, " ", cut);
    }
  }

  // ---------------------------------------------------------------------
  // Documents
  // ---------------------------------------------------------------------

  /** The entries `Document.__init__` hands to `add_file`: every entry of a
      folder, in sorted order, or the file itself. */
  function FilesOf(doc: Entry): (r: seq<Entry>)
    ensures doc.File? ==> r == [doc]
  {
    if doc.Folder? then doc.children else [doc]
  }

  /** `add_file` passes over omit-tagged files unless `includeAll`. */
  function KeepTest(opts: Options): Entry -> bool { (f: Entry) => !Omitted(f.name, opts) }

  /** The files whose pages a document counts. */
  function KeptFiles(doc: Entry, opts: Options): seq<Entry>
  {
    Filter(FilesOf(doc), KeepTest(opts))
  }

  function FilesTest(opts: Options): Entry -> seq<Entry> { (doc: Entry) => KeptFiles(doc, opts) }

  /** The name before the page count: the shared legacy rules on the stem. */
  function NameTest(opts: Options): Entry -> string { (doc: Entry) => LegacyName(Stem(doc.name), opts.keepDigits) }

  /** `filesOf` gives what `FilesTest(opts)` gives, `name` what `NameTest(opts)`
      gives; the methods below take them as ghost parameters so that the
      verifier does not unfold the name rules where only totals matter. */
  ghost predicate ListsKept(filesOf: Entry -> seq<Entry>, opts: Options)
  {
    forall doc {:trigger KeptFiles(doc, opts)} :: filesOf(doc) == KeptFiles(doc, opts)
  }

  ghost predicate NamesDocuments(name: Entry -> string, opts: Options)
  {
    forall doc {:trigger LegacyName(Stem(doc.name), opts.keepDigits)} :: name(doc) == LegacyName(Stem(doc.name), opts.keepDigits)
  }

  /** The " (n)" page count `Document.__init__` appends to a document of more than one page. */
  function WithPageCount(name: string, pagecount: nat): (r: string)
    ensures pagecount <= 1 <==> r == name
  {
    if pagecount > 1 then name + " (" + NatToString(pagecount) + ")" else name
  }

  /** The page count in a document's name reads back as the number of its pages. */
  lemma {:induction false} PageCountReadsBack(name: string, n: nat)
    requires n > 1
    ensures var r := WithPageCount(name, n);
      |r| >= |name| + 3 && r[..|name| + 2] == name + " (" && r[|r| - 1] == ')'
      && ParseInt(r[|name| + 2..|r| - 1]) == Some(n)
  {
    var r := WithPageCount(name, n);
    assert r[|name| + 2..|r| - 1] == NatToString(n);
    ParseIntOfIntToString(n);
  }

  /** What `add_file` adds to a document's pages: nothing for a file it
      passes over, otherwise the pages read or the reader's error. */
  function FilePages(f: Entry, opts: Options, count: Entry -> Result<nat>): (r: Result<nat>)
    ensures Omitted(f.name, opts) ==> r == Ok(0)
    ensures !Omitted(f.name, opts) ==> r == count(f)
  {
    if Omitted(f.name, opts) then Ok(0) else count(f)
  }

  /** The name `outPdfWriter`, unbound under --nopdf. */
  const WriterName: string := "outPdfWriter"

  /** `add_file` as written: a file read without error has its pages handed
      to `outPdfWriter`, which under --nopdf was never bound, so that the
      first such file raises NameError. */
  function FilePagesAsWritten(f: Entry, opts: Options, count: Entry -> Result<nat>, pdfBound: bool): (r: Result<nat>)
    ensures pdfBound ==> r == FilePages(f, opts, count)
    ensures !pdfBound && !Omitted(f.name, opts) && count(f).Ok? ==> r == Err(NameError(WriterName))
    ensures !pdfBound && (Omitted(f.name, opts) || count(f).Err?) ==> r == FilePages(f, opts, count)
  {
    match FilePages(f, opts, count)
    case Err(e) => Err(e)
    case Ok(n) => if !Omitted(f.name, opts) && !pdfBound then Err(NameError(WriterName)) else Ok(n)
  }

  /** The module-level state of the script: whether `outPdfWriter` was
      bound, the pages handed to it and the rows of `exhList`. */
  class Output {
    const pdfBound: bool
    var pages: nat
    var rows: seq<ListRow>

    /** `if not args.nopdf: outPdfWriter = PdfWriter()`, and an empty table. */
    constructor (opts: Options)
      ensures pdfBound == !opts.noPdf && pages == 0 && rows == []
    {
      pdfBound := !opts.noPdf;
      pages := 0;
      rows := [];
    }
  }

  /** A document: its name and the pages counted so far. */
  class Document {
    var name: string
    var pagecount: nat

    /** The start of `Document.__init__`. */
    constructor ()
      ensures name == "" && pagecount == 0
    {
      name := "";
      pagecount := 0;
    }

    /** The renaming steps of `Document.__init__`, one after another. */
    method FormatName(stem: string, keepDigits: bool)
      modifies this
      ensures name == LegacyName(stem, keepDigits) && pagecount == old(pagecount)
    {
      name := Strip(RemoveOmitTags(stem), {' '});
      if !keepDigits {
        name := StripNumberPrefix(name);
      }
      if IsDated(name) {
        name := MoveDate(name);
      }
    }

    /** `add_file` as written; see `FilePagesAsWritten`. */
    method AddFileAsWritten(f: Entry, opts: Options, out: Output, ghost count: Entry -> Result<nat>)
      returns (err: Option<Error>)
      requires ReadsPages(count)
      modifies this, out
      ensures name == old(name) && out.rows == old(out.rows)
      ensures var r := FilePagesAsWritten(f, opts, count, out.pdfBound);
        (err.None? <==> r.Ok?) && (err.Some? ==> err.value == r.error)
        && (r.Ok? ==> pagecount == old(pagecount) + r.value && out.pages == old(out.pages) + r.value)
        && (r.Err? ==> pagecount == old(pagecount) && out.pages == old(out.pages))
    {
      if Omitted(f.name, opts) {
        return None;
      }
      assert count(f) == PagesOf(f);
      var read := PagesOf(f);
      if read.Err? {
        return Some(read.error);
      }
      if !out.pdfBound {
        return Some(NameError(WriterName));
      }
      out.pages := out.pages + read.value;
      pagecount := pagecount + read.value;
      err := None;
    }

    /** `add_file` as evidently intended: under --nopdf nothing is handed
        to the writer, and the pages are counted all the same. */
    method AddFile(f: Entry, opts: Options, out: Output, ghost count: Entry -> Result<nat>)
      returns (err: Option<Error>)
      requires ReadsPages(count)
      modifies this, out
      ensures name == old(name) && out.rows == old(out.rows)
      ensures var r := FilePages(f, opts, count);
        (err.None? <==> r.Ok?) && (err.Some? ==> err.value == r.error)
        && (r.Ok? ==> pagecount == old(pagecount) + r.value
                      && out.pages == old(out.pages) + (if out.pdfBound then r.value else 0))
        && (r.Err? ==> pagecount == old(pagecount) && out.pages == old(out.pages))
    {
      if Omitted(f.name, opts) {
        return None;
      }
      assert count(f) == PagesOf(f);
      var read := PagesOf(f);
      if read.Err? {
        return Some(read.error);
      }
      if out.pdfBound {
        out.pages := out.pages + read.value;
      }
      pagecount := pagecount + read.value;
      err := None;
    }

    /** The loop of `Document.__init__` over the files: each is handed to
        `add_file`, and the first failure ends it. */
    method AddFiles(files: seq<Entry>, opts: Options, out: Output, ghost count: Entry -> Result<nat>)
      returns (err: Option<Error>)
      requires ReadsPages(count)
      modifies this, out
      ensures name == old(name) && out.rows == old(out.rows)
      ensures var total := Total(Filter(files, KeepTest(opts)), count);
        (err.None? <==> total.Ok?) && (err.Some? ==> err.value == total.error)
        && (err.None? ==> pagecount == old(pagecount) + total.value
                          && out.pages == old(out.pages) + (if out.pdfBound then total.value else 0))
    {
      ghost var t: nat := 0;
      var i := 0;
      while i < |files|
        invariant 0 <= i <= |files| && name == old(name) && out.rows == old(out.rows)
        invariant Total(Filter(files[..i], KeepTest(opts)), count) == Ok(t)
        invariant pagecount == old(pagecount) + t && out.pages == old(out.pages) + (if out.pdfBound then t else 0)
      {
        err, t := AddNextFile(files, i, opts, out, count, t, old(pagecount), old(out.pages));
        if err.Some? {
          return;
        }
        i := i + 1;
      }
      assert files[..i] == files;
      err := None;
    }

    /** One turn of that loop, on the file at position `i`. */
    method AddNextFile(files: seq<Entry>, i: nat, opts: Options, out: Output, ghost count: Entry -> Result<nat>,
                       ghost t: nat, ghost p0: nat, ghost w0: nat)
      returns (err: Option<Error>, ghost t': nat)
      requires ReadsPages(count) && i < |files|
      requires Total(Filter(files[..i], KeepTest(opts)), count) == Ok(t)
      requires pagecount == p0 + t && out.pages == w0 + (if out.pdfBound then t else 0)
      modifies this, out
      ensures name == old(name) && out.rows == old(out.rows)
      ensures err.Some? ==> Total(Filter(files, KeepTest(opts)), count) == Err(err.value)
      ensures err.None? ==> Total(Filter(files[..i + 1], KeepTest(opts)), count) == Ok(t')
                            && pagecount == p0 + t' && out.pages == w0 + (if out.pdfBound then t' else 0)
    {
      t' := t;
      if KeepTest(opts)(files[i]) {
        ghost var r := count(files[i]);
        KeptStep(files, i, KeepTest(opts), count, t, r);
        err := AddFile(files[i], opts, out, count);
        if err.None? {
          t' := t + r.value;
        }
      } else {
        FilesSkip(files, i, KeepTest(opts), count, t);
        err := AddFile(files[i], opts, out, count);
      }
    }

    /** `Document(path)`: named by the legacy rules, its files' pages
        counted, and " (n)" appended when there are more than one. `count`,
        `filesOf` and `name` stand for `PagesOf`, `FilesTest(opts)` and
        `NameTest(opts)`. */
    static method New(path: Entry, opts: Options, out: Output, ghost count: Entry -> Result<nat>,
                      ghost filesOf: Entry -> seq<Entry>, ghost name: Entry -> string)
      returns (r: Result<Document>)
      requires ReadsPages(count) && ListsKept(filesOf, opts) && NamesDocuments(name, opts)
      modifies out
      ensures out.rows == old(out.rows)
      ensures var total := Total(filesOf(path), count);
        (r.Ok? <==> total.Ok?) && (r.Err? ==> r.error == total.error)
      ensures r.Ok? ==> var total := Total(filesOf(path), count).value;
        fresh(r.value) && r.value.pagecount == total && r.value.name == WithPageCount(name(path), total)
        && out.pages == old(out.pages) + (if out.pdfBound then total else 0)
    {
      assert filesOf(path) == KeptFiles(path, opts);
      assert name(path) == LegacyName(Stem(path.name), opts.keepDigits);
      var d := new Document();
      d.FormatName(Stem(path.name), opts.keepDigits);
      var err := d.AddFiles(FilesOf(path), opts, out, count);
      if err.Some? {
        return Err(err.value);
      }
      d.AppendPageCount();
      r := Ok(d);
    }

    /** The last step of `Document(path)`: a page count above one is shown after the name. */
    method AppendPageCount()
      modifies this
      ensures name == WithPageCount(old(name), pagecount) && pagecount == old(pagecount)
    {
      if pagecount > 1 {
        name := name + " (" + NatToString(pagecount) + ")";
      }
    }
  }

  /** A page count that is there, or 0. */
  function PagesOrZero(r: Result<nat>): nat
  {
    if r.Ok? then r.value else 0
  }

  /** The names of the documents made from `docs`, in order. */
  function Names(docs: seq<Entry>, filesOf: Entry -> seq<Entry>, name: Entry -> string, count: Entry -> Result<nat>)
    : (r: seq<string>)
    ensures |r| == |docs|
  {
    if docs == [] then []
    else
      var last := docs[|docs| - 1];
      Names(docs[..|docs| - 1], filesOf, name, count) + [WithPageCount(name(last), PagesOrZero(Total(filesOf(last), count)))]
  }

  lemma {:induction false} NamesSnoc(docs: seq<Entry>, i: nat, filesOf: Entry -> seq<Entry>, name: Entry -> string,
                                     count: Entry -> Result<nat>)
    requires i < |docs|
    ensures Names(docs[..i + 1], filesOf, name, count)
      == Names(docs[..i], filesOf, name, count) + [WithPageCount(name(docs[i]), PagesOrZero(Total(filesOf(docs[i]), count)))]
  {
    assert docs[..i + 1][..i] == docs[..i];
  }

  // ---------------------------------------------------------------------
  // Exhibits
  // ---------------------------------------------------------------------

  /** What `Exhibit.__init__` takes from the folder's stem. */
  datatype Heading = Heading(number: int, title: string, name: string, description: string)

  /** `split(' ', 1)` of the stem: `int()` of the first part is the number
      (ValueError when it is not one); with a second part, the title is
      that part without omit tags and trimmed of '(', ' ' and ')', the name
      "<number>: <title>" and the first description "<title>:"; without
      one, the name is the first part as it is written. */
  function HeadingOf(stem: string): (r: Result<Heading>)
    ensures var first := SplitOnce(stem, " ").0;
      (r.Ok? <==> ParseInt(first).Some?) && (r.Err? ==> r.error == ValueError(first))
      && (r.Ok? ==> ParseInt(first) == Some(r.value.number))
    ensures r.Ok? && NoChar(stem, ' ') ==> r.value == Heading(r.value.number, "", stem, "")
    ensures r.Ok? && r.value.description == "" ==> r.value.title == "" && r.value.name == SplitOnce(stem, " ").0
    ensures r.Ok? && r.value.description != "" ==>
      r.value.name == IntToString(r.value.number) + ": " + r.value.title && r.value.description == r.value.title + ":"
  {
    var (first, rest) := SplitOnce(stem, " ");
    match ParseInt(first)
    case None => Err(ValueError(first))
    case Some(number) =>
      match rest
      case None => Ok(Heading(number, "", first, ""))
      case Some(tail) =>
        assert stem[|first|] == ' ';
        var title := TitleOf(tail);
        Ok(Heading(number, title, IntToString(number) + ": " + title, title + ":"))
  }

  /** A number written with digits, a space and the rest: the number is the
      digits' value, and the name writes it without leading zeros, so that
      "007 (Lease)" is named "7: Lease". */
  lemma {:induction false} HeadingOfNumbered(digits: string, rest: string)
    requires digits != [] && AllDigits(digits)
    ensures var n := DigitsValue(digits);
      HeadingOf(digits + " " + rest) == Ok(Heading(n, TitleOf(rest), NatToString(n) + ": " + TitleOf(rest), TitleOf(rest) + ":"))
  {
    DigitsHaveNoChar(digits, ' ');
    SplitOnceAt(digits, " ", rest);
  }

  /** `heading` gives what `HeadingOf` gives on a folder's stem. */
  ghost predicate HeadsFolders(heading: Entry -> Result<Heading>)
  {
    forall p {:trigger HeadingOf(Stem(p.name))} :: heading(p) == HeadingOf(Stem(p.name))
  }

  function HeadingTest(): Entry -> Result<Heading> { (p: Entry) => HeadingOf(Stem(p.name)) }

  /** A row of the exhibit list: number, identification mark, evidence mark, description and disputes. */
  datatype ListRow = ListRow(number: int, id: string, ev: string, description: string, disputes: string)

  /** The text of the evidentiary disputes file, or "" without one. */
  function Disputes(path: Entry): string
  {
    if path.Folder? && path.disputes.Some? then path.disputes.value else ""
  }

  /** An exhibit: its number, title, name and disputes, its documents and its description. */
  class Exhibit {
    const number: int
    const title: string
    const name: string
    const disputes: string
    var description: string
    var documents: seq<Document>

    /** `Exhibit.__init__` once `int()` has accepted the number. */
    constructor (h: Heading, disputes: string)
      ensures number == h.number && title == h.title && name == h.name && description == h.description
      ensures this.disputes == disputes && documents == []
    {
      number := h.number;
      title := h.title;
      name := h.name;
      description := h.description;
      this.disputes := disputes;
      documents := [];
    }

    /** `Exhibit(path)`: the heading of the folder's stem, or its
        ValueError; `heading` stands for `HeadingOf` on the stem. */
    static method New(path: Entry, ghost heading: Entry -> Result<Heading>) returns (r: Result<Exhibit>)
      requires HeadsFolders(heading)
      ensures (r.Ok? <==> heading(path).Ok?) && (r.Err? ==> r.error == heading(path).error)
      ensures r.Ok? ==> var h := heading(path).value;
        fresh(r.value) && r.value.number == h.number && r.value.title == h.title && r.value.name == h.name
        && r.value.description == h.description && r.value.disputes == Disputes(path) && r.value.documents == []
    {
      assert heading(path) == HeadingOf(Stem(path.name));
      var h := HeadingOf(Stem(path.name));
      if h.Err? {
        return Err(h.error);
      }
      var e := new Exhibit(h.value, Disputes(path));
      r := Ok(e);
    }

    /** `add_document`: the document is appended and its name becomes a new paragraph of the description. */
    method AddDocument(doc: Document)
      modifies this
      ensures documents == old(documents) + [doc]
      ensures description == AppendParagraph(old(description), doc.name)
    {
      documents := documents + [doc];
      if description != "" {
        description := description + Separator;
      }
      description := description + doc.name;
    }

    /** `add_to_list`: the exhibit's row goes to the end of the table. */
    method AddToList(out: Output)
      modifies out
      ensures out.rows == old(out.rows) + [ListRow(number, "X", "", description, disputes)]
      ensures out.pages == old(out.pages)
    {
      out.rows := out.rows + [ListRow(number, "X", "", description, disputes)];
    }

    /** The inner loop of the main program over the documents `docs` of
        the exhibit: each is made and added, and the first failure ends it. */
    method AddDocuments(docs: seq<Entry>, opts: Options, out: Output, ghost count: Entry -> Result<nat>,
                        ghost filesOf: Entry -> seq<Entry>, ghost name: Entry -> string)
      returns (err: Option<Error>)
      requires ReadsPages(count) && ListsKept(filesOf, opts) && NamesDocuments(name, opts)
      modifies this, out
      ensures out.rows == old(out.rows)
      ensures var total := Total(Concat(docs, filesOf), count);
        (err.None? <==> total.Ok?) && (err.Some? ==> err.value == total.error)
        && (err.None? ==> out.pages == old(out.pages) + (if out.pdfBound then total.value else 0))
      ensures err.None? ==> description == AppendAll(old(description), Names(docs, filesOf, name, count))
      ensures err.None? ==> |documents| == |old(documents)| + |docs|
    {
      ghost var t: nat := 0;
      var i := 0;
      while i < |docs|
        invariant 0 <= i <= |docs| && out.rows == old(out.rows) && |documents| == |old(documents)| + i
        invariant Total(Concat(docs[..i], filesOf), count) == Ok(t)
        invariant out.pages == old(out.pages) + (if out.pdfBound then t else 0)
        invariant description == AppendAll(old(description), Names(docs[..i], filesOf, name, count))
      {
        var next;
        next, t := AddNextDocument(docs, i, opts, out, count, filesOf, name, t, old(description), old(out.pages));
        if next.Err? {
          return Some(next.error);
        }
        i := i + 1;
      }
      assert docs[..i] == docs;
      err := None;
    }

    /** The rest of a turn of the main loop, once the exhibit `x` is made:
        its documents are added and then, when a list is made, its row. */
    method Complete(x: Entry, opts: Options, out: Output, ghost count: Entry -> Result<nat>)
      returns (err: Option<Error>)
      requires ReadsPages(count) && x.Folder?
      modifies this, out
      ensures var docs := Filter(x.children, DocumentTest(opts));
        var total := Total(Concat(docs, FilesTest(opts)), count);
        (err.None? <==> total.Ok?) && (err.Some? ==> err.value == total.error)
        && (err.None? ==> description == AppendAll(old(description), Names(docs, FilesTest(opts), NameTest(opts), count))
                          && out.rows == old(out.rows) + (if opts.makeList then [ListRow(number, "X", "", description, disputes)] else []))
    {
      var docs := Filter(x.children, DocumentTest(opts));
      err := AddDocuments(docs, opts, out, count, FilesTest(opts), NameTest(opts));
      if err.None? && opts.makeList {
        AddToList(out);
      }
    }

    /** One turn of that loop, on the entry at position `i`. */
    method AddNextDocument(docs: seq<Entry>, i: nat, opts: Options, out: Output, ghost count: Entry -> Result<nat>,
                           ghost filesOf: Entry -> seq<Entry>, ghost name: Entry -> string, ghost t: nat,
                           ghost d0: string, ghost w0: nat)
      returns (r: Result<Document>, ghost t': nat)
      requires ReadsPages(count) && ListsKept(filesOf, opts) && NamesDocuments(name, opts)
      requires i < |docs| && Total(Concat(docs[..i], filesOf), count) == Ok(t)
      requires out.pages == w0 + (if out.pdfBound then t else 0)
      requires description == AppendAll(d0, Names(docs[..i], filesOf, name, count))
      modifies this, out
      ensures out.rows == old(out.rows)
      ensures r.Err? ==> Total(Concat(docs, filesOf), count) == Err(r.error)
      ensures r.Ok? ==> Total(Concat(docs[..i + 1], filesOf), count) == Ok(t')
                        && out.pages == w0 + (if out.pdfBound then t' else 0)
      ensures r.Ok? ==> description == AppendAll(d0, Names(docs[..i + 1], filesOf, name, count))
                        && documents == old(documents) + [r.value]
    {
      DocumentsStep(docs, i, filesOf, count, t);
      r := Document.New(docs[i], opts, out, count, filesOf, name);
      t' := t;
      if r.Ok? {
        var d := r.value;
        ghost var pages := Total(filesOf(docs[i]), count).value;
        NamesSnoc(docs, i, filesOf, name, count);
        AppendAllSnoc(d0, Names(docs[..i], filesOf, name, count), d.name);
        AddDocument(d);
        t' := t + pages;
      }
    }
  }

  // ---------------------------------------------------------------------
  // The main loop and the rebuttal row
  // ---------------------------------------------------------------------

  /** The row an exhibit folder comes to, or the first error met making it:
      the heading's ValueError, then the first document that cannot be read. */
  function ExhibitRow(x: Entry, opts: Options, count: Entry -> Result<nat>): (r: Result<ListRow>)
    ensures HeadingOf(Stem(x.name)).Err? ==> r == Err(HeadingOf(Stem(x.name)).error)
    ensures r.Ok? ==> HeadingOf(Stem(x.name)).Ok? && r.value.number == HeadingOf(Stem(x.name)).value.number
  {
    match HeadingOf(Stem(x.name))
    case Err(e) => Err(e)
    case Ok(h) =>
      var docs := if x.Folder? then Filter(x.children, DocumentTest(opts)) else [];
      match Total(Concat(docs, FilesTest(opts)), count)
      case Err(e) => Err(e)
      case Ok(_) => Ok(ListRow(h.number, "X", "", AppendAll(h.description, Names(docs, FilesTest(opts), NameTest(opts), count)),
                               Disputes(x)))
  }

  function RowTest(opts: Options, count: Entry -> Result<nat>): Entry -> Result<ListRow>
  {
    (x: Entry) => ExhibitRow(x, opts, count)
  }

  /** `row` gives what `ExhibitRow` gives; like `ReadsPages`, this keeps
      the main loop from unfolding how one row is made. */
  ghost predicate MakesRows(row: Entry -> Result<ListRow>, opts: Options, count: Entry -> Result<nat>)
  {
    forall x {:trigger ExhibitRow(x, opts, count)} :: row(x) == ExhibitRow(x, opts, count)
  }

  /** The row of an exhibit folder: the heading's error, else the first
      document's error, else the row of its number, description and disputes. */
  lemma {:induction false} RowOfFolder(x: Entry, opts: Options, count: Entry -> Result<nat>,
                                       row: Entry -> Result<ListRow>, heading: Entry -> Result<Heading>)
    requires MakesRows(row, opts, count) && HeadsFolders(heading) && x.Folder?
    ensures heading(x).Err? ==> row(x) == Err(heading(x).error)
    ensures heading(x).Ok? ==>
      var h, docs := heading(x).value, Filter(x.children, DocumentTest(opts));
      var total := Total(Concat(docs, FilesTest(opts)), count);
      (total.Err? ==> row(x) == Err(total.error))
      && (total.Ok? ==> row(x) == Ok(ListRow(h.number, "X", "", AppendAll(h.description, Names(docs, FilesTest(opts), NameTest(opts), count)),
                                             Disputes(x))))
  {
    assert row(x) == ExhibitRow(x, opts, count);
    assert heading(x) == HeadingOf(Stem(x.name));
  }

  /** The rows `row` makes of the exhibit folders `xs`, in order, or the first error. */
  function Rows(xs: seq<Entry>, row: Entry -> Result<ListRow>): Result<seq<ListRow>>
  {
    if xs == [] then Ok([])
    else
      match Rows(xs[..|xs| - 1], row)
      case Err(e) => Err(e)
      case Ok(rs) =>
        match row(xs[|xs| - 1])
        case Err(e) => Err(e)
        case Ok(r) => Ok(rs + [r])
  }

  /** One row per exhibit folder, each the one `row` makes of it. */
  lemma {:induction false} RowsOfEach(xs: seq<Entry>, row: Entry -> Result<ListRow>)
    requires Rows(xs, row).Ok?
    ensures var rs := Rows(xs, row).value;
      |rs| == |xs| && forall k :: 0 <= k < |xs| ==> row(xs[k]) == Ok(rs[k])
    decreases |xs|
  {
    if xs != [] {
      var front := xs[..|xs| - 1];
      RowsOfEach(front, row);
      assert forall k :: 0 <= k < |front| ==> front[k] == xs[k];
    }
  }

  /** Each row of the list is numbered as its exhibit's heading is. */
  lemma {:induction false} RowsNumbered(xs: seq<Entry>, opts: Options, count: Entry -> Result<nat>)
    requires Rows(xs, RowTest(opts, count)).Ok?
    ensures var rs := Rows(xs, RowTest(opts, count)).value;
      |rs| == |xs|
      && forall k :: 0 <= k < |xs| ==>
           HeadingOf(Stem(xs[k].name)).Ok? && rs[k].number == HeadingOf(Stem(xs[k].name)).value.number
  {
    RowsOfEach(xs, RowTest(opts, count));
    var rs := Rows(xs, RowTest(opts, count)).value;
    forall k | 0 <= k < |xs|
      ensures HeadingOf(Stem(xs[k].name)).Ok? && rs[k].number == HeadingOf(Stem(xs[k].name)).value.number
    {
      assert ExhibitRow(xs[k], opts, count) == Ok(rs[k]);
    }
  }

  /** A failed exhibit ends the rows, whatever follows. */
  lemma {:induction false} RowsKeepError(a: seq<Entry>, b: seq<Entry>, row: Entry -> Result<ListRow>)
    requires Rows(a, row).Err?
    ensures Rows(a + b, row) == Rows(a, row)
    decreases |b|
  {
    if b == [] {
      assert a + b == a;
    } else {
      RowsKeepError(a, b[..|b| - 1], row);
      assert (a + b)[..|a + b| - 1] == a + b[..|b| - 1];
    }
  }

  /** How the rows made so far change with the next exhibit folder. */
  lemma {:induction false} RowsStep(xs: seq<Entry>, i: nat, row: Entry -> Result<ListRow>, rs: seq<ListRow>)
    requires i < |xs| && Rows(xs[..i], row) == Ok(rs)
    ensures row(xs[i]).Ok? ==> Rows(xs[..i + 1], row) == Ok(rs + [row(xs[i]).value])
    ensures row(xs[i]).Err? ==> Rows(xs, row) == Err(row(xs[i]).error)
  {
    assert xs[..i + 1][..i] == xs[..i] && xs[..i + 1][i] == xs[i];
    if row(xs[i]).Err? {
      assert xs == xs[..i + 1] + xs[i + 1..];
      RowsKeepError(xs[..i + 1], xs[i + 1..], row);
    }
  }

  const RebuttalText: string := "Reserved for Rebuttal"

  /** The row the `else` clause of the main loop reserves for rebuttal:
      numbered one past the last exhibit made. */
  function RebuttalRows(rows: seq<ListRow>, opts: Options): (r: seq<ListRow>)
    ensures |r| <= 1
    ensures r != [] <==> !opts.noRebuttal && rows != []
    ensures r != [] ==> r[0].number == rows[|rows| - 1].number + 1 && r[0].description == RebuttalText
  {
    if opts.noRebuttal || rows == [] then [] else [ListRow(rows[|rows| - 1].number + 1, "X", "", RebuttalText, "")]
  }

  /** The main loop over the sorted entries of the input folder, then its
      `else` clause: each exhibit folder is made, its documents added, and
      its row added to the list when there is one; the rebuttal row then
      follows the last exhibit's, and with no exhibit at all the unbound
      name `exhibit` raises NameError. */
  method Run(root: seq<Entry>, opts: Options, out: Output, ghost count: Entry -> Result<nat>,
             ghost row: Entry -> Result<ListRow>)
    returns (err: Option<Error>)
    requires ReadsPages(count) && MakesRows(row, opts, count)
    modifies out
    ensures var xs := Filter(root, ExhibitTest(opts));
      var rows := Rows(xs, row);
      (rows.Err? ==> err == Some(rows.error))
      && (rows.Ok? ==> (err.Some? <==> opts.makeList && !opts.noRebuttal && xs == []))
      && (err.Some? && rows.Ok? ==> err.value == NameError("exhibit"))
      && (err.None? ==> out.rows == old(out.rows) + (if opts.makeList then rows.value + RebuttalRows(rows.value, opts) else []))
  {
    var xs := Filter(root, ExhibitTest(opts));
    FilterMembers(root, ExhibitTest(opts));
    ghost var rs;
    var last;
    err, last, rs := RunExhibits(xs, opts, out, count, row);
    if err.None? {
      err := Reserve(opts, out, last, rs);
    }
  }

  /** The `else` clause of the main loop, after the exhibits `rs` were listed
      and `last` was made: a list with rebuttal gets one more row, and
      without any exhibit the name `exhibit` is unbound. */
  method Reserve(opts: Options, out: Output, last: Option<Exhibit>, ghost rs: seq<ListRow>)
    returns (err: Option<Error>)
    requires (last.Some? <==> rs != []) && (last.Some? ==> last.value.number == rs[|rs| - 1].number)
    modifies out
    ensures err.Some? <==> opts.makeList && !opts.noRebuttal && rs == []
    ensures err.Some? ==> err.value == NameError("exhibit")
    ensures err.None? ==> out.rows == old(out.rows) + (if opts.makeList then RebuttalRows(rs, opts) else [])
  {
    if opts.makeList && !opts.noRebuttal {
      if last.None? {
        return Some(NameError("exhibit"));
      }
      var rebuttal := ListRow(last.value.number + 1, "X", "", RebuttalText, "");
      assert RebuttalRows(rs, opts) == [rebuttal];
      out.rows := out.rows + [rebuttal];
    } else {
      assert opts.makeList ==> RebuttalRows(rs, opts) == [];
    }
    err := None;
  }

  /** The loop itself, over the exhibit folders `xs`: it stops at the first
      exhibit that fails, and otherwise has added every row and made the
      last exhibit. */
  method RunExhibits(xs: seq<Entry>, opts: Options, out: Output, ghost count: Entry -> Result<nat>,
                     ghost row: Entry -> Result<ListRow>)
    returns (err: Option<Error>, last: Option<Exhibit>, ghost rs: seq<ListRow>)
    requires ReadsPages(count) && MakesRows(row, opts, count) && forall x :: x in xs ==> x.Folder?
    modifies out
    ensures (err.Some? <==> Rows(xs, row).Err?) && (err.Some? ==> err.value == Rows(xs, row).error)
    ensures err.None? ==> Rows(xs, row) == Ok(rs) && |rs| == |xs| && out.rows == old(out.rows) + (if opts.makeList then rs else [])
    ensures err.None? ==> (last.Some? <==> xs != []) && (last.Some? ==> last.value.number == rs[|rs| - 1].number)
  {
    rs := [];
    last := None;
    var i := 0;
    while i < |xs|
      invariant 0 <= i <= |xs| && Rows(xs[..i], row) == Ok(rs) && |rs| == i
      invariant out.rows == old(out.rows) + (if opts.makeList then rs else [])
      invariant last.Some? <==> i > 0
      invariant last.Some? ==> last.value.number == rs[|rs| - 1].number
    {
      assert xs[i] in xs;
      RowsStep(xs, i, row, rs);
      var next := RunNext(xs[i], opts, out, count, row, HeadingTest());
      if next.Err? {
        return Some(next.error), last, rs;
      }
      rs := rs + [row(xs[i]).value];
      last := Some(next.value);
      i := i + 1;
    }
    assert xs[..i] == xs;
    err := None;
  }

  /** One turn of the main loop, on the exhibit folder `x`: its row is
      added when a list is made, or the turn fails as `ExhibitRow` does. */
  method RunNext(x: Entry, opts: Options, out: Output, ghost count: Entry -> Result<nat>,
                 ghost row: Entry -> Result<ListRow>, ghost heading: Entry -> Result<Heading>)
    returns (r: Result<Exhibit>)
    requires ReadsPages(count) && MakesRows(row, opts, count) && HeadsFolders(heading) && x.Folder?
    modifies out
    ensures (r.Ok? <==> row(x).Ok?) && (r.Err? ==> r.error == row(x).error)
    ensures r.Ok? ==> r.value.number == row(x).value.number
                      && out.rows == old(out.rows) + (if opts.makeList then [row(x).value] else [])
  {
    RowOfFolder(x, opts, count, row, heading);
    r := Exhibit.New(x, heading);
    if r.Err? {
      return;
    }
    var e := r.value;
    var err := e.Complete(x, opts, out, count);
    if err.Some? {
      r := Err(err.value);
    }
  }
}
