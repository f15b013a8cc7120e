/** The middle revision, exhibiter/exhibiter.py: exhibit folders are found
    by loose name checks, each document is named by the shared legacy rules
    and places its pages (stamped "<index>-<n>") in one output PDF, and each
    exhibit contributes a row "index, X, blank, description, disputes" to
    the exhibit list, where the description lists each document with the
    pages it fills. */
module ExhibiterLegacy {
  import opened Outcomes
  import opened Text
  import opened Files
  import opened Naming

  /** The command-line switches the modelled code consults. */
  datatype Args = Args(discoveryMode: bool, keepDigits: bool, noListPageNumbers: bool, noPdf: bool)

  // ---------------------------------------------------------------------
  // Sanity checks: is_exhibit, is_document, is_page
  // ---------------------------------------------------------------------

  /** The suffixes of `extensions`, each searched for as `.<suffix>$`. */
  predicate IsListedSuffix(x: string)
  {
    x == "pdf" || x == "png" || x == "jpg" || x == "jpeg" || x == "PDF" || x == "PNG" || x == "JPG" || x == "JPEG"
  }

  /** `search(extensions, name)`: some listed suffix ends the name after
      any one character, which need not be a dot. */
  predicate HasExtension(name: string)
  {
    AnyThenAtEnd(name, "pdf") || AnyThenAtEnd(name, "png") || AnyThenAtEnd(name, "jpg") || AnyThenAtEnd(name, "jpeg")
    || AnyThenAtEnd(name, "PDF") || AnyThenAtEnd(name, "PNG") || AnyThenAtEnd(name, "JPG") || AnyThenAtEnd(name, "JPEG")
  }

  /** `search("(\d+|[A-Y])( \(.+\))?", name)`: the parenthesised group is
      optional, so the search succeeds wherever a digit or a capital A-Y
      occurs in the name. */
  predicate HasIndexChar(name: string)
  {
    exists k | 0 <= k < |name| :: IsDigit(name[k]) || IsIndexLetter(name[k])
  }

  /** An entry is passed over for its omit tag, except in discovery mode. */
  predicate Omitted(e: Entry, args: Args)
  {
    !args.discoveryMode && HasOmitTag(e.name)
  }

  /** `is_exhibit`. */
  predicate IsExhibit(e: Entry, args: Args)
  {
    e.Folder? && HasIndexChar(e.name) && !Omitted(e, args)
  }

  /** `is_document`: a folder, or a file with a listed suffix, without an omit tag. */
  predicate IsDocument(e: Entry, args: Args)
  {
    !Omitted(e, args) && (e.Folder? || HasExtension(e.name))
  }

  /** `is_page`: the omit test (made twice in the source), then the suffix test, which folders must pass too. */
  predicate IsPage(e: Entry, args: Args)
  {
    !Omitted(e, args) && HasExtension(e.name)
  }

  function PageTest(args: Args): Entry -> bool { (e: Entry) => IsPage(e, args) }

  function DocumentTest(args: Args): Entry -> bool { (e: Entry) => IsDocument(e, args) }

  /** Any name that ends in a listed suffix after some character other than
      a newline passes the suffix test, whether or not that character is a
      dot: "Lease.pdf" and "Photo.JPG" pass, and so does "scan_pdf". */
  lemma {:induction false} HasExtensionOf(base: string, x: string)
    requires base != [] && base[|base| - 1] != '\n' && IsListedSuffix(x)
    ensures HasExtension(base + x)
  {
    var s := base + x;
    assert s[|s| - |x| - 1] == base[|base| - 1];
    assert s[|s| - |x|..|s|] == x;
    assert AnyThenEndsAt(s, x, |s|);
  }

  /** Every listed suffix ends in 'f' or 'g' of either case, so a name that
      ends in any other character (other than a newline) fails the suffix
      test: "notes.txt" is neither a document nor a page. */
  lemma {:induction false} HasExtensionNeedsEnding(s: string)
    requires s != [] && s[|s| - 1] !in {'f', 'g', 'F', 'G', '\n'}
    ensures !HasExtension(s)
  {
    forall lit | IsListedSuffix(lit) ensures !AnyThenEndsAt(s, lit, |s|) {
      if AnyThenEndsAt(s, lit, |s|) {
        EndsAsLiteral(s, lit);
      }
    }
  }

  /** The folder check accepts the single letter "B", but, since it only
      searches for one index character, also "Misc" (for its "M"); a folder
      named in lower case only, such as "notes", is not an exhibit. */
  lemma {:induction false} ExhibitFolderNames(children: seq<Entry>, disputes: Option<string>, args: Args)
    ensures IsExhibit(Folder("B", children, disputes), args)
    ensures IsExhibit(Folder("Misc", children, disputes), args)
    ensures !IsExhibit(Folder("notes", children, disputes), args)
  {
    assert IsIndexLetter("B"[0]) && !HasOmitTag("B");
    assert IsIndexLetter("Misc"[0]) && !HasOmitTag("Misc");
    var lower := "notes";
    assert !HasIndexChar(lower) by {
      forall k | 0 <= k < |lower| ensures !(IsDigit(lower[k]) || IsIndexLetter(lower[k])) {
        assert 'a' <= lower[k] <= 'z';
      }
    }
  }

  /** An omit-tagged entry is refused by all three checks unless in
      discovery mode, and in discovery mode a tag makes no difference. */
  lemma {:induction false} OmitTagDecides(x: string, tag: string, y: string, children: seq<Entry>,
                                          disputes: Option<string>, args: Args)
    requires IsOmitTag(tag)
    ensures var e := Folder(x + tag + y, children, disputes);
      !args.discoveryMode ==> !IsExhibit(e, args) && !IsDocument(e, args) && !IsPage(e, args)
    ensures var f := File(x + tag + y, Other);
      args.discoveryMode ==> (IsDocument(f, args) <==> HasExtension(f.name))
  {
    var s := x + tag + y;
    assert s[|x|..|x| + |tag|] == tag;
    assert OmitTagAt(s, |x|);
  }

  // ---------------------------------------------------------------------
  // Documents
  // ---------------------------------------------------------------------

  /** The files a document is read from: a folder's pages, or the file itself. */
  function DocumentFiles(doc: Entry, args: Args): (r: seq<Entry>)
    ensures doc.File? ==> r == [doc]
  {
    if doc.Folder? then Filter(doc.children, PageTest(args)) else [doc]
  }

  /** The pages a document places for `n` pages read: none without PDF output. */
  function Placed(args: Args, n: nat): nat
  {
    if args.noPdf then 0 else n
  }

  /** The numbers stamped on `n` pages starting with number `start`: none in discovery mode. */
  function Stamps(discoveryMode: bool, start: nat, n: nat): (r: seq<Option<nat>>)
    ensures |r| == n
  {
    if n == 0 then [] else Stamps(discoveryMode, start, n - 1) + [if discoveryMode then None else Some(start + n - 1)]
  }

  /** Page `k` of such a run carries number `start + k`. */
  lemma {:induction false} StampsAt(discoveryMode: bool, start: nat, n: nat, k: nat)
    requires k < n
    ensures Stamps(discoveryMode, start, n)[k] == if discoveryMode then None else Some(start + k)
  {
    if k < n - 1 {
      StampsAt(discoveryMode, start, n - 1, k);
    }
  }

  /** `list_line`'s page reference: the start page, and the end page when there is more than one page. */
  function PageRange(start: nat, count: nat): string
  {
    NatToString(start) + (if count > 1 then "-" + NatToString(start + count - 1) else "")
  }

  /** `list_line`: the document's name, followed by the pages it fills in
      parentheses unless list page numbers are off or in discovery mode. */
  function ListLine(name: string, startPage: nat, pageCount: nat, args: Args): (r: string)
    ensures |r| >= |name| && r[..|name|] == name
    ensures r == name <==> args.noListPageNumbers || args.discoveryMode
  {
    if !args.noListPageNumbers && !args.discoveryMode then name + " (" + PageRange(startPage, pageCount) + ")"
    else name
  }

  /** With numbers shown, the page reference of a document that placed
      pages names the numbers stamped on its first and last page. */
  lemma {:induction false} ListLineNamesStamps(name: string, startPage: nat, pageCount: nat, args: Args)
    requires pageCount >= 1 && !args.noListPageNumbers && !args.discoveryMode
    ensures Stamps(false, startPage, pageCount)[0] == Some(startPage)
    ensures Stamps(false, startPage, pageCount)[pageCount - 1] == Some(startPage + pageCount - 1)
    ensures var stamps := Stamps(false, startPage, pageCount);
      ListLine(name, startPage, pageCount, args)
        == name + " (" + NatToString(stamps[0].value)
           + (if pageCount > 1 then "-" + NatToString(stamps[pageCount - 1].value) else "") + ")"
  {
    StampsAt(false, startPage, pageCount, 0);
    StampsAt(false, startPage, pageCount, pageCount - 1);
  }

  /** A document: its name, the exhibit page it starts on, the pages it has
      placed and the number stamped on each of them. */
  class Document {
    const args: Args
    /** The exhibit's page count when the document is made; it does not
        change until the document is included. */
    const exhibitPageCount: nat
    const startPage: nat
    var name: string
    var pageCount: nat
    /** The stamps on the pages placed in the output PDF, in order. */
    var placed: seq<Option<nat>>

    /** The `k`-th placed page is stamped with the exhibit's page count plus `k + 1`. */
    ghost predicate Valid()
      reads this
    {
      startPage == exhibitPageCount + 1 && placed == Stamps(args.discoveryMode, startPage, pageCount)
    }

    /** The part of `Document.__init__` before any name or page is set. */
    constructor (exhibitPageCount: nat, args: Args)
      ensures Valid() && this.args == args && this.exhibitPageCount == exhibitPageCount
      ensures name == "" && pageCount == 0 && placed == []
    {
      this.args := args;
      this.exhibitPageCount := exhibitPageCount;
      startPage := exhibitPageCount + 1;
      name := "";
      pageCount := 0;
      placed := [];
    }

    /** `formatName`, one stage after another. */
    method FormatName(stem: string)
      requires Valid()
      modifies this
      ensures Valid() && pageCount == old(pageCount)
      ensures name == LegacyName(stem, args.keepDigits)
    {
      name := Strip(RemoveOmitTags(stem), {' '});
      if !args.keepDigits {
        name := StripNumberPrefix(name);
      }
      if IsDated(name) {
        name := MoveDate(name);
      }
    }

    /** The loop of `Document.include` over the pages read: each one is
        counted and stamped with the document's and the exhibit's counts together. */
    method PlacePages(n: nat)
      requires Valid()
      modifies this
      ensures Valid() && name == old(name) && pageCount == old(pageCount) + n
    {
      var i := 0;
      while i < n
        invariant 0 <= i <= n && Valid() && name == old(name) && pageCount == old(pageCount) + i
      {
        pageCount := pageCount + 1;
        placed := placed + [if args.discoveryMode then None else Some(pageCount + exhibitPageCount)];
        i := i + 1;
      }
    }

    /** `Document.include`: reads the file, then places its pages unless
        PDF output is off. `count` is `PagesOf` (see `ReadsPages`). */
    method Include(f: Entry, ghost count: Entry -> Result<nat>) returns (err: Option<Error>)
      requires Valid() && ReadsPages(count)
      modifies this
      ensures Valid() && name == old(name)
      ensures err.None? <==> count(f).Ok?
      ensures err.Some? ==> count(f) == Err(err.value)
      ensures err.None? ==> pageCount == old(pageCount) + Placed(args, count(f).value)
    {
      assert count(f) == PagesOf(f);
      var n: nat;
      if AnyThenAtEnd(f.name, "pdf") {
        if !(f.File? && f.content.Pdf?) {
          return Some(Unreadable(f.name));
        }
        n := f.content.pages;
      } else {
        if !(f.File? && f.content.Image?) {
          return Some(Unreadable(f.name));
        }
        n := 1;
      }
      if !args.noPdf {
        PlacePages(n);
      }
      err := None;
    }

    /** The loop of `Document.__init__` over a folder's sorted entries:
        those `keep` refuses are passed over and the first failure ends it. */
    method IncludeAll(paths: seq<Entry>, keep: Entry -> bool, ghost count: Entry -> Result<nat>) returns (err: Option<Error>)
      requires Valid() && ReadsPages(count)
      modifies this
      ensures Valid() && name == old(name)
      ensures err.None? <==> Total(Filter(paths, keep), count).Ok?
      ensures err.Some? ==> err.value == Total(Filter(paths, keep), count).error
      ensures err.None? ==> pageCount == old(pageCount) + Placed(args, Total(Filter(paths, keep), count).value)
    {
      ghost var t: nat := 0;
      var i := 0;
      while i < |paths|
        invariant 0 <= i <= |paths| && Valid() && name == old(name)
        invariant Total(Filter(paths[..i], keep), count) == Ok(t)
        invariant pageCount == old(pageCount) + Placed(args, t)
      {
        err, t := IncludeNext(paths, i, keep, count, t, old(pageCount));
        if err.Some? {
          return;
        }
        i := i + 1;
      }
      assert paths[..i] == paths;
      err := None;
    }

    /** One turn of that loop, on the entry at position `i`. */
    method IncludeNext(paths: seq<Entry>, i: nat, keep: Entry -> bool, ghost count: Entry -> Result<nat>, ghost t: nat,
                       ghost p0: nat)
      returns (err: Option<Error>, ghost t': nat)
      requires Valid() && ReadsPages(count) && i < |paths|
      requires Total(Filter(paths[..i], keep), count) == Ok(t) && pageCount == p0 + Placed(args, t)
      modifies this
      ensures Valid() && name == old(name)
      ensures err.Some? ==> Total(Filter(paths, keep), count) == Err(err.value)
      ensures err.None? ==> Total(Filter(paths[..i + 1], keep), count) == Ok(t') && pageCount == p0 + Placed(args, t')
    {
      t' := t;
      err := None;
      if keep(paths[i]) {
        ghost var r := count(paths[i]);
        KeptStep(paths, i, keep, count, t, r);
        err := Include(paths[i], count);
        if err.None? {
          t' := t + r.value;
        }
      } else {
        FilesSkip(paths, i, keep, count, t);
      }
    }

    /** `Document(path, exhibit)`: starts on the page after the exhibit's
        pages so far, takes its name from the path's stem, and reads its
        files: a folder's entries that pass `is_page`, or the file itself.
        `count`, `filesOf` and `name` stand for `PagesOf`, `FilesTest(args)`
        and `NameTest(args)`. */
    static method New(path: Entry, exhibitPageCount: nat, args: Args, ghost count: Entry -> Result<nat>,
                      ghost filesOf: Entry -> seq<Entry>, ghost name: Entry -> string)
      returns (r: Result<Document>)
      requires ReadsPages(count) && ListsFiles(filesOf, args) && NamesDocuments(name, args)
      ensures r.Ok? <==> Total(filesOf(path), count).Ok?
      ensures r.Err? ==> r.error == Total(filesOf(path), count).error
      ensures r.Ok? ==> fresh(r.value) && r.value.Valid() && r.value.args == args
      ensures r.Ok? ==> r.value.exhibitPageCount == exhibitPageCount && r.value.startPage == exhibitPageCount + 1
      ensures r.Ok? ==> r.value.name == name(path)
      ensures r.Ok? ==> r.value.pageCount == Placed(args, Total(filesOf(path), count).value)
    {
      assert filesOf(path) == DocumentFiles(path, args);
      assert name(path) == LegacyName(Stem(path.name), args.keepDigits);
      var d := new Document(exhibitPageCount, args);
      d.FormatName(Stem(path.name));
      var err: Option<Error>;
      if path.Folder? {
        err := d.IncludeAll(path.children, PageTest(args), count);
      } else {
        err := d.Include(path, count);
        TotalOne(path, count);
      }
      if err.Some? {
        return Err(err.value);
      }
      r := Ok(d);
    }
  }

  // ---------------------------------------------------------------------
  // Exhibits
  // ---------------------------------------------------------------------

  /** What `Exhibit.__init__` takes from the folder's stem. */
  datatype Heading = Heading(index: string, title: string, name: string, description: string)

  /** The part before the first space of a name has no space in it and starts the name. */
  lemma {:induction false} NoSpaceBeforeSplit(s: string)
    ensures var first := SplitOnce(s, " ").0;
      |first| <= |s| && s[..|first|] == first && NoChar(first, ' ')
  {
    var r := SplitOnce(s, " ");
    forall i | 0 <= i < |r.0| ensures r.0[i] != ' ' {
      if r.0[i] == ' ' {
        assert s[i] == ' ' && s[i..i + 1] == " ";
        assert OccursAt(s, i, " ");
      }
    }
    if r.1.Some? {
      assert s[..|r.0|] == r.0;
    }
  }

  /** `split(' ', 1)` of the stem: the index is what precedes the first
      space; what follows it, if anything, gives the title (omit tags
      removed, then '(', ')' and ' ' trimmed from both ends), the name
      "index: title" and the first description "title:". */
  function HeadingOf(stem: string): (h: Heading)
    ensures |h.index| <= |stem| && stem[..|h.index|] == h.index && NoChar(h.index, ' ')
    ensures h.description == "" <==> h.name == h.index
    ensures h.description == "" ==> h.index == stem && h.title == ""
    ensures NoChar(stem, ' ') ==> h == Heading(stem, "", stem, "")
    ensures h.description != "" ==> h.name == h.index + ": " + h.title && h.description == h.title + ":"
  {
    NoSpaceBeforeSplit(stem);
    var (first, rest) := SplitOnce(stem, " ");
    match rest
    case None => Heading(first, "", first, "")
    case Some(r) =>
      assert stem[|first|] == ' ';
      var title := TitleOf(r);
      Heading(first, title, first + ": " + title, title + ":")
  }

  /** "101 (Rental Agreement)" has index "101", title "Rental Agreement",
      name "101: Rental Agreement" and description "Rental Agreement:". */
  lemma {:induction false} HeadingOfTitled(idx: string, title: string)
    requires NoChar(idx, ' ') && title != []
    requires title[0] !in {'(', ' ', ')'} && title[|title| - 1] !in {'(', ' ', ')'}
    requires !HasOmitTag("(" + title + ")")
    ensures HeadingOf(idx + " (" + title + ")") == Heading(idx, title, idx + ": " + title, title + ":")
  {
    var rest := "(" + title + ")";
    assert idx + " (" + title + ")" == idx + " " + rest;
    SplitOnceAt(idx, " ", rest);
    HeadingOfSplit(idx + " " + rest, idx, rest);
    RemoveOmitTagsKeeps(rest);
    StripPadded("(", title, ")", {'(', ' ', ')'});
  }

  /** In discovery mode a tagged folder "101 Lease (UNUSED)" is let in, and its title is "Lease". */
  lemma {:induction false} HeadingDropsTag(idx: string, title: string, tag: string)
    requires NoChar(idx, ' ') && title != [] && NoChar(title, '(') && IsOmitTag(tag)
    requires title[0] !in {'(', ' ', ')'} && title[|title| - 1] !in {'(', ' ', ')'}
    ensures HeadingOf(idx + " " + title + " " + tag).title == title
  {
    var rest := title + " " + tag;
    assert idx + " " + title + " " + tag == idx + " " + rest;
    SplitOnceAt(idx, " ", rest);
    HeadingOfSplit(idx + " " + rest, idx, rest);
    TitleOfTagged(title, tag);
  }

  /** Where the stem splits, the heading is made of the two parts. */
  lemma {:induction false} HeadingOfSplit(stem: string, idx: string, rest: string)
    requires SplitOnce(stem, " ") == (idx, Some(rest))
    ensures HeadingOf(stem) == Heading(idx, TitleOf(rest), idx + ": " + TitleOf(rest), TitleOf(rest) + ":")
  {
  }

  /** A row of the exhibit list: number, identification mark, evidence mark, description and disputes. */
  datatype Row = Row(number: string, id: string, ev: string, description: string, disputes: string)

  /** The documents start on page 1, each on the page after the one before
      it ends, and together they fill pages 1 to `n`. */
  ghost predicate Chained(ds: seq<Document>, n: nat)
    reads ds
  {
    if ds == [] then n == 0
    else
      var last := ds[|ds| - 1];
      last.startPage >= 1 && n == last.startPage - 1 + last.pageCount && Chained(ds[..|ds| - 1], last.startPage - 1)
  }

  /** `d` is a document made under `args` from `doc`, named as `name` names
      it, and holding the pages it placed of its own files `filesOf(doc)`,
      read as `count` reads them. */
  ghost predicate Made(d: Document, doc: Entry, name: Entry -> string, args: Args, filesOf: Entry -> seq<Entry>,
                       count: Entry -> Result<nat>)
    reads d
  {
    d.Valid() && d.args == args && d.name == name(doc)
    && Total(filesOf(doc), count).Ok? && d.pageCount == Placed(args, Total(filesOf(doc), count).value)
  }

  /** One document made per entry, in the same order. */
  ghost predicate AllMade(ds: seq<Document>, docs: seq<Entry>, name: Entry -> string, args: Args,
                          filesOf: Entry -> seq<Entry>, count: Entry -> Result<nat>)
    reads ds
  {
    |ds| == |docs| && forall i :: 0 <= i < |ds| ==> Made(ds[i], docs[i], name, args, filesOf, count)
  }

  /** The name `Document(doc, ...)` gives under `args`. */
  function NameTest(args: Args): Entry -> string { (doc: Entry) => LegacyName(Stem(doc.name), args.keepDigits) }

  /** `name` gives what `NameTest(args)` gives; `filesOf` what `FilesTest(args)` gives. Like
      `ReadsPages`, these let the loop below speak of names and files without unfolding them. */
  ghost predicate NamesDocuments(name: Entry -> string, args: Args)
  {
    forall doc {:trigger LegacyName(Stem(doc.name), args.keepDigits)} :: name(doc) == LegacyName(Stem(doc.name), args.keepDigits)
  }

  ghost predicate ListsFiles(filesOf: Entry -> seq<Entry>, args: Args)
  {
    forall doc {:trigger DocumentFiles(doc, args)} :: filesOf(doc) == DocumentFiles(doc, args)
  }

  /** The `list_line` of each document, in order. */
  function Lines(ds: seq<Document>): seq<string>
    reads ds
  {
    if ds == [] then []
    else
      var last := ds[|ds| - 1];
      Lines(ds[..|ds| - 1]) + [ListLine(last.name, last.startPage, last.pageCount, last.args)]
  }

  /** The pages the documents placed, one document after another. */
  function AllPlaced(ds: seq<Document>): seq<Option<nat>>
    reads ds
  {
    if ds == [] then [] else AllPlaced(ds[..|ds| - 1]) + ds[|ds| - 1].placed
  }

  /** The files each document is read from, under `args`. */
  function FilesTest(args: Args): Entry -> seq<Entry> { (d: Entry) => DocumentFiles(d, args) }

  /** Two runs of stamps one after the other are one run. */
  lemma {:induction false} StampsAppend(discoveryMode: bool, start: nat, a: nat, b: nat)
    ensures Stamps(discoveryMode, start, a) + Stamps(discoveryMode, start + a, b) == Stamps(discoveryMode, start, a + b)
    decreases b
  {
    if b > 0 {
      StampsAppend(discoveryMode, start, a, b - 1);
    }
  }

  /** Every page an exhibit's chained documents placed is stamped with its
      own number: 1 to `n` in order, with no gap and no repeat. */
  lemma {:induction false} ChainedStamps(ds: seq<Document>, n: nat, discoveryMode: bool)
    requires Chained(ds, n)
    requires forall i :: 0 <= i < |ds| ==> ds[i].Valid() && ds[i].args.discoveryMode == discoveryMode
    ensures AllPlaced(ds) == Stamps(discoveryMode, 1, n)
    decreases |ds|
  {
    if ds != [] {
      var last := ds[|ds| - 1];
      ChainedStamps(ds[..|ds| - 1], last.startPage - 1, discoveryMode);
      StampsAppend(discoveryMode, 1, last.startPage - 1, last.pageCount);
    }
  }

  /** Without PDF output no document places a page, so every document
      starts on page 1 and its list line shows "(1)". */
  lemma {:induction false} ChainedWithoutPages(ds: seq<Document>, n: nat)
    requires Chained(ds, n)
    requires forall i :: 0 <= i < |ds| ==> ds[i].pageCount == 0
    ensures n == 0
    ensures forall i :: 0 <= i < |ds| ==> ds[i].startPage == 1
    decreases |ds|
  {
    if ds != [] {
      var front := ds[..|ds| - 1];
      ChainedWithoutPages(front, ds[|ds| - 1].startPage - 1);
      assert forall i :: 0 <= i < |front| ==> front[i] == ds[i];
    }
  }

  /** A document that starts right after a chained run extends it. */
  lemma {:induction false} ChainedSnoc(ds: seq<Document>, n: nat, d: Document)
    requires Chained(ds, n) && d.startPage == n + 1
    ensures Chained(ds + [d], n + d.pageCount)
  {
    assert (ds + [d])[..|ds|] == ds;
  }

  lemma {:induction false} AllMadeSnoc(ds: seq<Document>, docs: seq<Entry>, i: nat, d: Document, name: Entry -> string,
                                        args: Args, filesOf: Entry -> seq<Entry>, count: Entry -> Result<nat>)
    requires i < |docs| && AllMade(ds, docs[..i], name, args, filesOf, count)
    requires Made(d, docs[i], name, args, filesOf, count)
    ensures AllMade(ds + [d], docs[..i + 1], name, args, filesOf, count)
  {
    assert docs[..i + 1] == docs[..i] + [docs[i]];
  }

  lemma {:induction false} LinesSnoc(ds: seq<Document>, d: Document)
    ensures Lines(ds + [d]) == Lines(ds) + [ListLine(d.name, d.startPage, d.pageCount, d.args)]
  {
    assert (ds + [d])[..|ds|] == ds;
  }

  /** An exhibit: its index, title, name and disputes, the documents
      included so far, their pages and the description listing them. */
  class Exhibit {
    const index: string
    const title: string
    const name: string
    const disputes: string
    var description: string
    var documents: seq<Document>
    var pageCount: nat

    /** `Exhibit(path)`: the index, title, name and first description come
        from the folder's stem, the disputes from its disputes file. */
    constructor (path: Entry)
      ensures var h := HeadingOf(Stem(path.name));
        index == h.index && title == h.title && name == h.name && description == h.description
      ensures disputes == if path.Folder? && path.disputes.Some? then path.disputes.value else ""
      ensures documents == [] && pageCount == 0
    {
      var h := HeadingOf(Stem(path.name));
      index := h.index;
      title := h.title;
      name := h.name;
      description := h.description;
      disputes := if path.Folder? && path.disputes.Some? then path.disputes.value else "";
      documents := [];
      pageCount := 0;
    }

    /** `Exhibit.include`: the document is appended, its pages are added to
        the exhibit's, and its list line becomes a new paragraph of the description. */
    method Include(doc: Document)
      modifies this
      ensures documents == old(documents) + [doc] && pageCount == old(pageCount) + doc.pageCount
      ensures description == AppendParagraph(old(description), ListLine(doc.name, doc.startPage, doc.pageCount, doc.args))
    {
      documents := documents + [doc];
      if description != "" {
        description := description + Separator;
      }
      pageCount := pageCount + doc.pageCount;
      description := description + ListLine(doc.name, doc.startPage, doc.pageCount, doc.args);
    }

    /** `listRow`. */
    function ListRow(): Row
      reads this
    {
      Row(index, "X", "", description, disputes)
    }

    /** The loop of the main program over the sorted entries of the exhibit
        folder `x`: each entry that passes `is_document` becomes a document
        starting after the exhibit's pages so far and is included, and the
        first failure ends it. */
    method AddDocuments(x: Entry, args: Args) returns (err: Option<Error>)
      requires x.Folder? && documents == [] && pageCount == 0
      modifies this
      ensures var total := Total(Concat(Filter(x.children, DocumentTest(args)), FilesTest(args)), PagesOf);
        (err.None? <==> total.Ok?) && (err.Some? ==> err.value == total.error)
        && (err.None? ==> pageCount == Placed(args, total.value))
      ensures err.None? ==> Chained(documents, pageCount)
      ensures err.None? ==>
        AllMade(documents, Filter(x.children, DocumentTest(args)), NameTest(args), args, FilesTest(args), PagesOf)
      ensures err.None? ==> description == AppendAll(old(description), Lines(documents))
    {
      err := AddAll(Filter(x.children, DocumentTest(args)), args, PagesOf, FilesTest(args), NameTest(args));
    }

    /** That loop over the documents `docs`; `count`, `filesOf` and `name`
        stand for `PagesOf`, `FilesTest(args)` and `NameTest(args)`. */
    method AddAll(docs: seq<Entry>, args: Args, ghost count: Entry -> Result<nat>, ghost filesOf: Entry -> seq<Entry>,
                  ghost name: Entry -> string)
      returns (err: Option<Error>)
      requires ReadsPages(count) && ListsFiles(filesOf, args) && NamesDocuments(name, args)
      requires documents == [] && pageCount == 0
      modifies this
      ensures var total := Total(Concat(docs, filesOf), count);
        (err.None? <==> total.Ok?) && (err.Some? ==> err.value == total.error)
        && (err.None? ==> pageCount == Placed(args, total.value))
      ensures err.None? ==> Chained(documents, pageCount) && AllMade(documents, docs, name, args, filesOf, count)
      ensures err.None? ==> description == AppendAll(old(description), Lines(documents))
    {
      ghost var t: nat := 0;
      var i := 0;
      while i < |docs|
        invariant 0 <= i <= |docs| && Chained(documents, pageCount) && AllMade(documents, docs[..i], name, args, filesOf, count)
        invariant Total(Concat(docs[..i], filesOf), count) == Ok(t) && pageCount == Placed(args, t)
        invariant description == AppendAll(old(description), Lines(documents))
      {
        var next;
        next, t := AddNext(docs, i, args, count, filesOf, name, t, old(description));
        if next.Err? {
          return Some(next.error);
        }
        i := i + 1;
      }
      assert docs[..i] == docs;
      err := None;
    }

    /** One turn of that loop, on the entry at position `i`. */
    method AddNext(docs: seq<Entry>, i: nat, args: Args, ghost count: Entry -> Result<nat>,
                   ghost filesOf: Entry -> seq<Entry>, ghost name: Entry -> string, ghost t: nat, ghost d0: string)
      returns (r: Result<Document>, ghost t': nat)
      requires ReadsPages(count) && ListsFiles(filesOf, args) && NamesDocuments(name, args)
      requires i < |docs| && Chained(documents, pageCount) && AllMade(documents, docs[..i], name, args, filesOf, count)
      requires Total(Concat(docs[..i], filesOf), count) == Ok(t) && pageCount == Placed(args, t)
      requires description == AppendAll(d0, Lines(documents))
      modifies this
      ensures r.Err? ==> Total(Concat(docs, filesOf), count) == Err(r.error)
      ensures r.Ok? ==> Chained(documents, pageCount) && AllMade(documents, docs[..i + 1], name, args, filesOf, count)
      ensures r.Ok? ==> Total(Concat(docs[..i + 1], filesOf), count) == Ok(t') && pageCount == Placed(args, t')
      ensures r.Ok? ==> description == AppendAll(d0, Lines(documents))
    {
      DocumentsStep(docs, i, filesOf, count, t);
      r := Document.New(docs[i], pageCount, args, count, filesOf, name);
      t' := t;
      if r.Ok? {
        t' := IncludeMade(r.value, docs, i, args, count, filesOf, name, t, Total(filesOf(docs[i]), count).value, d0);
      }
    }

    /** The rest of that turn: the document `d` made from the entry at
        position `i` is included. */
    method IncludeMade(d: Document, docs: seq<Entry>, i: nat, args: Args, ghost count: Entry -> Result<nat>,
                       ghost filesOf: Entry -> seq<Entry>, ghost name: Entry -> string, ghost t: nat, ghost x: nat,
                       ghost d0: string)
      returns (ghost t': nat)
      requires i < |docs| && Chained(documents, pageCount) && AllMade(documents, docs[..i], name, args, filesOf, count)
      requires Total(Concat(docs[..i + 1], filesOf), count) == Ok(t + x) && pageCount == Placed(args, t)
      requires description == AppendAll(d0, Lines(documents))
      requires Made(d, docs[i], name, args, filesOf, count) && d.startPage == pageCount + 1
      requires d.pageCount == Placed(args, x)
      modifies this
      ensures Chained(documents, pageCount) && AllMade(documents, docs[..i + 1], name, args, filesOf, count)
      ensures Total(Concat(docs[..i + 1], filesOf), count) == Ok(t') && pageCount == Placed(args, t')
      ensures description == AppendAll(d0, Lines(documents))
    {
      ghost var before := documents;
      ChainedSnoc(before, pageCount, d);
      AllMadeSnoc(before, docs, i, d, name, args, filesOf, count);
      LinesSnoc(before, d);
      AppendAllSnoc(d0, Lines(before), ListLine(d.name, d.startPage, d.pageCount, d.args));
      Include(d);
      t' := t + x;
    }
  }

  // ---------------------------------------------------------------------
  // The exhibit list
  // ---------------------------------------------------------------------

  const RebuttalText: string := "Reserved for Rebuttal"

  /** The exhibits included so far and the rows of the list's table. */
  class ExhibitList {
    var exhibits: seq<Exhibit>
    var rows: seq<Row>

    constructor ()
      ensures exhibits == [] && rows == []
    {
      exhibits := [];
      rows := [];
    }

    /** `ExhibitList.include`: the exhibit is appended and its row, as `listRow` gives it now, added to the table. */
    method Include(exhibit: Exhibit)
      modifies this
      ensures exhibits == old(exhibits) + [exhibit]
      ensures rows == old(rows) + [Row(exhibit.index, "X", "", exhibit.description, exhibit.disputes)]
    {
      exhibits := exhibits + [exhibit];
      rows := rows + [exhibit.ListRow()];
    }

    /** `reserve_rebuttal`: a row for the index after the last exhibit's.
        With no exhibit `[-1]` raises; otherwise the successor may fail
        as `NextIndex` says, and then no row is added. */
    method ReserveRebuttal() returns (err: Option<Error>)
      modifies this
      ensures exhibits == old(exhibits)
      ensures exhibits == [] ==> err == Some(IndexError) && rows == old(rows)
      ensures exhibits != [] ==>
        var next := NextIndex(exhibits[|exhibits| - 1].index);
        (err.None? <==> next.Ok?)
        && (next.Err? ==> err == Some(next.error) && rows == old(rows))
        && (next.Ok? ==> rows == old(rows) + [Row(next.value, "X", "", RebuttalText, "")])
    {
      if exhibits == [] {
        return Some(IndexError);
      }
      var next := NextIndex(exhibits[|exhibits| - 1].index);
      if next.Err? {
        return Some(next.error);
      }
      rows := rows + [Row(next.value, "X", "", RebuttalText, "")];
      err := None;
    }
  }
}
