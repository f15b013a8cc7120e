/** The current revision of Exhibiter (exhibiter/__init__.py): the rules
    that turn an exhibit's folder or file name into its index and title,
    the `Exhibit` object that counts and labels pages as documents are
    added to it, the choice of evidence inside an exhibit folder, and the
    rows of the exhibit list. */
module Exhibiter {
  import opened Outcomes
  import opened Text
  import opened Files
  import opened Naming

  /** `FILE_TYPES`: the extensions (after the dot) of the files the program accepts. */
  predicate IsFileType(x: string)
  {
    x == "png" || x == "PNG" || x == "jpg" || x == "JPG" || x == "jpeg" || x == "JPEG" || x == "pdf" || x == "PDF"
  }

  // ---------------------------------------------------------------------
  // The exclude tag: `\((UNUSED|[Uu]nused)\)`
  // ---------------------------------------------------------------------

  predicate IsExcludeTag(t: string) { t == "(UNUSED)" || t == "(Unused)" || t == "(unused)" }

  predicate ExcludeTagAt(s: string, i: int)
  {
    0 <= i && i + 8 <= |s| && IsExcludeTag(s[i..i + 8])
  }

  /** `search(EXCLUDE_PATTERN, s)`. */
  predicate HasExcludeTag(s: string)
  {
    exists i | 0 <= i <= |s| :: ExcludeTagAt(s, i)
  }

  lemma {:induction false} ExcludeTagParen(s: string, i: int)
    ensures ExcludeTagAt(s, i) ==> s[i] == '('
  {
    if ExcludeTagAt(s, i) {
      assert s[i..i + 8][0] == s[i];
    }
  }

  /** `sub(" ?(" + EXCLUDE_PATTERN + ")", "", s)`: scanning left to right,
      each tag is deleted together with one space just before it. */
  function StripExcludeTags(s: string): (r: string)
    ensures |r| <= |s|
    decreases |s|
  {
    if |s| >= 9 && s[0] == ' ' && ExcludeTagAt(s, 1) then StripExcludeTags(s[9..])
    else if ExcludeTagAt(s, 0) then StripExcludeTags(s[8..])
    else if s == [] then []
    else [s[0]] + StripExcludeTags(s[1..])
  }

  /** A character that neither opens a tag nor is a space in front of one is kept. */
  lemma {:induction false} StripExcludeTagsPlain(c: char, t: string)
    requires c != '(' || !ExcludeTagAt([c] + t, 0)
    requires !(c == ' ' && ExcludeTagAt(t, 0))
    ensures StripExcludeTags([c] + t) == [c] + StripExcludeTags(t)
  {
    var s := [c] + t;
    assert s[1..] == t && s[0] == c;
    assert ExcludeTagAt(s, 1) ==> ExcludeTagAt(t, 0) by {
      if ExcludeTagAt(s, 1) {
        assert s[1..9] == t[0..8];
      }
    }
    ExcludeTagParen(s, 0);
  }

  /** A name without the tag passes through unchanged. */
  lemma {:induction false} StripExcludeTagsKeeps(s: string)
    requires !HasExcludeTag(s)
    ensures StripExcludeTags(s) == s
    decreases |s|
  {
    if s != [] {
      assert !ExcludeTagAt(s, 0) && !ExcludeTagAt(s, 1);
      assert !HasExcludeTag(s[1..]) by {
        forall i | 0 <= i <= |s[1..]| ensures !ExcludeTagAt(s[1..], i) {
          if ExcludeTagAt(s[1..], i) {
            assert s[1..][i..i + 8] == s[i + 1..i + 9];
            assert ExcludeTagAt(s, i + 1);
          }
        }
      }
      StripExcludeTagsKeeps(s[1..]);
      StripExcludeTagsPlain(s[0], s[1..]);
      assert [s[0]] + s[1..] == s;
    }
  }

  /** A prefix without '(' is kept as it is when what follows it does not start with '('. */
  lemma {:induction false} StripExcludeTagsPlainPrefix(x: string, t: string)
    requires NoChar(x, '(') && t != [] && t[0] != '('
    ensures StripExcludeTags(x + t) == x + StripExcludeTags(t)
  {
    if x == [] {
      assert x + t == t;
    } else {
      var rest := x[1..] + t;
      NotTagAfterPlainChar(x, t);
      calc {
        StripExcludeTags(x + t);
        { assert x + t == [x[0]] + rest; }
        StripExcludeTags([x[0]] + rest);
        { StripExcludeTagsPlain(x[0], rest); }
        [x[0]] + StripExcludeTags(rest);
        { StripExcludeTagsPlainPrefix(x[1..], t); }
        [x[0]] + (x[1..] + StripExcludeTags(t));
        x + StripExcludeTags(t);
      }
    }
  }

  /** "name (UNUSED)rest" loses the tag and the one space before it. */
  lemma {:induction false} StripExcludeTagsSpaced(x: string, tag: string, y: string)
    requires NoChar(x, '(') && IsExcludeTag(tag)
    ensures StripExcludeTags(x + " " + tag + y) == x + StripExcludeTags(y)
  {
    var t := " " + tag + y;
    assert x + " " + tag + y == x + t;
    StripExcludeTagsPlainPrefix(x, t);
    assert t[1..9] == tag && t[9..] == y;
    assert |t| >= 9 && t[0] == ' ' && ExcludeTagAt(t, 1);
  }

  /** "name(UNUSED)rest" loses just the tag when no space precedes it. */
  lemma {:induction false} StripExcludeTagsBare(x: string, tag: string, y: string)
    requires NoChar(x, '(') && IsExcludeTag(tag) && (x == [] || x[|x| - 1] != ' ')
    ensures StripExcludeTags(x + tag + y) == x + StripExcludeTags(y)
  {
    TagFirst(tag, y);
    if x != [] {
      BareAfterText(x, tag, y);
    } else {
      assert x + tag + y == tag + y;
    }
  }

  lemma {:induction false} BareAfterText(x: string, tag: string, y: string)
    requires x != [] && NoChar(x, '(') && IsExcludeTag(tag) && x[|x| - 1] != ' '
    requires StripExcludeTags(tag + y) == StripExcludeTags(y) && (tag + y)[0] == '('
    ensures StripExcludeTags(x + tag + y) == x + StripExcludeTags(y)
  {
    var front, last := x[..|x| - 1], x[|x| - 1];
    assert x + tag + y == front + ([last] + (tag + y));
    assert front + [last] == x;
    LastPlainBeforeTag(front, last, tag, y);
  }

  lemma {:induction false} LastPlainBeforeTag(front: string, last: char, tag: string, y: string)
    requires NoChar(front, '(') && last != '(' && last != ' ' && IsExcludeTag(tag)
    requires StripExcludeTags(tag + y) == StripExcludeTags(y) && (tag + y)[0] == '('
    ensures StripExcludeTags(front + ([last] + (tag + y))) == front + [last] + StripExcludeTags(y)
  {
    StripExcludeTagsPlain(last, tag + y);
    StripExcludeTagsPlainPrefix(front, [last] + (tag + y));
  }

  lemma {:induction false} TagFirst(tag: string, y: string)
    requires IsExcludeTag(tag)
    ensures (tag + y)[0] == '('
    ensures StripExcludeTags(tag + y) == StripExcludeTags(y)
  {
    var t := tag + y;
    assert t[0..8] == tag && t[8..] == y;
    assert ExcludeTagAt(t, 0) && t[0] == '(';
  }

  /** No tag starts right after the first character of `x` when `x` holds no '(' and `t` does not start with one. */
  lemma {:induction false} NotTagAfterPlainChar(x: string, t: string)
    requires x != [] && NoChar(x, '(') && (t == [] || t[0] != '(')
    ensures !ExcludeTagAt(x[1..] + t, 0)
  {
    var rest := x[1..] + t;
    assert rest == [] || rest[0] != '(' by {
      if |x| > 1 {
        assert rest[0] == x[1];
      } else {
        assert rest == t;
      }
    }
    ExcludeTagParen(rest, 0);
  }

  lemma {:induction false} NoExcludeTagAfterPlainPrefix(x: string, y: string)
    requires NoChar(x, '(') && !HasExcludeTag(y)
    ensures !HasExcludeTag(x + y)
  {
    forall i | 0 <= i <= |x + y| ensures !ExcludeTagAt(x + y, i) {
      ExcludeTagParen(x + y, i);
      if ExcludeTagAt(x + y, i) {
        assert (x + y)[i..i + 8] == y[i - |x|..i - |x| + 8];
        assert ExcludeTagAt(y, i - |x|);
      }
    }
  }

  // ---------------------------------------------------------------------
  // _process_filename
  // ---------------------------------------------------------------------

  /** A file name made into a document description: tags go, a leading
      "YYYY-MM-DD " date moves to the end as "M/D/YY", and otherwise (when
      asked) a leading "<digits>. " goes. */
  function ProcessFilename(name: string, stripLeadingDigits: bool): string
  {
    var untagged := StripExcludeTags(name);
    if IsDated(untagged) then MoveDate(untagged)
    else if stripLeadingDigits then StripNumberPrefix(untagged)
    else untagged
  }

  /** "2022-01-15 Photo" is described as "Photo 1/15/22", whether or not leading digits are stripped. */
  lemma {:induction false} ProcessFilenameOfDated(year: nat, month: nat, day: nat, rest: string, stripLeadingDigits: bool)
    requires year < 10000 && 1 <= month < 100 && 1 <= day < 100
    requires rest != [] && rest[0] != '\n' && !HasExcludeTag(rest)
    ensures ProcessFilename(IsoDate(year, month, day) + " " + rest, stripLeadingDigits)
         == rest + " " + NatToString(month) + "/" + NatToString(day) + "/" + Padded(year % 100, 2)
  {
    var prefix := IsoDate(year, month, day) + " ";
    IsoDateHasNoParen(year, month, day);
    NoExcludeTagAfterPlainPrefix(prefix, rest);
    StripExcludeTagsKeeps(prefix + rest);
    MoveDateOfIso(year, month, day, rest);
  }

  /** "3. Lease" is described as "Lease" when leading digits are stripped, and kept whole otherwise. */
  lemma {:induction false} ProcessFilenameOfNumbered(digits: string, rest: string)
    requires digits != [] && AllDigits(digits) && !HasExcludeTag(rest)
    ensures ProcessFilename(digits + ". " + rest, true) == rest
    ensures ProcessFilename(digits + ". " + rest, false) == digits + ". " + rest
  {
    var prefix := digits + ". ";
    DigitsHaveNoChar(digits, '(');
    NoCharConcat(digits, ". ", '(');
    NoExcludeTagAfterPlainPrefix(prefix, rest);
    StripExcludeTagsKeeps(prefix + rest);
    assert digits + ". " + rest == digits + "." + (" " + rest);
    NumberedIsNotDated(digits, " " + rest);
    StripNumberPrefixOf(digits, rest);
  }

  /** A numbered, tagged name such as "2. Addendum (UNUSED)" is described as "Addendum". */
  lemma {:induction false} ProcessFilenameDropsTag(digits: string, title: string, tag: string)
    requires digits != [] && AllDigits(digits) && NoChar(title, '(') && IsExcludeTag(tag)
    ensures ProcessFilename(digits + ". " + title + " " + tag, true) == title
  {
    var head := digits + ". " + title;
    DigitsHaveNoChar(digits, '(');
    NoCharConcat(digits, ". ", '(');
    NoCharConcat(digits + ". ", title, '(');
    StripExcludeTagsSpaced(head, tag, "");
    assert head + " " + tag + "" == digits + ". " + title + " " + tag;
    assert head + StripExcludeTags("") == head;
    assert head == digits + "." + (" " + title);
    NumberedIsNotDated(digits, " " + title);
    StripNumberPrefixOf(digits, title);
  }

  // ---------------------------------------------------------------------
  // Exhibit names
  // ---------------------------------------------------------------------

  /** Length of the `(\d+|[A-Y])` the name starts with: its whole run of
      digits, else one letter A-Y, else 0. */
  function IndexLength(s: string): (k: nat)
    ensures k <= |s|
  {
    if DigitRun(s) > 0 then DigitRun(s)
    else if s != [] && IsIndexLetter(s[0]) then 1
    else 0
  }

  /** What may follow the index: `(\.?( .+)?)?` to the end. */
  predicate ValidTail(t: string)
  {
    t == [] || t == "."
    || (|t| >= 2 && t[0] == ' ' && NoNewline(t[1..]))
    || (|t| >= 3 && t[0] == '.' && t[1] == ' ' && NoNewline(t[2..]))
  }

  /** `fullmatch("^(\d+|[A-Y])(\.?( .+)?)?", s)`, the rule for every exhibit name. */
  predicate ValidExhibitStem(s: string)
  {
    IndexLength(s) > 0 && ValidTail(s[IndexLength(s)..])
  }

  /** `fullmatch("^(\d+|[A-Y])\. .+", s)`, the rule for a single-file exhibit: a title is required. */
  predicate ValidSingleDocumentStem(s: string)
  {
    var k := IndexLength(s);
    k > 0 && k + 3 <= |s| && s[k] == '.' && s[k + 1] == ' ' && NoNewline(s[k + 2..])
  }

  /** An exhibit index: a number, or one letter A-Y. */
  predicate IsIndex(idx: string)
  {
    (idx != [] && AllDigits(idx)) || (|idx| == 1 && IsIndexLetter(idx[0]))
  }

  lemma {:induction false} IndexLengthOf(idx: string, rest: string)
    requires IsIndex(idx) && (rest == [] || rest[0] == '.' || rest[0] == ' ')
    ensures IndexLength(idx + rest) == |idx|
  {
    if AllDigits(idx) && idx != [] {
      DigitRunOf(idx, rest);
    } else {
      assert (idx + rest)[0] == idx[0];
      DigitRunOf([], idx + rest);
      assert [] + (idx + rest) == idx + rest;
    }
  }

  /** The names "101", "101 Lease", "101. Lease" and (for a file) "101. Lease" pass,
      and whatever passes starts with an index. */
  lemma {:induction false} ValidExhibitStemOf(idx: string, title: string)
    requires IsIndex(idx) && title != [] && NoNewline(title)
    ensures ValidExhibitStem(idx)
    ensures ValidExhibitStem(idx + " " + title)
    ensures ValidExhibitStem(idx + ". " + title)
    ensures ValidSingleDocumentStem(idx + ". " + title)
  {
    IndexLengthOf(idx, []);
    assert idx + [] == idx;
    IndexLengthOf(idx, " " + title);
    assert idx + " " + title == idx + (" " + title);
    assert (idx + " " + title)[|idx|..] == " " + title;
    assert (" " + title)[1..] == title;
    IndexLengthOf(idx, ". " + title);
    assert idx + ". " + title == idx + (". " + title);
    assert (idx + ". " + title)[|idx|..] == ". " + title;
    assert (". " + title)[2..] == title;
    assert (idx + ". " + title)[|idx| + 2..] == title;
  }

  /** Every valid name starts with an index; every single-file name is also a valid exhibit name. */
  lemma {:induction false} ValidExhibitStemStartsWithIndex(s: string)
    requires ValidExhibitStem(s) || ValidSingleDocumentStem(s)
    ensures ValidExhibitStem(s)
    ensures IsIndex(s[..IndexLength(s)])
  {
    var k := IndexLength(s);
    if ValidSingleDocumentStem(s) {
      assert s[k..][0] == '.' && s[k..][1] == ' ';
      assert s[k..][2..] == s[k + 2..];
    }
    if DigitRun(s) == 0 {
      assert s[..k] == [s[0]];
    }
  }

  /** `sub("^(\d+|[A-Z])\. ", "", s)`: the title of a single-file exhibit. */
  function StripIndexPrefix(s: string): string
  {
    var k := if DigitRun(s) > 0 then DigitRun(s) else if s != [] && 'A' <= s[0] <= 'Z' then 1 else 0;
    if k > 0 && k + 2 <= |s| && s[k] == '.' && s[k + 1] == ' ' then s[k + 2..] else s
  }

  lemma {:induction false} StripIndexPrefixOf(idx: string, title: string)
    requires IsIndex(idx)
    ensures StripIndexPrefix(idx + ". " + title) == title
  {
    IndexLengthOf(idx, ". " + title);
    assert idx + ". " + title == idx + (". " + title);
    assert (idx + ". " + title)[|idx| + 2..] == title;
  }

  // ---------------------------------------------------------------------
  // Index and title of an exhibit (from_path, lines 52-88)
  // ---------------------------------------------------------------------

  datatype Header = Header(index: string, title: Option<string>)

  /** The checks and the split of `from_path`, applied to `stem` as the text naming the exhibit. */
  function HeaderFrom(e: Entry, stem: string): Result<Header>
  {
    if !ValidExhibitStem(stem) then Err(SyntaxError(stem))
    else if e.File? && !IsFileType(Extension(e.name)) then Err(SyntaxError(e.name))
    else if e.File? && !ValidSingleDocumentStem(stem) then Err(SyntaxError(e.name))
    else
      var parts := SplitOnce(ProcessFilename(stem, false), ". ");
      Ok(Header(parts.0, if e.Folder? then parts.1 else None))
  }

  /** As written: the name is read through `Path.stem` even for a folder,
      which cuts a folder name at its last dot. */
  function ExhibitHeaderAsWritten(e: Entry): Result<Header>
  {
    HeaderFrom(e, Stem(e.name))
  }

  /** The text an exhibit is named by: a folder's whole name, a file's stem. */
  function ExhibitStem(e: Entry): string
  {
    if e.Folder? then e.name else Stem(e.name)
  }

  /** Corrected: a folder is named by its whole name. */
  function ExhibitHeader(e: Entry): Result<Header>
  {
    HeaderFrom(e, ExhibitStem(e))
  }

  /** A name made of an index and a tag-free rest is not touched by `_process_filename(name, False)`. */
  lemma {:induction false} ProcessFilenameOfIndexed(idx: string, rest: string)
    requires IsIndex(idx) && (rest == [] || rest[0] == '.' || rest[0] == ' ') && !HasExcludeTag(rest)
    ensures ProcessFilename(idx + rest, false) == idx + rest
  {
    assert NoChar(idx, '(');
    NoExcludeTagAfterPlainPrefix(idx, rest);
    StripExcludeTagsKeeps(idx + rest);
    IndexIsNotDated(idx, rest);
  }

  lemma {:induction false} NoExcludeTagInPlain(s: string)
    requires NoChar(s, '(')
    ensures !HasExcludeTag(s)
  {
    forall i | 0 <= i <= |s| ensures !ExcludeTagAt(s, i) {
      ExcludeTagParen(s, i);
    }
  }

  lemma {:induction false} IndexIsNotDated(idx: string, rest: string)
    requires IsIndex(idx) && (rest == [] || rest[0] == '.' || rest[0] == ' ')
    ensures !IsDated(idx + rest)
  {
    var s := idx + rest;
    if |s| >= 12 {
      if |idx| <= 4 {
        assert s[0..4][|idx| - 1] == idx[|idx| - 1];
        if |idx| < 4 {
          assert s[0..4][|idx|] == rest[0];
        }
      } else {
        assert s[4] == idx[4];
      }
    }
  }

  /** The index ends at the first ". ", and a folder's title is what follows it. */
  lemma {:induction false} HeaderFromIndexed(e: Entry, idx: string, title: string)
    requires IsIndex(idx) && title != [] && NoNewline(title) && !HasExcludeTag(title)
    requires e.Folder? || IsFileType(Extension(e.name))
    ensures HeaderFrom(e, idx + ". " + title) == Ok(Header(idx, if e.Folder? then Some(title) else None))
  {
    ValidExhibitStemOf(idx, title);
    assert idx + ". " + title == idx + (". " + title);
    NoExcludeTagAfterPlainPrefix(". ", title);
    ProcessFilenameOfIndexed(idx, ". " + title);
    SplitOnceAt(idx, ". ", title);
  }

  /** A folder "102. Party Communications" has index "102" and title "Party Communications". */
  lemma {:induction false} ExhibitHeaderOfTitledFolder(idx: string, title: string, children: seq<Entry>, disputes: Option<string>)
    requires IsIndex(idx) && title != [] && NoNewline(title) && !HasExcludeTag(title)
    ensures ExhibitHeader(Folder(idx + ". " + title, children, disputes)) == Ok(Header(idx, Some(title)))
  {
    HeaderFromIndexed(Folder(idx + ". " + title, children, disputes), idx, title);
  }

  /** A folder named by its index alone ("101", "A") has that index and no title. */
  lemma {:induction false} ExhibitHeaderOfBareFolder(idx: string, children: seq<Entry>, disputes: Option<string>)
    requires IsIndex(idx)
    ensures ExhibitHeader(Folder(idx, children, disputes)) == Ok(Header(idx, None))
  {
    ValidExhibitStemOfIndex(idx);
    NoExcludeTagInPlain([]);
    ProcessFilenameOfIndexed(idx, []);
    assert idx + [] == idx;
    NoSeparatorInIndex(idx);
  }

  lemma {:induction false} ValidExhibitStemOfIndex(idx: string)
    requires IsIndex(idx)
    ensures ValidExhibitStem(idx)
  {
    IndexLengthOf(idx, []);
    assert idx + [] == idx;
  }

  lemma {:induction false} NoSeparatorInIndex(idx: string)
    requires IsIndex(idx)
    ensures !Contains(idx, ". ")
  {
    assert NoChar(idx, '.');
    forall i | 0 <= i <= |idx| ensures !OccursAt(idx, i, ". ") {
      if 0 <= i && i + 2 <= |idx| {
        assert idx[i..i + 2][0] == idx[i];
      }
    }
  }

  /** A single file "101. Rental Agreement.pdf" has index "101" and no title of its own. */
  lemma {:induction false} ExhibitHeaderOfFile(idx: string, title: string, ext: string, content: Content)
    requires IsIndex(idx) && title != [] && NoNewline(title) && !HasExcludeTag(title)
    requires NoChar(title, '.') && IsFileType(ext)
    ensures ExhibitHeader(File(idx + ". " + title + "." + ext, content)) == Ok(Header(idx, None))
    ensures StripIndexPrefix(Stem(idx + ". " + title + "." + ext)) == title
  {
    assert NoChar(ext, '.');
    StemOfDotted(idx + ". " + title, ext);
    HeaderFromIndexed(File(idx + ". " + title + "." + ext, content), idx, title);
    StripIndexPrefixOf(idx, title);
  }

  /** A name that does not start with a number or a letter A-Y is refused with `SyntaxError`. */
  lemma {:induction false} ExhibitHeaderRejectsIndex(s: string, children: seq<Entry>, disputes: Option<string>)
    requires s == [] || (!IsDigit(s[0]) && !IsIndexLetter(s[0]))
    ensures ExhibitHeader(Folder(s, children, disputes)) == Err(SyntaxError(s))
  {
    DigitRunOf([], s);
    assert [] + s == s;
  }

  /** A file whose type is not accepted ("101. Notes.txt") is refused with `SyntaxError`. */
  lemma {:induction false} ExhibitHeaderRejectsType(idx: string, title: string, other: string, content: Content)
    requires IsIndex(idx) && title != [] && NoNewline(title)
    requires other != [] && NoChar(other, '.') && !IsFileType(other)
    ensures ExhibitHeader(File(idx + ". " + title + "." + other, content)) == Err(SyntaxError(idx + ". " + title + "." + other))
  {
    StemOfDotted(idx + ". " + title, other);
    ValidExhibitStemOf(idx, title);
  }

  /** A file named by its index alone ("101.pdf") has no title and is refused with `SyntaxError`. */
  lemma {:induction false} ExhibitHeaderRejectsUntitled(idx: string, ext: string, content: Content)
    requires IsIndex(idx) && IsFileType(ext)
    ensures ExhibitHeader(File(idx + "." + ext, content)) == Err(SyntaxError(idx + "." + ext))
  {
    assert NoChar(ext, '.');
    StemOfDotted(idx, ext);
    ValidExhibitStemOfIndex(idx);
    IndexLengthOf(idx, []);
    assert idx + [] == idx;
    assert !ValidSingleDocumentStem(idx);
  }

  /** As written, a titled folder whose title has no dot loses its title:
      `Path("102. Party Communications").stem` is "102". */
  lemma {:induction false} ExhibitHeaderAsWrittenDropsTitle(idx: string, title: string, children: seq<Entry>, disputes: Option<string>)
    requires IsIndex(idx) && title != [] && NoChar(title, '.')
    ensures ExhibitHeaderAsWritten(Folder(idx + ". " + title, children, disputes)) == Ok(Header(idx, None))
  {
    var name := idx + ". " + title;
    assert NoChar(idx, '.');
    assert name == idx + "." + (" " + title);
    assert NoChar(" " + title, '.');
    StemOfDotted(idx, " " + title);
    ExhibitHeaderOfBareFolder(idx, children, disputes);
  }

  /** The name from the program's own help text shows it. */
  lemma {:induction false} PartyCommunicationsAsWritten()
    ensures ExhibitHeaderAsWritten(Folder("102. Party Communications", [], None)) == Ok(Header("102", None))
    ensures ExhibitHeader(Folder("102. Party Communications", [], None)) == Ok(Header("102", Some("Party Communications")))
  {
    var title := "Party Communications";
    assert "102. Party Communications" == "102" + ". " + title;
    assert NoChar(title, '(') && NoNewline(title) && NoChar(title, '.');
    NoExcludeTagInPlain(title);
    ExhibitHeaderAsWrittenDropsTitle("102", title, [], None);
    ExhibitHeaderOfTitledFolder("102", title, [], None);
  }

  // ---------------------------------------------------------------------
  // Pages and documents
  // ---------------------------------------------------------------------

  /** A page of an exhibit's canvas: the cover sheet, or a finished page
      with the number stamped on it (when pages are numbered) and whether
      its picture was turned. */
  datatype Page = Cover(text: string) | Sheet(number: Option<nat>, rotated: bool)

  /** The first and last page (counted within the exhibit) a document fills. */
  datatype Span = Span(start: nat, end: nat)

  /** An entry of `Exhibit.documents`: its description, pages and the path it came from. */
  datatype Document = Document(name: string, pageSpan: Span, path: string)

  /** The number stamped on page `n`, if pages are numbered. */
  function PageNumber(numberPages: bool, n: nat): Option<nat>
  {
    if numberPages then Some(n) else None
  }

  /** The text stamped on page `n` of exhibit `index`: "101-3". */
  function StampText(index: string, n: nat): string
  {
    index + "-" + NatToString(n)
  }

  /** No two pages of an exhibit carry the same stamp. */
  lemma {:induction false} StampTextInjective(index: string, m: nat, n: nat)
    requires StampText(index, m) == StampText(index, n)
    ensures m == n
  {
    var k := |index| + 1;
    assert StampText(index, m)[k..] == NatToString(m);
    assert StampText(index, n)[k..] == NatToString(n);
    DigitsValueOfNatToString(m);
    DigitsValueOfNatToString(n);
  }

  /** The sheets of pages `from + 1` to `from + count`. */
  function Sheets(numberPages: bool, from: nat, count: nat, rotated: bool): (r: seq<Page>)
    ensures |r| == count
    ensures forall k {:trigger r[k]} :: 0 <= k < count ==> r[k] == Sheet(PageNumber(numberPages, from + k + 1), rotated)
  {
    if count == 0 then []
    else Sheets(numberPages, from, count - 1, rotated) + [Sheet(PageNumber(numberPages, from + count), rotated)]
  }

  /** How `_insert_pdf_or_image` treats a file, by its name. */
  datatype FileKind = PdfFile | PictureFile | Unsupported

  /** ".pdf" and ".PDF" suffixes go to the PDF reader; any other
      extension in FILE_TYPES to the image reader. */
  function KindOf(name: string): FileKind
  {
    var ext := Extension(name);
    if ext == "pdf" || ext == "PDF" then PdfFile
    else if IsFileType(ext) then PictureFile
    else Unsupported
  }

  /** How many pages `_insert_pdf_or_image` adds for a file, or what it raises. */
  function PageCountOf(f: Entry): Result<nat>
  {
    match KindOf(f.name)
    case PdfFile => if f.File? && f.content.Pdf? then Ok(f.content.pages) else Err(Unreadable(f.name))
    case PictureFile => if f.File? && f.content.Image? then Ok(1) else Err(Unreadable(f.name))
    case Unsupported => Err(SyntaxError(f.name))
  }

  /** `count` gives what `PageCountOf` gives. The methods of `Exhibit` take
      the page count as such a ghost parameter, which only ever stands for
      `PageCountOf` itself: under the other name the verifier does not
      unfold the file-name rules where only the totals matter. */
  ghost predicate CountsPages(count: Entry -> Result<nat>)
  {
    forall f {:trigger PageCountOf(f)} :: count(f) == PageCountOf(f)
  }

  /** A picture is turned a quarter when it is wider than tall and turning is enabled. */
  predicate TurnsPicture(f: Entry, rotateLandscapePics: bool)
  {
    rotateLandscapePics && f.File? && f.content.Image? && f.content.width > f.content.height
  }

  function SpanLength(s: Span): int { s.end - s.start + 1 }

  /** The documents fill pages 1 to `n` in order, each starting right after the one before. */
  predicate Tiles(docs: seq<Document>, n: nat)
  {
    if docs == [] then n == 0
    else
      var last := docs[|docs| - 1];
      last.pageSpan.end == n && 1 <= last.pageSpan.start <= n + 1
      && Tiles(docs[..|docs| - 1], last.pageSpan.start - 1)
  }

  /** The pages of all documents together. */
  function TotalLength(docs: seq<Document>): int
  {
    if docs == [] then 0 else TotalLength(docs[..|docs| - 1]) + SpanLength(docs[|docs| - 1].pageSpan)
  }

  /** Documents that tile `n` pages fill exactly `n` pages between them. */
  lemma {:induction false} TilesTotal(docs: seq<Document>, n: nat)
    requires Tiles(docs, n)
    ensures TotalLength(docs) == n
  {
    if docs != [] {
      TilesTotal(docs[..|docs| - 1], docs[|docs| - 1].pageSpan.start - 1);
    }
  }

  /** A document starts on the page after all the pages of the documents before it. */
  lemma {:induction false} TilesStart(docs: seq<Document>, n: nat, i: nat)
    requires Tiles(docs, n) && i < |docs|
    ensures docs[i].pageSpan.start == TotalLength(docs[..i]) + 1
    ensures SpanLength(docs[i].pageSpan) >= 0
  {
    var front := docs[..|docs| - 1];
    var last := docs[|docs| - 1];
    if i == |docs| - 1 {
      TilesTotal(front, last.pageSpan.start - 1);
      assert docs[..i] == front;
    } else {
      TilesStart(front, last.pageSpan.start - 1, i);
      assert front[..i] == docs[..i];
    }
  }

  /** The first document starts on page 1. */
  lemma {:induction false} TilesFirst(docs: seq<Document>, n: nat)
    requires Tiles(docs, n) && docs != []
    ensures docs[0].pageSpan.start == 1
  {
    var front := docs[..|docs| - 1];
    if front != [] {
      TilesFirst(front, docs[|docs| - 1].pageSpan.start - 1);
    }
  }

  /** Each later document starts right after its predecessor ends. */
  lemma {:induction false} TilesContiguous(docs: seq<Document>, n: nat, i: nat)
    requires Tiles(docs, n) && 0 < i < |docs|
    ensures docs[i].pageSpan.start == docs[i - 1].pageSpan.end + 1
  {
    var front := docs[..|docs| - 1];
    if i < |docs| - 1 {
      TilesContiguous(front, docs[|docs| - 1].pageSpan.start - 1, i);
    }
  }

  // ---------------------------------------------------------------------
  // The Exhibit object
  // ---------------------------------------------------------------------

  /** One exhibit being assembled: its cover sheet and pages, its page count, and its documents. */
  class Exhibit {
    const index: string
    const title: Option<string>
    const evidentiaryDisputes: Option<string>
    const numberPages: bool
    const rotateLandscapePics: bool
    var documents: seq<Document>
    var pageCount: nat
    /** What the canvas holds: the cover sheet, then one sheet per finished page. */
    var pages: seq<Page>

    /** Page `k` of the canvas is the `k`-th finished page, labelled `k` when pages are numbered. */
    ghost predicate Valid()
      reads this`pages, this`pageCount
    {
      |pages| == pageCount + 1
      && pages[0] == Cover("EXHIBIT " + index)
      && (forall k {:trigger pages[k]} :: 1 <= k < |pages| ==> pages[k].Sheet? && pages[k].number == PageNumber(numberPages, k))
    }

    /** A bare exhibit with only its cover sheet. */
    constructor (index: string, title: Option<string>, numberPages: bool, rotateLandscapePics: bool,
                 evidentiaryDisputes: Option<string>)
      ensures Valid() && Tiles(documents, pageCount)
      ensures this.index == index && this.title == title && this.numberPages == numberPages
      ensures this.rotateLandscapePics == rotateLandscapePics && this.evidentiaryDisputes == evidentiaryDisputes
      ensures documents == [] && pageCount == 0 && pages == [Cover("EXHIBIT " + index)]
    {
      this.index := index;
      this.title := title;
      this.numberPages := numberPages;
      this.rotateLandscapePics := rotateLandscapePics;
      this.evidentiaryDisputes := evidentiaryDisputes;
      documents := [];
      pageCount := 0;
      pages := [Cover("EXHIBIT " + index)];
    }

    /** `_finish_page`: count the page and label it with its number. */
    method FinishPage(rotated: bool)
      requires Valid()
      modifies this
      ensures Valid()
      ensures pageCount == old(pageCount) + 1 && documents == old(documents)
      ensures pages == old(pages) + [Sheet(PageNumber(numberPages, pageCount), rotated)]
    {
      pageCount := pageCount + 1;
      pages := pages + [Sheet(PageNumber(numberPages, pageCount), rotated)];
    }

    /** `_insert_pdf_or_image`: one page per PDF page, or one page for a
        picture; on an error nothing is added. `count` is `PageCountOf`
        under another name (see `CountsPages`). */
    method InsertPdfOrImage(f: Entry, ghost count: Entry -> Result<nat>) returns (err: Option<Error>)
      requires Valid() && CountsPages(count)
      modifies this
      ensures Valid() && documents == old(documents)
      ensures err.None? <==> count(f).Ok?
      ensures err.Some? ==> count(f) == Err(err.value) && pageCount == old(pageCount) && pages == old(pages)
      ensures err.None? ==> pageCount == old(pageCount) + count(f).value
      ensures err.None? ==> pages == old(pages) + Sheets(numberPages, old(pageCount),
                                                          count(f).value, TurnsPicture(f, rotateLandscapePics))
    {
      assert count(f) == PageCountOf(f);
      var kind := KindOf(f.name);
      if kind == PdfFile {
        if !(f.File? && f.content.Pdf?) {
          return Some(Unreadable(f.name));
        }
        AddSheets(f.content.pages, false);
      } else if kind == PictureFile {
        if !(f.File? && f.content.Image?) {
          return Some(Unreadable(f.name));
        }
        AddSheets(1, rotateLandscapePics && f.content.width > f.content.height);
      } else {
        return Some(SyntaxError(f.name));
      }
      err := None;
    }

    /** Finishes `count` pages in a row, all turned alike. */
    method AddSheets(count: nat, rotated: bool)
      requires Valid()
      modifies this
      ensures Valid() && documents == old(documents)
      ensures pageCount == old(pageCount) + count
      ensures pages == old(pages) + Sheets(numberPages, old(pageCount), count, rotated)
    {
      var i := 0;
      while i < count
        invariant 0 <= i <= count && Valid() && documents == old(documents)
        invariant pageCount == old(pageCount) + i
        invariant pages == old(pages) + Sheets(numberPages, old(pageCount), i, rotated)
      {
        FinishPage(rotated);
        i := i + 1;
      }
    }

    /** `add_doc`: adds every file of the document (for a folder, its files
        at any depth with an accepted extension, less the tagged ones when
        exclusions are respected), then records the document with the pages
        it filled. The first file that fails ends it, before the record.
        `count` is `PageCountOf` (see `CountsPages`). */
    method AddDoc(doc: Entry, respectExclusions: bool, stripLeadingDigits: bool, title: Option<string>,
                  ghost count: Entry -> Result<nat>)
      returns (err: Option<Error>)
      requires Valid() && CountsPages(count)
      modifies this
      ensures Valid()
      ensures err.None? <==> Total(DocumentFiles(doc, respectExclusions), count).Ok?
      ensures err.Some? ==> err.value == Total(DocumentFiles(doc, respectExclusions), count).error
      ensures err.Some? ==> documents == old(documents)
      ensures err.None? ==> pageCount == old(pageCount) + Total(DocumentFiles(doc, respectExclusions), count).value
      ensures err.None? ==>
        documents == old(documents)
          + [Document(DocumentName(doc, stripLeadingDigits, title), Span(old(pageCount) + 1, pageCount), doc.name)]
      ensures err.None? && old(Tiles(documents, pageCount)) ==> Tiles(documents, pageCount)
    {
      var startpage := pageCount + 1;
      var name := DocumentName(doc, stripLeadingDigits, title);
      err := InsertDocument(doc, respectExclusions, count);
      if err.Some? {
        return;
      }
      Record(Document(name, Span(startpage, pageCount), doc.name));
    }

    /** The record `add_doc` keeps of a document whose pages run from just
        after the earlier documents' to the last page added. */
    method Record(d: Document)
      requires d.pageSpan.end == pageCount && 1 <= d.pageSpan.start <= pageCount + 1
      modifies this`documents
      ensures documents == old(documents) + [d]
      ensures Tiles(old(documents), d.pageSpan.start - 1) ==> Tiles(documents, pageCount)
    {
      documents := documents + [d];
      assert documents[..|documents| - 1] == old(documents);
    }

    /** The pages of one document: every file `add_doc` keeps of a folder,
        or the single file. */
    method InsertDocument(doc: Entry, respectExclusions: bool, ghost count: Entry -> Result<nat>)
      returns (err: Option<Error>)
      requires Valid() && CountsPages(count)
      modifies this
      ensures Valid() && documents == old(documents)
      ensures err.None? <==> Total(DocumentFiles(doc, respectExclusions), count).Ok?
      ensures err.Some? ==> err.value == Total(DocumentFiles(doc, respectExclusions), count).error
      ensures err.None? ==> pageCount == old(pageCount) + Total(DocumentFiles(doc, respectExclusions), count).value
    {
      if doc.Folder? {
        err := InsertFiles(Globbed(doc), KeepTest(respectExclusions), count);
      } else {
        err := InsertPdfOrImage(doc, count);
        TotalOne(doc, count);
      }
    }

    /** The loop of `add_doc` over a folder's files in order: the files
        `keep` refuses (the tagged ones, when exclusions are respected) are
        skipped, and the first failure ends it. */
    method InsertFiles(paths: seq<Entry>, keep: Entry -> bool, ghost count: Entry -> Result<nat>) returns (err: Option<Error>)
      requires Valid() && CountsPages(count)
      modifies this
      ensures Valid() && documents == old(documents)
      ensures err.None? <==> Total(Filter(paths, keep), count).Ok?
      ensures err.Some? ==> err.value == Total(Filter(paths, keep), count).error
      ensures err.None? ==> pageCount == old(pageCount) + Total(Filter(paths, keep), count).value
    {
      var i := 0;
      while i < |paths|
        invariant 0 <= i <= |paths| && Valid() && documents == old(documents)
        invariant pageCount >= old(pageCount)
        invariant Total(Filter(paths[..i], keep), count) == Ok(pageCount - old(pageCount))
      {
        err := InsertNext(paths, i, keep, count, old(pageCount));
        if err.Some? {
          return;
        }
        i := i + 1;
      }
      assert paths[..i] == paths;
      err := None;
    }

    /** One turn of that loop, on the file at position `i`. */
    method InsertNext(paths: seq<Entry>, i: nat, keep: Entry -> bool, ghost count: Entry -> Result<nat>, ghost base: nat)
      returns (err: Option<Error>)
      requires Valid() && CountsPages(count) && i < |paths| && pageCount >= base
      requires Total(Filter(paths[..i], keep), count) == Ok(pageCount - base)
      modifies this
      ensures Valid() && documents == old(documents) && pageCount >= base
      ensures err.None? ==> Total(Filter(paths[..i + 1], keep), count) == Ok(pageCount - base)
      ensures err.Some? ==> Total(Filter(paths, keep), count) == Err(err.value)
    {
      if !keep(paths[i]) {
        FilesSkip(paths, i, keep, count, pageCount - base);
        return None;
      }
      KeptStep(paths, i, keep, count, pageCount - base, count(paths[i]));
      err := InsertPdfOrImage(paths[i], count);
    }

    /** The loop of `from_path` over the evidence of a folder exhibit, on
        the new exhibit: each document is added in turn (exclusions
        respected, as `add_doc`'s default has it), and the first failure
        ends it. `count` is `PageCountOf`, `filesOf` is `EvidenceFiles` and
        `name` the description `add_doc` gives a document (see
        `CountsPages`, `ListsFiles` and `NamesDocuments`). */
    method AddEvidence(docs: seq<Entry>, stripLeadingDigits: bool, ghost count: Entry -> Result<nat>,
                       ghost filesOf: Entry -> seq<Entry>, ghost name: Entry -> string)
      returns (err: Option<Error>)
      requires Valid() && CountsPages(count) && ListsFiles(filesOf) && NamesDocuments(name, stripLeadingDigits)
      requires documents == [] && pageCount == 0
      modifies this
      ensures Valid()
      ensures err.None? <==> Total(Concat(docs, filesOf), count).Ok?
      ensures err.Some? ==> err.value == Total(Concat(docs, filesOf), count).error
      ensures err.None? ==> Total(Concat(docs, filesOf), count) == Ok(pageCount)
      ensures err.None? ==> Tiles(documents, pageCount) && AllFiled(documents, docs, name, filesOf, count)
    {
      var i := 0;
      while i < |docs|
        invariant 0 <= i <= |docs| && Valid() && Tiles(documents, pageCount)
        invariant Total(Concat(docs[..i], filesOf), count) == Ok(pageCount)
        invariant AllFiled(documents, docs[..i], name, filesOf, count)
      {
        err := AddNextDoc(docs, i, stripLeadingDigits, count, filesOf, name);
        if err.Some? {
          return;
        }
        i := i + 1;
      }
      assert docs[..i] == docs;
      err := None;
    }

    /** One turn of that loop, on the document at position `i`. */
    method AddNextDoc(docs: seq<Entry>, i: nat, stripLeadingDigits: bool, ghost count: Entry -> Result<nat>,
                      ghost filesOf: Entry -> seq<Entry>, ghost name: Entry -> string)
      returns (err: Option<Error>)
      requires Valid() && CountsPages(count) && ListsFiles(filesOf) && NamesDocuments(name, stripLeadingDigits)
      requires Tiles(documents, pageCount) && i < |docs|
      requires Total(Concat(docs[..i], filesOf), count) == Ok(pageCount)
      requires AllFiled(documents, docs[..i], name, filesOf, count)
      modifies this
      ensures Valid()
      ensures err.None? ==> Tiles(documents, pageCount)
      ensures err.None? ==> Total(Concat(docs[..i + 1], filesOf), count) == Ok(pageCount)
      ensures err.Some? ==> Total(Concat(docs, filesOf), count) == Err(err.value)
      ensures err.None? ==> AllFiled(documents, docs[..i + 1], name, filesOf, count)
    {
      err := AddDoc(docs[i], true, stripLeadingDigits, None, count);
      assert filesOf(docs[i]) == EvidenceFiles(docs[i]) == DocumentFiles(docs[i], true);
      if err.None? {
        assert name(docs[i]) == DocumentName(docs[i], stripLeadingDigits, None);
      }
      ghost var last := if err.None? then documents[|documents| - 1] else Document("", Span(1, 0), "");
      FiledStep(docs, i, filesOf, count, name, old(pageCount), old(documents), err, pageCount, documents, last);
    }

    /** The part of `from_path` that fills a new exhibit from a folder: the
        evidence found in it, each document added in turn. */
    method AddFolder(folder: Entry, respectExclusions: bool, stripLeadingDigits: bool) returns (err: Option<Error>)
      requires folder.Folder? && Valid() && documents == [] && pageCount == 0
      modifies this
      ensures Valid()
      ensures err.None? <==> FolderPages(folder, respectExclusions).Ok?
      ensures err.Some? ==> err.value == FolderPages(folder, respectExclusions).error
      ensures err.None? ==> pageCount == FolderPages(folder, respectExclusions).value && Tiles(documents, pageCount)
      ensures err.None? ==> AllRecorded(documents, Evidence(folder, respectExclusions).value, stripLeadingDigits)
    {
      var evidence := EvidenceInDir(folder, respectExclusions);
      if evidence.Err? {
        return Some(evidence.error);
      }
      ghost var name := (doc: Entry) => DocumentName(doc, stripLeadingDigits, None);
      err := AddEvidence(evidence.value, stripLeadingDigits, PageCountOf, EvidenceFiles, name);
      if err.None? {
        FiledIsRecorded(documents, evidence.value, stripLeadingDigits, name);
      }
    }

    /** `from_path`: the exhibit a folder or single file makes. Its index
        and title come from the name; a folder's evidence documents are
        added in order, a single file is the one document, titled with its
        name less the index. The first error (a bad name, a folder without
        evidence, a file that cannot be read) is the outcome instead. */
    static method FromPath(e: Entry, respectExclusions: bool, numberPages: bool, rotateLandscapePics: bool,
                           stripLeadingDigits: bool)
      returns (r: Result<Exhibit>)
      ensures r.Ok? <==> ExhibitPages(e, respectExclusions).Ok?
      ensures r.Err? ==> r.error == ExhibitPages(e, respectExclusions).error
      ensures r.Ok? ==> fresh(r.value) && r.value.Valid() && Tiles(r.value.documents, r.value.pageCount)
      ensures r.Ok? ==> r.value.pageCount == ExhibitPages(e, respectExclusions).value
      ensures r.Ok? ==> r.value.index == ExhibitHeader(e).value.index && r.value.title == ExhibitHeader(e).value.title
      ensures r.Ok? ==> r.value.evidentiaryDisputes == (if e.Folder? then e.disputes else None)
      ensures r.Ok? ==> r.value.numberPages == numberPages && r.value.rotateLandscapePics == rotateLandscapePics
      ensures r.Ok? && e.Folder? ==> AllRecorded(r.value.documents, Evidence(e, respectExclusions).value, stripLeadingDigits)
      ensures r.Ok? && e.File? ==>
        r.value.documents == [Document(SingleTitle(e), Span(1, r.value.pageCount), e.name)]
    {
      var header := ExhibitHeader(e);
      if header.Err? {
        return Err(header.error);
      }
      var disputes := if e.Folder? then e.disputes else None;
      var ex := new Exhibit(header.value.index, header.value.title, numberPages, rotateLandscapePics, disputes);
      if e.Folder? {
        var err := ex.AddFolder(e, respectExclusions, stripLeadingDigits);
        if err.Some? {
          return Err(err.value);
        }
      } else {
        var err := ex.AddDoc(e, true, true, Some(StripIndexPrefix(Stem(e.name))), PageCountOf);
        if err.Some? {
          return Err(err.value);
        }
      }
      r := Ok(ex);
    }
  }

  /** The description `add_doc` records: the given title when it is
      non-empty, else the document's own name processed. */
  function DocumentName(doc: Entry, stripLeadingDigits: bool, title: Option<string>): string
  {
    if title.None? || title.value == "" then ProcessFilename(Stem(doc.name), stripLeadingDigits)
    else title.value
  }

  // The recursive glob of `add_doc`, once per accepted extension: files at any depth whose names end in "." and that extension.
  predicate GlobMatches(f: Entry)
  {
    exists k | 0 <= k < |f.name| :: f.name[k] == '.' && IsFileType(f.name[k + 1..])
  }

  function GlobTest(): Entry -> bool { (f: Entry) => GlobMatches(f) }

  /** `sorted(file_paths)` for a folder document. */
  function Globbed(doc: Entry): seq<Entry>
    requires doc.Folder?
  {
    Filter(NestedFiles(doc), GlobTest())
  }

  /** A file is passed over when exclusions are respected and its stem carries the tag. */
  predicate Excluded(f: Entry, respectExclusions: bool)
  {
    respectExclusions && HasExcludeTag(Stem(f.name))
  }

  /** Whether `add_doc` keeps a file found in a folder document. */
  function KeepTest(respectExclusions: bool): Entry -> bool
  {
    (f: Entry) => !Excluded(f, respectExclusions)
  }

  /** The files a document contributes, in order. */
  function DocumentFiles(doc: Entry, respectExclusions: bool): (r: seq<Entry>)
    ensures doc.File? ==> r == [doc]
  {
    if doc.Folder? then Filter(Globbed(doc), KeepTest(respectExclusions)) else [doc]
  }

  /** A folder document contributes exactly its files, at any depth, that the glob
      finds and that are not passed over for the tag. */
  lemma {:induction false} DocumentFilesOfFolder(doc: Entry, respectExclusions: bool)
    requires doc.Folder?
    ensures forall f :: f in DocumentFiles(doc, respectExclusions) <==>
      f in NestedFiles(doc) && GlobMatches(f) && !Excluded(f, respectExclusions)
  {
    FilterMembers(NestedFiles(doc), GlobTest());
    FilterMembers(Globbed(doc), KeepTest(respectExclusions));
  }

  /** What `from_path` records for a document found in an exhibit folder:
      its own name processed, its path, and a span as long as the pages of
      its own files. */
  predicate Recorded(d: Document, doc: Entry, stripLeadingDigits: bool)
  {
    d.name == DocumentName(doc, stripLeadingDigits, None) && d.path == doc.name
    && Total(EvidenceFiles(doc), PageCountOf).Ok?
    && d.pageSpan.end + 1 - d.pageSpan.start == Total(EvidenceFiles(doc), PageCountOf).value
  }

  /** `name` gives the description `add_doc` records for a document found in a folder. */
  ghost predicate NamesDocuments(name: Entry -> string, stripLeadingDigits: bool)
  {
    forall doc {:trigger DocumentName(doc, stripLeadingDigits, None)} :: name(doc) == DocumentName(doc, stripLeadingDigits, None)
  }

  /** A document recorded under the description `name` gives it, with its
      path, and spanning as many pages as `count` gives its files `filesOf`. */
  predicate Filed(d: Document, doc: Entry, name: Entry -> string, filesOf: Entry -> seq<Entry>, count: Entry -> Result<nat>)
  {
    d.name == name(doc) && d.path == doc.name
    && Total(filesOf(doc), count).Ok?
    && d.pageSpan.end + 1 - d.pageSpan.start == Total(filesOf(doc), count).value
  }

  /** One record per document found in a folder, in the same order. */
  predicate AllRecorded(ds: seq<Document>, docs: seq<Entry>, stripLeadingDigits: bool)
  {
    |ds| == |docs| && forall j :: 0 <= j < |ds| ==> Recorded(ds[j], docs[j], stripLeadingDigits)
  }

  lemma {:induction false} FiledIsRecorded(ds: seq<Document>, docs: seq<Entry>, stripLeadingDigits: bool, name: Entry -> string)
    requires NamesDocuments(name, stripLeadingDigits) && AllFiled(ds, docs, name, EvidenceFiles, PageCountOf)
    ensures AllRecorded(ds, docs, stripLeadingDigits)
  {
    forall j | 0 <= j < |ds| ensures Recorded(ds[j], docs[j], stripLeadingDigits) {
      assert Filed(ds[j], docs[j], name, EvidenceFiles, PageCountOf);
      assert name(docs[j]) == DocumentName(docs[j], stripLeadingDigits, None);
    }
  }

  /** One record per document, in the same order. */
  predicate AllFiled(ds: seq<Document>, docs: seq<Entry>, name: Entry -> string, filesOf: Entry -> seq<Entry>,
                     count: Entry -> Result<nat>)
  {
    |ds| == |docs| && forall j :: 0 <= j < |ds| ==> Filed(ds[j], docs[j], name, filesOf, count)
  }

  lemma {:induction false} AllFiledSnoc(ds: seq<Document>, docs: seq<Entry>, i: nat, d: Document, name: Entry -> string,
                                        filesOf: Entry -> seq<Entry>, count: Entry -> Result<nat>)
    requires i < |docs| && AllFiled(ds, docs[..i], name, filesOf, count) && Filed(d, docs[i], name, filesOf, count)
    ensures AllFiled(ds + [d], docs[..i + 1], name, filesOf, count)
  {
  }

  /** The bookkeeping of one turn of `from_path`'s loop over documents:
      the pages of the next document follow those of the earlier ones, and
      its record follows theirs; or its failure is the whole loop's. */
  lemma {:induction false} FiledStep(docs: seq<Entry>, i: nat, filesOf: Entry -> seq<Entry>, count: Entry -> Result<nat>,
                                     name: Entry -> string, t: nat, ds: seq<Document>, err: Option<Error>,
                                     pages: nat, ds': seq<Document>, d: Document)
    requires i < |docs| && Total(Concat(docs[..i], filesOf), count) == Ok(t) && AllFiled(ds, docs[..i], name, filesOf, count)
    requires var here := Total(filesOf(docs[i]), count);
      (err.None? <==> here.Ok?) && (err.Some? ==> err.value == here.error)
      && (err.None? ==> pages == t + here.value && ds' == ds + [d] && Filed(d, docs[i], name, filesOf, count))
    ensures err.None? ==> Total(Concat(docs[..i + 1], filesOf), count) == Ok(pages)
    ensures err.None? ==> AllFiled(ds', docs[..i + 1], name, filesOf, count)
    ensures err.Some? ==> Total(Concat(docs, filesOf), count) == Err(err.value)
  {
    DocumentsStep(docs, i, filesOf, count, t);
    if err.None? {
      AllFiledSnoc(ds, docs, i, d, name, filesOf, count);
    }
  }

  /** The title of a single-file exhibit: its stem less the index and ". ". */
  function SingleTitle(e: Entry): string
  {
    DocumentName(e, true, Some(StripIndexPrefix(Stem(e.name))))
  }

  /** The files a document found by `from_path` contributes: exclusions are respected. */
  function EvidenceFiles(doc: Entry): seq<Entry>
  {
    DocumentFiles(doc, true)
  }

  /** The files of several documents, one document after another. */
  function DocumentsFiles(docs: seq<Entry>): seq<Entry>
  {
    Concat(docs, EvidenceFiles)
  }

  /** `filesOf` gives what `EvidenceFiles` gives; it stands for it in the
      methods of `Exhibit` as `count` stands for `PageCountOf`. */
  ghost predicate ListsFiles(filesOf: Entry -> seq<Entry>)
  {
    forall d {:trigger EvidenceFiles(d)} :: filesOf(d) == EvidenceFiles(d)
  }

  // ---------------------------------------------------------------------
  // evidence_in_dir
  // ---------------------------------------------------------------------

  /** An entry of an exhibit folder that counts as evidence: a folder, or a
      file with an accepted extension, and not tagged when exclusions are
      respected. */
  predicate IsEvidence(e: Entry, respectExclusions: bool)
  {
    (e.Folder? || IsFileType(Extension(e.name))) && !Excluded(e, respectExclusions)
  }

  function EvidenceTest(respectExclusions: bool): Entry -> bool
  {
    (e: Entry) => IsEvidence(e, respectExclusions)
  }

  /** The evidence of a folder in sorted order, or `FileNotFoundError` when there is none. */
  function Evidence(folder: Entry, respectExclusions: bool): (r: Result<seq<Entry>>)
    requires folder.Folder?
  {
    var kept := Filter(folder.children, EvidenceTest(respectExclusions));
    if kept == [] then Err(FileNotFound(folder.name)) else Ok(kept)
  }

  lemma {:induction false} EvidenceStep(children: seq<Entry>, i: nat, respectExclusions: bool)
    requires i < |children|
    ensures Filter(children[..i + 1], EvidenceTest(respectExclusions))
         == Filter(children[..i], EvidenceTest(respectExclusions))
            + (if IsEvidence(children[i], respectExclusions) then [children[i]] else [])
  {
    TakeSnoc(children, i);
    FilterSnoc(children[..i], children[i], EvidenceTest(respectExclusions));
  }

  /** `evidence_in_dir`: walks the folder's entries in order, keeping the evidence. */
  method EvidenceInDir(folder: Entry, respectExclusions: bool) returns (r: Result<seq<Entry>>)
    requires folder.Folder?
    ensures r == Evidence(folder, respectExclusions)
  {
    var children := folder.children;
    var found: seq<Entry> := [];
    var i := 0;
    while i < |children|
      invariant 0 <= i <= |children|
      invariant found == Filter(children[..i], EvidenceTest(respectExclusions))
    {
      var path := children[i];
      EvidenceStep(children, i, respectExclusions);
      i := i + 1;
      if !IsEvidence(path, respectExclusions) {
        continue;
      }
      found := found + [path];
    }
    assert children[..i] == children;
    if found != [] {
      return Ok(found);
    } else {
      return Err(FileNotFound(folder.name));
    }
  }

  /** The evidence is exactly the folder's entries that are folders or
      accepted files and not passed over for the tag, still in sorted
      order, and there is some whenever the folder holds such an entry. */
  lemma {:induction false} EvidenceMembers(folder: Entry, respectExclusions: bool)
    requires folder.Folder?
    ensures Evidence(folder, respectExclusions).Ok? ==>
      forall e :: e in Evidence(folder, respectExclusions).value <==>
        e in folder.children && (e.Folder? || IsFileType(Extension(e.name))) && !Excluded(e, respectExclusions)
    ensures Evidence(folder, respectExclusions).Err? <==>
      forall e :: e in folder.children ==> !IsEvidence(e, respectExclusions)
    ensures Evidence(folder, respectExclusions).Ok? && SortedByName(folder.children) ==>
      SortedByName(Evidence(folder, respectExclusions).value)
  {
    var keep := EvidenceTest(respectExclusions);
    FilterMembers(folder.children, keep);
    var kept := Filter(folder.children, keep);
    if kept != [] {
      assert kept[0] in kept;
    }
    if SortedByName(folder.children) {
      FilterSorted(folder.children, keep);
    }
  }

  /** What `from_path` comes to: the exhibit's page count, or the first error. */
  function ExhibitPages(e: Entry, respectExclusions: bool): Result<nat>
  {
    if ExhibitHeader(e).Err? then Err(ExhibitHeader(e).error)
    else if e.File? then PageCountOf(e)
    else FolderPages(e, respectExclusions)
  }

  /** The page count of a folder exhibit's evidence, or the first error. */
  function FolderPages(folder: Entry, respectExclusions: bool): Result<nat>
    requires folder.Folder?
  {
    if Evidence(folder, respectExclusions).Err? then Err(Evidence(folder, respectExclusions).error)
    else Total(DocumentsFiles(Evidence(folder, respectExclusions).value), PageCountOf)
  }

  // ---------------------------------------------------------------------
  // write_list
  // ---------------------------------------------------------------------

  /** A row of the exhibit list's table: the exhibit's number, the "X" of
      the second column, the paragraphs of the description cell and the
      text of the disputes cell. */
  datatype Row = Row(index: string, mark: string, description: seq<string>, disputes: string)

  /** The exhibit list: the document heading, the table heading, the rows. */
  datatype ExhibitList = ExhibitList(heading: string, tableHeading: string, rows: seq<Row>)

  /** `if exhibit.title:` holds for a non-empty title. */
  predicate HasTitle(title: Option<string>)
  {
    title.Some? && title.value != ""
  }

  /** The page reference after a document's name: " (p.<first page>)", for every document but the first when page numbers are shown. */
  function PageReference(docs: seq<Document>, i: nat, showPageNumbers: bool): string
    requires i < |docs|
  {
    if i > 0 && showPageNumbers then " (p." + NatToString(docs[i].pageSpan.start) + ")" else ""
  }

  /** The paragraph a document gets: its name and its page reference. */
  function DocumentLine(docs: seq<Document>, i: nat, showPageNumbers: bool): string
    requires i < |docs|
  {
    docs[i].name + PageReference(docs, i, showPageNumbers)
  }

  /** One paragraph per document, in order. */
  function DocumentLines(docs: seq<Document>, showPageNumbers: bool): (r: seq<string>)
    ensures |r| == |docs|
    ensures forall i :: 0 <= i < |docs| ==> r[i] == DocumentLine(docs, i, showPageNumbers)
  {
    if docs == [] then []
    else DocumentLines(docs[..|docs| - 1], showPageNumbers) + [DocumentLine(docs, |docs| - 1, showPageNumbers)]
  }

  lemma {:induction false} DocumentLinesSnoc(docs: seq<Document>, i: nat, showPageNumbers: bool)
    requires i < |docs|
    ensures DocumentLines(docs[..i + 1], showPageNumbers) == DocumentLines(docs[..i], showPageNumbers) + [DocumentLine(docs, i, showPageNumbers)]
  {
    var front := docs[..i + 1];
    assert front[..i] == docs[..i] && front[i] == docs[i];
    assert DocumentLine(front, i, showPageNumbers) == DocumentLine(docs, i, showPageNumbers);
  }

  /** The "title:" paragraph, when the exhibit has a title. */
  function TitleLines(title: Option<string>): seq<string>
  {
    if HasTitle(title) then [title.value + ":"] else []
  }

  /** The paragraphs of a description cell: the title line, then the
      document lines; a cell given none keeps its one blank paragraph. */
  function Description(title: Option<string>, docs: seq<Document>, showPageNumbers: bool): seq<string>
  {
    var ps := TitleLines(title) + DocumentLines(docs, showPageNumbers);
    if ps == [] then [""] else ps
  }

  /** The cell of the disputes column: `evidentiary_disputes or ""`. */
  function DisputesText(disputes: Option<string>): string
  {
    if disputes.Some? then disputes.value else ""
  }

  /** The row listing one exhibit. */
  function ExhibitRow(index: string, title: Option<string>, docs: seq<Document>, disputes: Option<string>,
                      showPageNumbers: bool): Row
  {
    Row(index, "X", Description(title, docs, showPageNumbers), DisputesText(disputes))
  }

  /** The row that keeps the next number free for rebuttal evidence. */
  function RebuttalRow(index: string): Row
  {
    Row(index, "X", ["Reserved for Rebuttal"], "")
  }

  /** The loop of `write_list` that fills one description cell: the cell
      starts with one blank paragraph, which the title line, or else the
      first document's line, takes over; every further line is a new
      paragraph. */
  method WriteDescription(title: Option<string>, docs: seq<Document>, showPageNumbers: bool) returns (paragraphs: seq<string>)
    ensures paragraphs == Description(title, docs, showPageNumbers)
  {
    paragraphs := [""];
    if HasTitle(title) {
      paragraphs := [title.value + ":"];
    }
    for i := 0 to |docs|
      invariant i == 0 ==> paragraphs == (if HasTitle(title) then TitleLines(title) else [""])
      invariant i > 0 ==> paragraphs == TitleLines(title) + DocumentLines(docs[..i], showPageNumbers)
    {
      paragraphs := DescribeNext(title, docs, i, showPageNumbers, paragraphs);
    }
    assert docs[..|docs|] == docs;
  }

  /** One turn of that loop: the line of document `i`, with its first page
      after the first document when page numbers are shown. */
  method DescribeNext(title: Option<string>, docs: seq<Document>, i: nat, showPageNumbers: bool, paragraphs: seq<string>)
    returns (next: seq<string>)
    requires i < |docs|
    requires i == 0 ==> paragraphs == (if HasTitle(title) then TitleLines(title) else [""])
    requires i > 0 ==> paragraphs == TitleLines(title) + DocumentLines(docs[..i], showPageNumbers)
    ensures next == TitleLines(title) + DocumentLines(docs[..i + 1], showPageNumbers)
  {
    var description := docs[i].name;
    if i > 0 && showPageNumbers {
      description := description + " (p." + NatToString(docs[i].pageSpan.start) + ")";
    }
    assert description == DocumentLine(docs, i, showPageNumbers);
    DocumentLinesSnoc(docs, i, showPageNumbers);
    if i == 0 && !HasTitle(title) {
      next := [description];
    } else {
      assert paragraphs + [description] == TitleLines(title) + (DocumentLines(docs[..i], showPageNumbers) + [description]);
      next := paragraphs + [description];
    }
  }

  /** `write_list`: one row per exhibit in order and, when rebuttal is
      reserved, a last row for the number after the last exhibit's. That
      needs a last exhibit (else `IndexError`) whose number has a
      successor (see `NextIndex`). */
  method WriteList(exhibits: seq<Exhibit>, attachmentNo: int, partyLabel: string, showPageNumbers: bool,
                   reserveRebuttal: bool)
    returns (r: Result<ExhibitList>)
    ensures r.Err? <==> reserveRebuttal && (exhibits == [] || NextIndex(exhibits[|exhibits| - 1].index).Err?)
    ensures r.Err? && exhibits == [] ==> r.error == IndexError
    ensures r.Err? && exhibits != [] ==> r.error == NextIndex(exhibits[|exhibits| - 1].index).error
    ensures r.Ok? ==> r.value.heading == "Attachment " + IntToString(attachmentNo) + ": Exhibit List"
    ensures r.Ok? ==> r.value.tableHeading == Upper(partyLabel) + " EXHIBITS"
    ensures r.Ok? ==> |r.value.rows| == |exhibits| + (if reserveRebuttal then 1 else 0)
    ensures r.Ok? ==> forall i :: 0 <= i < |exhibits| ==>
      r.value.rows[i] == ExhibitRow(exhibits[i].index, exhibits[i].title, exhibits[i].documents,
                                    exhibits[i].evidentiaryDisputes, showPageNumbers)
    ensures r.Ok? && reserveRebuttal ==>
      r.value.rows[|exhibits|] == RebuttalRow(NextIndex(exhibits[|exhibits| - 1].index).value)
  {
    var heading := "Attachment " + IntToString(attachmentNo) + ": Exhibit List";
    var tableHeading := Upper(partyLabel) + " EXHIBITS";
    var rows: seq<Row> := [];
    for k := 0 to |exhibits|
      invariant |rows| == k
      invariant forall i :: 0 <= i < k ==>
        rows[i] == ExhibitRow(exhibits[i].index, exhibits[i].title, exhibits[i].documents,
                              exhibits[i].evidentiaryDisputes, showPageNumbers)
    {
      var exhibit := exhibits[k];
      var description := WriteDescription(exhibit.title, exhibit.documents, showPageNumbers);
      rows := rows + [Row(exhibit.index, "X", description, DisputesText(exhibit.evidentiaryDisputes))];
    }
    if reserveRebuttal {
      if exhibits == [] {
        return Err(IndexError);
      }
      var next := NextIndex(exhibits[|exhibits| - 1].index);
      if next.Err? {
        return Err(next.error);
      }
      rows := rows + [RebuttalRow(next.value)];
    }
    r := Ok(ExhibitList(heading, tableHeading, rows));
  }

  /** The description cell holds the title line, if any, then one line per
      document in order, each starting with the document's name; without
      page numbers a line is just the name. */
  lemma {:induction false} DescriptionLines(title: Option<string>, docs: seq<Document>, showPageNumbers: bool, i: nat)
    requires i < |docs|
    ensures var d := Description(title, docs, showPageNumbers);
      var t := |TitleLines(title)|;
      |d| == t + |docs|
      && (HasTitle(title) ==> d[0] == title.value + ":")
      && d[t + i][..|docs[i].name|] == docs[i].name
      && (i == 0 || !showPageNumbers ==> d[t + i] == docs[i].name)
  {
    var lines := DocumentLines(docs, showPageNumbers);
    var d := TitleLines(title) + lines;
    assert d != [];
    assert d[|TitleLines(title)| + i] == lines[i];
    DocumentLineStartsWithName(docs, i, showPageNumbers);
  }

  lemma {:induction false} DocumentLineStartsWithName(docs: seq<Document>, i: nat, showPageNumbers: bool)
    requires i < |docs|
    ensures DocumentLine(docs, i, showPageNumbers)[..|docs[i].name|] == docs[i].name
    ensures i == 0 || !showPageNumbers ==> DocumentLine(docs, i, showPageNumbers) == docs[i].name
  {
    var line := DocumentLine(docs, i, showPageNumbers);
    assert line == docs[i].name + PageReference(docs, i, showPageNumbers);
    assert line[..|docs[i].name|] == docs[i].name;
  }

  /** In the list of an assembled exhibit, every document after the first
      is referenced by the page that follows all the pages of the documents
      before it, which is the page after the previous document's last. */
  lemma {:induction false} DescriptionPageReference(title: Option<string>, docs: seq<Document>, n: nat, i: nat)
    requires Tiles(docs, n) && 0 < i < |docs|
    ensures docs[i].pageSpan.start == TotalLength(docs[..i]) + 1 == docs[i - 1].pageSpan.end + 1
    ensures Description(title, docs, true)[|TitleLines(title)| + i]
         == docs[i].name + " (p." + NatToString(TotalLength(docs[..i]) + 1) + ")"
  {
    TilesStart(docs, n, i);
    TilesContiguous(docs, n, i);
    var page := NatToString(TotalLength(docs[..i]) + 1);
    assert PageReference(docs, i, true) == " (p." + page + ")";
    assert DocumentLine(docs, i, true) == docs[i].name + " (p." + page + ")";
    var lines := DocumentLines(docs, true);
    assert lines[i] == DocumentLine(docs, i, true);
    var d := Description(title, docs, true);
    assert d == TitleLines(title) + lines;
    assert d[|TitleLines(title)| + i] == lines[i];
  }
}
