# Exhibiter, modelled in Dafny

Exhibiter assembles litigation evidence. It takes a folder with one
sub-folder (or one file) per exhibit, each holding documents: PDFs, pictures,
or folders of them. From that it produces two outputs:

- one merged PDF in which every exhibit has a cover sheet and its pages are
  stamped "<index>-<page>";
- an exhibit list: one table row per exhibit, with its number, an "X", the
  description (title and document names) and the evidentiary disputes, plus a
  row "Reserved for Rebuttal" after the last exhibit.

This project models the bookkeeping behind both outputs in three revisions of
the program, each in its own module, because their rules differ in small ways:

| module | revision | what it holds |
|---|---|---|
| `Exhibiter` (exhibiter.dfy) | `exhibiter/__init__.py`, the current package | name rules of `from_path` and `_process_filename`; the `Exhibit` class with its page counter, canvas pages and document spans; `evidence_in_dir`; the rows of `write_list` |
| `ExhibiterLegacy` (exhibiter_legacy.dfy) | `exhibiter/exhibiter.py`, the earlier package | `is_exhibit`/`is_document`/`is_page`; `Document` (name, placed pages, list line); `Exhibit` (heading, description, page count); `ExhibitList` and the rebuttal row |
| `ExhibiterScript` (exhibiter_script.dfy) | `exhibiter.py`, the original script | `Document` naming with the " (n)" page-count suffix; `Exhibit` heading and description; the main loop's folder filters, list rows and rebuttal row |

Shared definitions live in four more modules:

| module | holds |
|---|---|
| `Outcomes` | `Option`, `Result` and the exceptions the program raises |
| `Text` | character classes, `strip`, `int()`/`str()`, `split`, `Path.stem`/`suffix` |
| `Files` | the evidence tree as a value, filtering and page totals |
| `Naming` | the naming rules the revisions share word for word |

How the model represents the program's inputs and state:

- **Files and folders.** The evidence tree is a value of type `Files.Entry`:
  - a file is a name plus what the readers make of its content (a PDF of n pages, a picture of some width and height, or something unreadable);
  - a folder holds its children in sorted order, and carries the text of its "evidentiary disputes.txt" when it has one.
- **Regular expressions** are written out as predicates and rewrites over strings.
- **Page counts.** The methods that count pages take a ghost function `count`, whose `requires` says it is the model's own page-count function. The functions `filesOf`, `name`, `row` and `heading` are treated the same way. These are not inputs of the program; they only keep long definitions out of the loop proofs.
- **State in place.** Where the source updates an object, the model is a class whose methods state the new state:
  - `Exhibit.page_count`, `documents` and the canvas pages;
  - `Document.pageCount` and `name`;
  - `ExhibitList.exhibits` and its rows;
  - the script's PDF writer and list table.
- **Loops** are methods with loop invariants, proved against the functions that specify them:
  - `add_doc`'s glob loop;
  - `evidence_in_dir`;
  - `write_list`'s description loop;
  - the documents loops of the older revisions.

Two quirks of the current revision are kept on purpose:

- `from_path` does not pass `respect_exclusions` on to `add_doc` (exhibiter/__init__.py:108). So inside a document folder, files tagged "(UNUSED)" are always skipped.
- An exhibit's index is the text before the first ". " of its processed name (exhibiter/__init__.py:83-84).

Where the program's documented design and its code differ, the model follows the code, except where a row under "## Findings" says the rest of the model uses the corrected behaviour:

- **The exclude tag.** The current revision excludes only "(UNUSED)", "(Unused)" and "(unused)". It does not exclude "(EXCLUDE)", and it is not case-insensitive in general.
- **Accepted file types.** The extensions pdf/png/jpg/jpeg are accepted in all-lower or all-upper case only.
- **Bad exhibit names.** These raise `SyntaxError` from a `fullmatch` on the whole stem, not a name error after a split.
- **Span start.** A document's span starts at the exhibit's page count plus one.
- **The letter "Y".** An exhibit named "Y" is followed by "Z" for rebuttal: `chr(ord("Y") + 1)`.

## Model

| member | source | states |
|---|---|---|
| Text.LStrip | exhibiter/__init__.py:349 | `lstrip` leaves no leading character from the set and never lengthens the text |
| Text.LStripDropsOnlyChars | exhibiter/__init__.py:349-351 | `lstrip` removes a prefix made only of characters from the set and keeps the rest as a suffix of the input |
| Text.RStrip | exhibiter/exhibiter.py:314 | `rstrip` keeps a prefix of the input whose last character is outside the set |
| Text.RStripDropsOnlyChars | exhibiter/exhibiter.py:314 | every character `rstrip` removes is in the set |
| Text.Strip | exhibiter/exhibiter.py:264 | `strip` leaves neither end in the set |
| Text.StripKeeps | exhibiter/exhibiter.py:264 | text whose ends are outside the set is returned unchanged |
| Text.StripPadded | exhibiter/exhibiter.py:264 | padding made of set characters on both sides is removed exactly, and the core is kept |
| Text.NatToString | exhibiter/exhibiter.py:240 | `str(n)` is a non-empty run of digits with no leading zero |
| Text.DigitsValueOfNatToString | exhibiter/exhibiter.py:240 | reading back the digits of `str(n)` gives `n` |
| Text.ParseIntOfIntToString | exhibiter.py:66 | `int(str(i)) == i` for every integer, negative ones included |
| Text.FindFrom | exhibiter/__init__.py:83 | finds the first occurrence of a separator at or after a position, or reports that there is none |
| Text.SplitOnce | exhibiter/exhibiter.py:255 | `split(sep, 1)`: no separator gives the whole text; otherwise head + sep + rest is the input and the head holds no separator |
| Text.SplitOnceAt | exhibiter/__init__.py:83 | a head free of the separator's first character splits off exactly |
| Text.RFind | exhibiter/__init__.py:81 | the index found holds the character or is -1 |
| Text.RFindIsLast | exhibiter/__init__.py:81 | no later position holds the character |
| Text.StemThenSuffix | exhibiter/__init__.py:164 | `stem + suffix` is the name, and the suffix is empty or one dot followed by dot-free text |
| Text.StemOfDotted | exhibiter/__init__.py:164 | "base.ext" with a dot-free extension has stem "base" and extension "ext" |
| Text.EndsAsLiteral | exhibiter/exhibiter.py:434-435 | a name the pattern `.pdf$` matches at its end ends with the pattern's last character |
| Text.Upper | exhibiter/__init__.py:275 | `upper()` on ASCII, letter by letter: each of a-z becomes its capital, every other character is kept, and the length is unchanged |
| Files.NestedFiles | exhibiter/__init__.py:166-172 | the recursive walk lists only files, and a file lists itself |
| Files.Filter | exhibiter/__init__.py:319-326 | a filtered listing is no longer than the listing |
| Files.FilterMembers | exhibiter.py:271-274 | an entry survives a filter exactly when it is listed and passes the test |
| Files.FilterSnoc | exhibiter/__init__.py:319-326 | one more entry adds that entry to the output when it passes and nothing when it fails |
| Files.FilterAppend | exhibiter/exhibiter.py:125-126 | filtering two listings one after the other is filtering their concatenation |
| Files.FilterSorted | exhibiter/__init__.py:319 | a filtered sorted listing stays sorted |
| Files.TotalAdds | exhibiter.py:140 | one more readable file adds its page count to the total |
| Files.TotalOne | exhibiter/__init__.py:178 | the total of one file is that file's own result |
| Files.TotalFails | exhibiter.py:127-138 | an unreadable file after readable ones makes the total its error |
| Files.TotalKeepsError | exhibiter/exhibiter.py:304-307 | once reading has failed, later files do not change the outcome |
| Files.KeptStep | exhibiter.py:124-140 | a kept file adds its pages to the running total or ends the run with its error |
| Files.FilesSkip | exhibiter.py:125-126 | a file that fails the filter leaves the running total unchanged |
| Files.FilesAdd | exhibiter/exhibiter.py:306 | a kept readable file adds its page count |
| Files.FilesFail | exhibiter/exhibiter.py:306 | a kept unreadable file is the error of the whole listing |
| Files.ConcatAppend | exhibiter/exhibiter.py:130-134 | the files of two runs of documents are the files of each run in turn |
| Files.TotalConcat | exhibiter/exhibiter.py:130-134 | the total of two runs of files is their sum, or the first error |
| Files.DocumentsStep | exhibiter/exhibiter.py:130-134 | the next document adds its files' total to the exhibit's, or its error ends the exhibit |
| Naming.Padded | exhibiter/exhibiter.py:324 | a zero-padded number has exactly the width asked for, all digits |
| Naming.IsoDateHasNoParen | exhibiter/exhibiter.py:320 | a date prefix "YYYY-MM-DD " holds no parenthesis, so tag removal leaves it alone |
| Naming.UnpadTwoDigits | exhibiter/exhibiter.py:322-323 | `lstrip('0')` of a two-digit month or day 01-99 is the number's decimal form |
| Naming.LastTwoDigitsOfYear | exhibiter/exhibiter.py:324 | characters 2-3 of a four-digit year are the year modulo 100, zero-padded |
| Naming.MoveDateOfIso | exhibiter.py:107-112 | "YYYY-MM-DD rest" is recognised as dated and becomes "rest M/D/YY" with unpadded month and day |
| Naming.DigitRun | exhibiter/exhibiter.py:317 | the leading run of digits is all digits and is followed by a non-digit or the end |
| Naming.DigitRunOf | exhibiter/exhibiter.py:317 | the digit run of digits followed by a non-digit is exactly those digits |
| Naming.StripNumberPrefixOf | exhibiter/exhibiter.py:316-317 | "<digits>. rest" becomes "rest" |
| Naming.StripNumberPrefixKeeps | exhibiter.py:104-105 | a name not starting with a digit is unchanged |
| Naming.NumberedIsNotDated | exhibiter/exhibiter.py:320 | a name "<digits>.…" never matches the date pattern |
| Naming.RemoveOmitTags | exhibiter/exhibiter.py:314 | removing omit tags never lengthens a name |
| Naming.RemoveOmitTagsKeeps | exhibiter/exhibiter.py:438 | a name without "(UNUSED)" or "(EXCLUDE)" is unchanged |
| Naming.RemoveOmitTagsAtTag | exhibiter/exhibiter.py:314 | a leading tag is removed and the rest is processed on its own |
| Naming.RemoveOmitTagsPlain | exhibiter/exhibiter.py:314 | a character other than '(' is always kept |
| Naming.RemoveOmitTagsAround | exhibiter/exhibiter.py:314 | a tag after parenthesis-free text is removed, and the text before it is kept |
| Naming.RemoveOmitTagsPlainPrefix | exhibiter/exhibiter.py:314 | parenthesis-free text in front is kept verbatim |
| Naming.NoOmitTagAfterPlainPrefix | exhibiter/exhibiter.py:438 | parenthesis-free text in front cannot create a tag |
| Naming.LegacyNameNumberedAndDated | exhibiter/exhibiter.py:312-324 | "<digits>. YYYY-MM-DD rest" loses its number and then has its date moved: both rules apply to one name |
| Naming.NumberedDateUntouched | exhibiter/exhibiter.py:314 | tag removal and space trimming leave such a name unchanged |
| Naming.LegacyNameDropsTag | exhibiter.py:100-105 | "title (UNUSED)" or "title (EXCLUDE)" is named "title", whatever the digit flag |
| Naming.NextIndexOfLetter | exhibiter/__init__.py:301-303 | a letter index A-Y is followed by the next letter, from "B" to "Z" |
| Naming.NextIndexOfNumber | exhibiter/__init__.py:304-305 | a number index n is followed by n + 1 ("12" then "13") |
| Naming.NextIndexOfWord | exhibiter/exhibiter.py:234-238 | an index of several characters containing a capital A-Y has no successor: `ord` raises TypeError |
| Naming.NextIndexIsNew | exhibiter/exhibiter.py:233-240 | the reserved index always differs from the last exhibit's index |
| Naming.JoinNonEmpty | exhibiter/exhibiter.py:284 | joining at least one non-empty paragraph gives a non-empty description |
| Naming.AppendAllIsJoin | exhibiter/exhibiter.py:284-286 | appending lines one by one with "</p><p>" between them equals joining all the paragraphs with that separator |
| Naming.AppendAllSnoc | exhibiter.py:87-88 | appending one more line is one more `AppendParagraph` |
| Naming.TitleOfTagged | exhibiter.py:72 | "title (UNUSED)" gives the title "title": the tag and the space before it are stripped |
| Exhibiter.ExcludeTagParen | exhibiter/__init__.py:19 | every match of the exclude pattern starts at '(' |
| Exhibiter.StripExcludeTags | exhibiter/__init__.py:342 | tag removal never lengthens the name |
| Exhibiter.StripExcludeTagsKeeps | exhibiter/__init__.py:342 | a name without a tag is unchanged: no other character is removed |
| Exhibiter.StripExcludeTagsPlain | exhibiter/__init__.py:342 | a character that neither starts a tag nor is the space before one is kept |
| Exhibiter.StripExcludeTagsPlainPrefix | exhibiter/__init__.py:342 | parenthesis-free text before a non-tag is kept verbatim |
| Exhibiter.StripExcludeTagsSpaced | exhibiter/__init__.py:342 | a tag after a space is deleted together with that one space, and the text before is kept |
| Exhibiter.StripExcludeTagsBare | exhibiter/__init__.py:342 | a tag with no space before it is deleted alone |
| Exhibiter.NoExcludeTagAfterPlainPrefix | exhibiter/__init__.py:19 | parenthesis-free text in front cannot create a tag |
| Exhibiter.ProcessFilenameOfDated | exhibiter/__init__.py:345-354 | "YYYY-MM-DD rest" becomes "rest M/D/YY" with unpadded month and day, whether or not digits are stripped |
| Exhibiter.ProcessFilenameOfNumbered | exhibiter/__init__.py:355-358 | "<digits>. rest" loses the prefix exactly when stripping is on, and is unchanged otherwise |
| Exhibiter.ProcessFilenameDropsTag | exhibiter/__init__.py:333-358 | "<digits>. title (UNUSED)" becomes "title" |
| Exhibiter.ProcessFilenameOfIndexed | exhibiter/__init__.py:82 | with stripping off, an index followed by a tag-free rest is unchanged |
| Exhibiter.IndexIsNotDated | exhibiter/__init__.py:345 | an index followed by '.', ' ' or nothing never matches the date rule |
| Exhibiter.IndexLength | exhibiter/__init__.py:53 | the index found at the start fits within the name |
| Exhibiter.IndexLengthOf | exhibiter/__init__.py:53 | in "idx" + ".", " " or nothing, the index found is exactly idx |
| Exhibiter.ValidExhibitStemOf | exhibiter/__init__.py:53-78 | "101", "101 Lease" and "101. Lease" pass the exhibit rule; "101. Lease" also passes the single-file rule |
| Exhibiter.ValidExhibitStemStartsWithIndex | exhibiter/__init__.py:53-78 | whatever passes either rule passes the exhibit rule and starts with a number or a letter A-Y |
| Exhibiter.ExhibitHeaderRejectsIndex | exhibiter/__init__.py:53-62 | a name that starts with neither a digit nor A-Y raises SyntaxError |
| Exhibiter.ExhibitHeaderRejectsType | exhibiter/__init__.py:66-72 | a single-file exhibit whose type is not accepted raises SyntaxError naming the file |
| Exhibiter.ExhibitHeaderRejectsUntitled | exhibiter/__init__.py:73-78 | a single-file exhibit named by its index alone ("101.pdf") raises SyntaxError |
| Exhibiter.StripIndexPrefixOf | exhibiter/__init__.py:112 | a single-file exhibit's document is titled by its stem less "<index>. " |
| Exhibiter.HeaderFromIndexed | exhibiter/__init__.py:80-88 | the index is the text before the first ". "; a folder takes the rest as its title, a file gets none |
| Exhibiter.ExhibitHeaderOfTitledFolder | exhibiter/__init__.py:80-88 | a folder "idx. title" has index idx and that title (corrected header) |
| Exhibiter.ExhibitHeaderOfBareFolder | exhibiter/__init__.py:80-88 | a folder named by an index alone has that index and no title |
| Exhibiter.ExhibitHeaderOfFile | exhibiter/__init__.py:80-113 | a file "idx. title.ext" has index idx, no exhibit title, and its document is titled "title" |
| Exhibiter.NoSeparatorInIndex | exhibiter/__init__.py:83-84 | an index never holds ". ", so the split cannot cut inside it |
| Exhibiter.ExhibitHeaderAsWrittenDropsTitle | exhibiter/__init__.py:81-86 | as written, a folder "idx. title" with a dot-free title gets no title, because `Path.stem` cuts at the dot |
| Exhibiter.PartyCommunicationsAsWritten | exhibiter/__init__.py:81-86 | "102. Party Communications" gets no title as written; the corrected rule titles it "Party Communications" |
| Exhibiter.StampTextInjective | exhibiter/__init__.py:229 | two pages of one exhibit never carry the same stamp "<index>-<n>" |
| Exhibiter.Sheets | exhibiter/__init__.py:192-195 | count new sheets numbered from+1 to from+count in order, all with the same rotation |
| Exhibiter.TilesTotal | exhibiter/__init__.py:179-181 | documents that tile n pages have spans whose lengths sum to n |
| Exhibiter.TilesStart | exhibiter/__init__.py:161 | each document starts one page after the pages of all documents before it, and no span is negative |
| Exhibiter.TilesFirst | exhibiter/__init__.py:161 | the first document starts on page 1 |
| Exhibiter.TilesContiguous | exhibiter/__init__.py:161 | each document starts on the page after the previous one ends: no gap, no overlap |
| Exhibiter.Exhibit.constructor | exhibiter/__init__.py:117-148 | fields from the arguments, no documents, page count 0, and one cover page "EXHIBIT <index>" |
| Exhibiter.Exhibit.FinishPage | exhibiter/__init__.py:225-238 | the page count grows by exactly one, and one sheet is added, stamped with the new count when numbering is on |
| Exhibiter.Exhibit.AddSheets | exhibiter/__init__.py:192-195 | count `_finish_page` calls add count numbered sheets and count pages |
| Exhibiter.Exhibit.InsertPdfOrImage | exhibiter/__init__.py:183-223 | a PDF adds one sheet per page; a picture adds one sheet, turned when landscape and rotation is on; another type raises SyntaxError and an unreadable file fails, both leaving the pages unchanged |
| Exhibiter.Exhibit.InsertFiles | exhibiter/__init__.py:171-175 | the kept files are inserted in order; the page count grows by their total or the first error is returned; documents are unchanged |
| Exhibiter.Exhibit.InsertNext | exhibiter/__init__.py:172-175 | one turn of the glob loop keeps the running total equal to the pages added |
| Exhibiter.Exhibit.InsertDocument | exhibiter/__init__.py:166-178 | a folder document inserts its globbed, non-excluded files and a file inserts itself; the page count grows by their total |
| Exhibiter.Exhibit.Record | exhibiter/__init__.py:179-181 | appends exactly one document, and a span that starts after the earlier spans keeps the documents tiling the pages |
| Exhibiter.Exhibit.AddDoc | exhibiter/__init__.py:150-181 | appends one document named by the given title or processed stem, spanning old count + 1 to new count; span length = pages added; nothing else in `documents` changes; errors leave `documents` as they were |
| Exhibiter.Exhibit.AddEvidence | exhibiter/__init__.py:106-108 | after all evidence is added, the page count is the total of the documents' files, the documents tile it, and each corresponds to its evidence entry in order: its name, its path, and a span exactly as long as that entry's own files' pages |
| Exhibiter.Exhibit.AddNextDoc | exhibiter/__init__.py:107-108 | one turn of the evidence loop keeps tiling, the running total and the document–evidence correspondence, spans included |
| Exhibiter.Exhibit.AddFolder | exhibiter/__init__.py:106-108 | a folder exhibit's pages are its evidence's total, its documents tile them, and each records its evidence entry's name and path and spans exactly that entry's pages |
| Exhibiter.Exhibit.FromPath | exhibiter/__init__.py:30-115 | fails exactly when the name is refused, there is no evidence, or a file cannot be read; otherwise index and title come from the name, disputes from the folder, documents tile the pages, each folder document spans exactly its own evidence entry's pages, and a single file becomes one document titled by its stem less the index; a folder's name is read whole, by the corrected header of the first Findings row |
| Exhibiter.DocumentFiles | exhibiter/__init__.py:177-178 | a single-file document contributes exactly itself |
| Exhibiter.DocumentFilesOfFolder | exhibiter/__init__.py:166-175 | a folder document contributes exactly its files, at any depth, with an accepted extension and not excluded |
| Exhibiter.FiledIsRecorded | exhibiter/__init__.py:107-108 | documents recorded by the loop correspond one to one, in order, to the evidence, each named by `_process_filename` and spanning as many pages as its own files have |
| Exhibiter.AllFiledSnoc | exhibiter/__init__.py:107-108 | the correspondence (name, path and span length) extends by one document per evidence entry |
| Exhibiter.FiledStep | exhibiter/__init__.py:107-108 | one evidence entry either extends total and correspondence or is the error of the whole exhibit |
| Exhibiter.EvidenceStep | exhibiter/__init__.py:319-326 | one more entry adds itself to the evidence exactly when it is evidence |
| Exhibiter.EvidenceInDir | exhibiter/__init__.py:317-330 | the loop returns the folder's evidence in order, or FileNotFoundError when there is none |
| Exhibiter.EvidenceMembers | exhibiter/__init__.py:317-330 | the evidence is exactly the sub-folders and accepted files not excluded; the error comes exactly when there are none; sorted order is kept |
| Exhibiter.DocumentLines | exhibiter/__init__.py:286-295 | one paragraph per document, in order, each the document's name and page reference |
| Exhibiter.DocumentLinesSnoc | exhibiter/__init__.py:286-295 | one more document adds its own paragraph at the end |
| Exhibiter.WriteDescription | exhibiter/__init__.py:284-295 | the loop fills the description cell with the title line, then one paragraph per document |
| Exhibiter.DescribeNext | exhibiter/__init__.py:286-295 | one turn of the loop appends the next document's paragraph, taking over the blank paragraph first when there is no title |
| Exhibiter.WriteList | exhibiter/__init__.py:258-314 | headings from attachment number and party; one row per exhibit in order (index, "X", description, disputes or ""); a rebuttal row at the next index when asked; IndexError with no exhibits; the successor's error otherwise |
| Exhibiter.DescriptionLines | exhibiter/__init__.py:284-295 | the cell has the optional "title:" line and then one line per document; each starts with the document's name and is only the name for the first document or without page numbers |
| Exhibiter.DocumentLineStartsWithName | exhibiter/__init__.py:292-295 | a document's line starts with its name, and is only the name for the first document or without page numbers |
| Exhibiter.DescriptionPageReference | exhibiter/__init__.py:292-294 | for every document after the first, the cell says "(p.<first page>)", which is one past all earlier pages and one past the previous document's last page |
| ExhibiterLegacy.HasExtensionOf | exhibiter/exhibiter.py:434-435 | a name with a listed ending after any character but a newline passes, so "scan_pdf" passes as well as "Lease.pdf" |
| ExhibiterLegacy.HasExtensionNeedsEnding | exhibiter/exhibiter.py:434-435 | a name ending in neither f, g, F, G nor a newline never passes; a final newline is excluded because `$` also matches just before one |
| ExhibiterLegacy.ExhibitFolderNames | exhibiter/exhibiter.py:387-392 | a folder "B" is an exhibit; so is "Misc", because the pattern is searched anywhere; "notes" is not |
| ExhibiterLegacy.OmitTagDecides | exhibiter/exhibiter.py:387-410 | outside discovery mode a tagged name is no exhibit, document or page; in discovery mode a tagged file is a document exactly when its extension passes |
| ExhibiterLegacy.DocumentFiles | exhibiter/exhibiter.py:304-307 | a file document reads exactly itself |
| ExhibiterLegacy.Stamps | exhibiter/exhibiter.py:338-345 | one stamp per placed page |
| ExhibiterLegacy.StampsAt | exhibiter/exhibiter.py:341-345 | the k-th page is stamped start + k, or not at all in discovery mode |
| ExhibiterLegacy.StampsAppend | exhibiter/exhibiter.py:338-345 | two runs of stamps, one after the other, are one run |
| ExhibiterLegacy.ListLine | exhibiter/exhibiter.py:373-380 | the line starts with the name, and is only the name exactly when list page numbers are off or discovery mode is on |
| ExhibiterLegacy.ListLineNamesStamps | exhibiter/exhibiter.py:373-380 | the line reads "name (first)" or "name (first-last)", where these are the stamps on the document's first and last pages |
| ExhibiterLegacy.Document.constructor | exhibiter/exhibiter.py:298-302 | no name yet, no pages, and the start page follows the exhibit's pages |
| ExhibiterLegacy.Document.FormatName | exhibiter/exhibiter.py:312-324 | the name is the stem with tags removed and trimmed, the number dropped unless kept, then the date moved |
| ExhibiterLegacy.Document.PlacePages | exhibiter/exhibiter.py:339-340 | the page count grows by the pages placed |
| ExhibiterLegacy.Document.Include | exhibiter/exhibiter.py:326-346 | a readable file adds its pages to the count (none with --nopdf), and an unreadable one is the error |
| ExhibiterLegacy.Document.IncludeAll | exhibiter/exhibiter.py:304-306 | the files passing `is_page` are read in order; the count grows by their placed total or the first error is returned |
| ExhibiterLegacy.Document.IncludeNext | exhibiter/exhibiter.py:305-306 | one turn of the page loop keeps the count equal to the pages placed so far |
| ExhibiterLegacy.Document.New | exhibiter/exhibiter.py:298-307 | a document starts after the exhibit's pages, is named by the legacy rules, and counts the placed pages of its files, or fails with the first error |
| ExhibiterLegacy.NoSpaceBeforeSplit | exhibiter/exhibiter.py:255-256 | the index is a space-free prefix of the stem |
| ExhibiterLegacy.HeadingOf | exhibiter/exhibiter.py:255-266 | index before the first space; without a rest the name is the index and there is no title; with one, the name is "index: title" and the description starts "title:" |
| ExhibiterLegacy.HeadingOfTitled | exhibiter/exhibiter.py:255-266 | "idx (title)" gives index idx and title "title", the parentheses stripped |
| ExhibiterLegacy.HeadingDropsTag | exhibiter/exhibiter.py:264 | an omit tag after the title is removed from the title |
| ExhibiterLegacy.HeadingOfSplit | exhibiter/exhibiter.py:255-266 | the heading is built from the split's two parts |
| ExhibiterLegacy.ChainedStamps | exhibiter/exhibiter.py:301 | documents included one after another stamp pages 1 to n in order, with no gap or repeat |
| ExhibiterLegacy.ChainedWithoutPages | exhibiter/exhibiter.py:338-340 | with no pages placed (--nopdf), every document starts on page 1 |
| ExhibiterLegacy.ChainedSnoc | exhibiter/exhibiter.py:301 | a document starting after the exhibit's pages extends the chain |
| ExhibiterLegacy.AllMadeSnoc | exhibiter/exhibiter.py:130-134 | the documents-to-entries correspondence, with each document's own placed page count, extends by one |
| ExhibiterLegacy.LinesSnoc | exhibiter/exhibiter.py:286 | one more document adds its list line |
| ExhibiterLegacy.Exhibit.constructor | exhibiter/exhibiter.py:252-269 | index, title, name and description from the stem's heading, the dispute text or "", and no documents or pages |
| ExhibiterLegacy.Exhibit.Include | exhibiter/exhibiter.py:282-286 | appends the document, adds its page count, and appends its list line after "</p><p>" when the description is not empty |
| ExhibiterLegacy.Exhibit.AddDocuments | exhibiter/exhibiter.py:130-134 | the folder's documents are built and included in order; each holds the placed pages of its own entry's files, the page count is their placed total, they chain, and the description gains their list lines, or the first error is returned |
| ExhibiterLegacy.Exhibit.AddAll | exhibiter/exhibiter.py:130-134 | the documents loop keeps chain, correspondence (each document's name and placed pages of its own entry's files), page total and description |
| ExhibiterLegacy.Exhibit.AddNext | exhibiter/exhibiter.py:131-134 | one turn of the loop builds and includes one document, or returns the error of the whole exhibit |
| ExhibiterLegacy.Exhibit.IncludeMade | exhibiter/exhibiter.py:134 | including a built document keeps chain, correspondence with its page count, total and description |
| ExhibiterLegacy.ExhibitList.constructor | exhibiter/exhibiter.py:209-210 | no exhibits and no rows |
| ExhibiterLegacy.ExhibitList.Include | exhibiter/exhibiter.py:229-231 | appends the exhibit and its row [index, "X", "", description, disputes] |
| ExhibiterLegacy.ExhibitList.ReserveRebuttal | exhibiter/exhibiter.py:233-248 | with no exhibit, IndexError; otherwise a "Reserved for Rebuttal" row at the last index's successor, or the successor's error with no row |
| ExhibiterScript.HasListedEndingNeedsEnding | exhibiter.py:279-280 | a file ending in neither a lower-case f or g nor a newline ("Scan.PDF", "notes.txt") is never a document; a final newline is excluded because `$` also matches just before one |
| ExhibiterScript.WordBeforeNumber | exhibiter.py:271-275 | a folder "Misc 12" passes the exhibit filter, because the pattern is searched anywhere, but its number `int("Misc")` raises ValueError, also on the stem the main loop reads when the first word has no dot |
| ExhibiterScript.FilesOf | exhibiter.py:115-118 | a file document reads exactly itself |
| ExhibiterScript.WithPageCount | exhibiter.py:120-122 | the name gains a suffix exactly when there is more than one page |
| ExhibiterScript.PageCountReadsBack | exhibiter.py:120-122 | the suffix is " (n)", and n can be read back from it |
| ExhibiterScript.FilePages | exhibiter.py:124-140 | a tagged file counts no pages unless all are included; any other file counts its reader's pages or fails |
| ExhibiterScript.FilePagesAsWritten | exhibiter.py:139 | as written, without a PDF writer (--nopdf) every kept, readable file fails with NameError; with one it agrees with `FilePages` |
| ExhibiterScript.Output.constructor | exhibiter.py:212 | the writer is bound exactly without --nopdf; no pages, no rows |
| ExhibiterScript.Document.constructor | exhibiter.py:96-98 | no name yet and no pages |
| ExhibiterScript.Document.FormatName | exhibiter.py:100-112 | the name is the stem with tags removed and trimmed, the number dropped unless kept, then the date moved |
| ExhibiterScript.Document.AddFileAsWritten | exhibiter.py:124-140 | the file as written: pages counted and written, or its error (NameError without a writer) |
| ExhibiterScript.Document.AddFile | exhibiter.py:124-140 | a kept readable file adds its pages to the count, and to the output only when a writer is bound; a tagged one is skipped unless all are included |
| ExhibiterScript.Document.AddFiles | exhibiter.py:115-118 | the files are added in order; the count grows by their total or the first error is returned, with the corrected `add_file` of the second Findings row |
| ExhibiterScript.Document.AddNextFile | exhibiter.py:116-117 | one turn of the file loop keeps count and output equal to the pages so far, with the corrected `add_file` of the second Findings row |
| ExhibiterScript.Document.New | exhibiter.py:96-122 | a document is named by the legacy rules plus " (n)" when it has more than one page, and counts the pages of its kept files, or fails with the first error, with the corrected `add_file` of the second Findings row |
| ExhibiterScript.Document.AppendPageCount | exhibiter.py:121-122 | the page count is appended to the name as the suffix |
| ExhibiterScript.Names | exhibiter.py:85-88 | one name per document |
| ExhibiterScript.NamesSnoc | exhibiter.py:282 | one more document adds its name |
| ExhibiterScript.HeadingOf | exhibiter.py:65-74 | the number is `int` of the text before the first space, else ValueError naming it; without a rest, no title and the name is that text; with one, the name is "number: title" and the description starts "title:" |
| ExhibiterScript.HeadingOfNumbered | exhibiter.py:65-74 | "<digits> rest" has the digits' value as its number and the cleaned rest as its title |
| ExhibiterScript.Exhibit.constructor | exhibiter.py:63-77 | number, title, name, description and disputes from the heading, and no documents |
| ExhibiterScript.Exhibit.New | exhibiter.py:62-77 | an exhibit is made exactly when its heading parses, and takes its fields from it and the dispute file |
| ExhibiterScript.Exhibit.AddDocument | exhibiter.py:85-88 | appends the document, and its name after "</p><p>" when the description is not empty |
| ExhibiterScript.Exhibit.AddToList | exhibiter.py:90-93 | appends the row [number, "X", "", description, disputes] and writes no pages |
| ExhibiterScript.Exhibit.AddDocuments | exhibiter.py:277-283 | the documents are built and added in order; their pages are written when a writer is bound, and the description gains their names, or the first error is returned, with the corrected `add_file` of the second Findings row |
| ExhibiterScript.Exhibit.AddNextDocument | exhibiter.py:281-282 | one turn of the documents loop keeps total, output and description, with the corrected `add_file` of the second Findings row |
| ExhibiterScript.Exhibit.Complete | exhibiter.py:277-284 | the exhibit's filtered documents are added and its row listed when making a list, or the first error is returned, with the corrected `add_file` of the second Findings row |
| ExhibiterScript.ExhibitRow | exhibiter.py:275-284 | a folder whose heading fails gives that error; a row carries the heading's number, with the corrected `add_file` of the second Findings row |
| ExhibiterScript.RowOfFolder | exhibiter.py:275-284 | a folder's row is [number, "X", "", description with its documents' names, disputes], or the heading's or the first file's error, with the corrected `add_file` of the second Findings row |
| ExhibiterScript.RowsOfEach | exhibiter.py:271-284 | a successful run has one row per exhibit folder, each that folder's row |
| ExhibiterScript.RowsNumbered | exhibiter.py:271-284 | each row's number is its folder's parsed number |
| ExhibiterScript.RowsKeepError | exhibiter.py:271-284 | after an error, later folders change nothing |
| ExhibiterScript.RowsStep | exhibiter.py:271-284 | one more folder adds its row, or its error ends the run |
| ExhibiterScript.RebuttalRows | exhibiter.py:285-288 | at most one row, present exactly when rebuttal is on and there is an exhibit, numbered last + 1 and "Reserved for Rebuttal" |
| ExhibiterScript.Run | exhibiter.py:271-289 | rows of the filtered exhibits in order, then the rebuttal row; the first error stops the run; with a list, rebuttal on and no exhibit, NameError("exhibit"), with the corrected `add_file` of the second Findings row |
| ExhibiterScript.RunExhibits | exhibiter.py:271-284 | the main loop lists one row per exhibit (when making a list) and remembers the last exhibit, or returns the first error, with the corrected `add_file` of the second Findings row |
| ExhibiterScript.RunNext | exhibiter.py:275-284 | one exhibit is built, filled and listed, matching its row function, with the corrected `add_file` of the second Findings row |
| ExhibiterScript.Reserve | exhibiter.py:285-289 | the `else` of the loop appends the rebuttal row after the last exhibit, or fails with NameError("exhibit") when no exhibit was ever bound |

## Left out

- **Rendering.** Drawing and merging pages is not modelled: pdfrw, ReportLab, img2pdf and PIL. A file is known only by its page count (one for a picture), and a page only by its stamp and whether it was turned.
- **Geometry.** Page sizes, the 0.9 scaling, rotated placement and label coordinates are floating-point layout with no bearing on names or counts. Only the landscape test is kept, as width > height (exhibiter/__init__.py:198-217 and 230-237).
- **Cover pages.** Cover-page rendering is not modelled: the canvas text of the current revision, `make_cover_page` of the middle one, and the page taken from cover_pages.pdf in the original script.
- ExhibiterScript.Exhibit.New: does not add the cover sheet the script writes when --nopdf is absent (exhibiter.py:78-83), so the output's page count leaves cover sheets out. It also does not model how that sheet is looked up, as page `number - 1` of cover_pages.pdf: an exhibit number past the last page of that file raises IndexError, and number 0 takes its last page.
- ExhibiterScript.Run: builds every document with the corrected `add_file` (`ExhibiterScript.FilePages`), so under --nopdf it lists rows where the script as written raises NameError("outPdfWriter") at the first kept, readable file (exhibiter.py:139, 212). It states the list rows of the whole run but not the pages written to the output. The pages are stated per exhibit by `ExhibiterScript.Exhibit.AddDocuments`.
- ExhibiterScript.Document.New: adds its files with the corrected `add_file` (`ExhibiterScript.Document.AddFile`, second Findings row). Under --nopdf the script as written raises NameError("outPdfWriter") at the first kept, readable file (exhibiter.py:139, 212); that path is stated only by `ExhibiterScript.FilePagesAsWritten` and `ExhibiterScript.Document.AddFileAsWritten`.
- ExhibiterScript.Document.AddFiles: the loop of `Document.__init__` over its files calls the corrected `add_file` (`ExhibiterScript.Document.AddFile`), so under --nopdf it states a page count where the script as written raises NameError("outPdfWriter") at the first kept, readable file (exhibiter.py:139, 212).
- ExhibiterScript.Document.AddNextFile: one turn of `ExhibiterScript.Document.AddFiles`, with the same corrected `add_file` and no NameError under --nopdf (exhibiter.py:139, 212).
- ExhibiterScript.RowOfFolder: unfolds `ExhibiterScript.ExhibitRow`, which uses the corrected `ExhibiterScript.FilePages`, so under --nopdf it gives a row where the script as written raises NameError("outPdfWriter") (exhibiter.py:139, 212).
- ExhibiterScript.Exhibit.AddDocuments: builds its documents with `ExhibiterScript.Document.New`, so it inherits the corrected `add_file` and does not state the NameError("outPdfWriter") of --nopdf (exhibiter.py:139, 212).
- ExhibiterScript.Exhibit.AddNextDocument: one turn of `ExhibiterScript.Exhibit.AddDocuments`, with the same corrected `add_file` and no NameError under --nopdf.
- ExhibiterScript.Exhibit.Complete: adds the documents through `ExhibiterScript.Exhibit.AddDocuments`, so under --nopdf it does not state the NameError("outPdfWriter") the script raises (exhibiter.py:139, 212).
- ExhibiterScript.ExhibitRow: the row function of one exhibit uses the corrected `ExhibiterScript.FilePages`, so under --nopdf it gives a row where the script as written raises NameError("outPdfWriter") (exhibiter.py:139, 212).
- ExhibiterScript.RunNext: one exhibit of the main loop, built with the corrected `add_file`; no NameError under --nopdf (exhibiter.py:139, 212).
- ExhibiterScript.RunExhibits: the main loop over exhibits, built with the corrected `add_file`; no NameError under --nopdf (exhibiter.py:139, 212).
- Exhibiter.Exhibit.FromPath: reads the exhibit's header from the folder's whole name (`Exhibiter.ExhibitHeader`, first Findings row) where exhibiter/__init__.py:53 and 81 read `Path.stem`. For folder names with a dot the two differ: "102. Party Communications" gets its title here, and "B.x" is refused here while the code reads its stem "B" and accepts it. The code's reading is stated by `Exhibiter.ExhibitHeaderAsWritten` and `Exhibiter.PartyCommunicationsAsWritten`.
- ExhibiterLegacy.Document.Include: counts the pages placed and the stamps they get, but not the merged PDF (`outPdf`) of the middle revision.
- ExhibiterLegacy.Document.New: takes the exhibit's page count so far as a value. The source reads `exhibit.pageCount` while the document is built, and that count does not change until `include` runs.
- **Staging files.** The temporary file used to stage pictures is not modelled in either older revision, nor its deletion.
- **Output documents.** These are not modelled:
  - the Word document of `write_list` (template, bold runs, alignment, saving);
  - the markdown header and texttable drawing of the older revisions (exhibiter/exhibiter.py:211-227, exhibiter.py:257-268);
  - pandoc conversion and installation;
  - `write_pdf`.
- **Interfaces.** Command-line parsing, the GUI and dialogs, `main`, `getInputFolder` and `cli.py` are not modelled. Their options are record fields here.
- **Prints and `__str__`.** Console messages are not modelled, nor `__str__` (exhibiter/__init__.py:240-241).
- ExhibiterLegacy.Exhibit.AddDocuments: models the middle revision's main loop only as its inner documents loop (exhibiter/exhibiter.py:130-134). The walk over exhibit folders is represented by the `is_exhibit` predicate and `ExhibitList`.
- **Reading the filesystem.** Listing folders, globbing and reading the dispute file are replaced by the evidence tree value. Its folders list their children already sorted, and the dispute text is carried on the folder.
- **Glob matching.** The glob of `add_doc` is matched case-sensitively, as on Linux. On a case-insensitive filesystem, "*.pdf" and "*.PDF" both match one file, which would then be inserted twice.
- **Folders named like files.** A folder whose name ends in an accepted extension is matched by that glob, and its reader then fails. The model lists only files.
- **`int()` edge cases.** `int()` is modelled as an optional sign followed by ASCII digits. Surrounding whitespace, underscores between digits and non-ASCII digits, which Python also accepts, are left out.
- **Characters.** Names are sequences of characters, with no Unicode normalisation.
- Text.Upper: maps only ASCII letters. Python's `str.upper` also capitalises other letters ("é" to "É") and can lengthen a string ("ß" to "SS"); neither is modelled.
- **Digits in patterns.** The regular expressions' `\d` is modelled as ASCII 0-9 (`Text.IsDigit`). On a `str`, Python's `re` also matches other Unicode decimal digits, such as Arabic-Indic digits. So an exhibit or date name written with such digits is accepted by the code and refused here. This concerns exhibit names (`Exhibiter.ValidExhibitStem`, `Exhibiter.IsIndex`), dated names, the number prefix that is stripped, and the digit tests of the older revisions.
- **Stand-in parameters.** The ghost parameters `count`, `filesOf`, `name`, `row` and `heading` are always the model's own functions, as their `requires` clauses say. They are not inputs of the program.

## Findings

| source | as written | input that shows it | evidently intended | confidence | as-written member | corrected member |
|---|---|---|---|---|---|---|
| exhibiter/__init__.py:81-86 | The exhibit name is read with `Path.stem` even for a folder, which cuts the name at its last dot, so the ". " before a folder's title is lost and the title is never set | a folder named "102. Party Communications": stem "102", so index "102" and no title | index "102" and title "Party Communications", as the docstring's own example name shows (exhibiter/__init__.py:43-45) | not executed; follows from how `Path.stem` treats a dot in a folder name | Exhibiter.PartyCommunicationsAsWritten | Exhibiter.ExhibitHeaderOfTitledFolder |
| exhibiter.py:139 | `add_file` always calls `outPdfWriter.addpages`, but `outPdfWriter` is bound only when --nopdf is absent (exhibiter.py:212) | --nopdf with an exhibit folder "1" holding a readable "a.pdf": NameError on the first kept file | with --nopdf, pages are still counted for the " (n)" suffix and the list, and nothing is written, as the cover-sheet guard at exhibiter.py:78 does | not executed; the name is unbound on that path | ExhibiterScript.FilePagesAsWritten | ExhibiterScript.FilePages |
