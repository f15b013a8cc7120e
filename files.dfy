/** The evidence folder as the program sees it: a tree of named files and
    folders. A file is known only by what the PDF and image readers would
    make of it; each folder's children are listed in sorted order, which is
    the order every revision walks them in. */
module Files {
  import opened Outcomes
  import opened Text

  type Dim = n: nat | n > 0 witness 1

  /** What a file holds: a PDF with some number of pages, an image of some
      size, or anything else (which both readers refuse). */
  datatype Content = Pdf(pages: nat) | Image(width: Dim, height: Dim) | Other

  /** A folder also carries the text of its `evidentiary disputes.txt`, when it has one. */
  datatype Entry =
    | File(name: string, content: Content)
    | Folder(name: string, children: seq<Entry>, disputes: Option<string>)

  /** The entries are in Python's sorted order of their names. */
  predicate SortedByName(es: seq<Entry>)
  {
    forall i, j :: 0 <= i < j < |es| ==> Below(es[i].name, es[j].name)
  }

  /** Every file in and below `e`, in sorted path order: a depth-first walk
      of sorted folders lists `a/x` before `b` whenever `a` sorts before `b`,
      which is how pathlib orders the paths a recursive glob returns. */
  function NestedFiles(e: Entry): (r: seq<Entry>)
    ensures forall i :: 0 <= i < |r| ==> r[i].File?
    ensures e.File? ==> r == [e]
    decreases e, 1
  {
    match e
    case File(_, _) => [e]
    case Folder(_, _, _) => NestedFilesFrom(e, 0)
  }

  function NestedFilesFrom(e: Entry, k: nat): (r: seq<Entry>)
    requires e.Folder?
    ensures forall i :: 0 <= i < |r| ==> r[i].File?
    decreases e, 0, |e.children| - k
  {
    if k >= |e.children| then []
    else NestedFiles(e.children[k]) + NestedFilesFrom(e, k + 1)
  }

  /** Taking one more element of a listing appends that element. */
  lemma {:induction false} TakeSnoc<T>(s: seq<T>, i: nat)
    requires i < |s|
    ensures s[..i + 1] == s[..i] + [s[i]]
  {
  }

  /** A listing is its first `i` elements followed by the rest. */
  lemma {:induction false} TakeDrop<T>(s: seq<T>, i: nat)
    requires i <= |s|
    ensures s == s[..i] + s[i..]
  {
  }

  /** The entries `keep` accepts, in their original order. */
  function Filter(es: seq<Entry>, keep: Entry -> bool): (r: seq<Entry>)
    ensures |r| <= |es|
  {
    if es == [] then []
    else Filter(es[..|es| - 1], keep) + (if keep(es[|es| - 1]) then [es[|es| - 1]] else [])
  }

  /** The filter keeps exactly the entries `keep` accepts. */
  lemma {:induction false} FilterMembers(es: seq<Entry>, keep: Entry -> bool)
    ensures forall x :: x in Filter(es, keep) <==> x in es && keep(x)
  {
    if es != [] {
      FilterMembers(es[..|es| - 1], keep);
      assert es == es[..|es| - 1] + [es[|es| - 1]];
    }
  }

  lemma {:induction false} FilterSnoc(es: seq<Entry>, x: Entry, keep: Entry -> bool)
    ensures Filter(es + [x], keep) == Filter(es, keep) + (if keep(x) then [x] else [])
  {
    assert (es + [x])[..|es|] == es;
  }

  /** Filtering a listing in two halves is filtering it whole. */
  lemma {:induction false} FilterAppend(a: seq<Entry>, b: seq<Entry>, keep: Entry -> bool)
    ensures Filter(a + b, keep) == Filter(a, keep) + Filter(b, keep)
    decreases |b|
  {
    if b == [] {
      assert a + b == a;
    } else {
      var b' := b[..|b| - 1];
      assert (a + b)[..|a + b| - 1] == a + b';
      FilterAppend(a, b', keep);
    }
  }

  /** Filtering a sorted listing keeps it sorted. */
  lemma {:induction false} FilterSorted(es: seq<Entry>, keep: Entry -> bool)
    requires SortedByName(es)
    ensures SortedByName(Filter(es, keep))
  {
    if es != [] {
      var front := es[..|es| - 1];
      var last := es[|es| - 1];
      assert SortedByName(front);
      FilterSorted(front, keep);
      FilterMembers(front, keep);
      var r := Filter(es, keep);
      var f := Filter(front, keep);
      if keep(last) {
        forall i, j | 0 <= i < j < |r| ensures Below(r[i].name, r[j].name) {
          if j == |r| - 1 {
            assert r[i] == f[i] && f[i] in front;
            var k :| 0 <= k < |front| && front[k] == f[i];
            assert es[k] == r[i] && es[|es| - 1] == r[j];
          } else {
            assert r[i] == f[i] && r[j] == f[j];
          }
        }
      }
    }
  }

  // ---------------------------------------------------------------------
  // Pages of a run of files
  // ---------------------------------------------------------------------

  /** The pages of several files together, or the first error among them,
      when `count` gives each file's pages or error. */
  function Total(files: seq<Entry>, count: Entry -> Result<nat>): Result<nat>
  {
    if files == [] then Ok(0)
    else
      match Total(files[..|files| - 1], count)
      case Err(e) => Err(e)
      case Ok(t) =>
        match count(files[|files| - 1])
        case Err(e) => Err(e)
        case Ok(p) => Ok(t + p)
  }

  /** A file that counts adds its pages to those before it. */
  lemma {:induction false} TotalAdds(files: seq<Entry>, f: Entry, count: Entry -> Result<nat>, t: nat)
    requires Total(files, count) == Ok(t) && count(f).Ok?
    ensures Total(files + [f], count) == Ok(t + count(f).value)
  {
    assert (files + [f])[..|files|] == files;
  }

  /** A single file comes to its own pages, or its own error. */
  lemma {:induction false} TotalOne(f: Entry, count: Entry -> Result<nat>)
    ensures Total([f], count) == count(f)
  {
    assert [f][..0] == [];
  }

  /** A file that fails after those before it counted decides the outcome. */
  lemma {:induction false} TotalFails(files: seq<Entry>, f: Entry, count: Entry -> Result<nat>)
    requires Total(files, count).Ok? && count(f).Err?
    ensures Total(files + [f], count) == count(f)
  {
    assert (files + [f])[..|files|] == files;
  }

  /** Once a file has failed, no later file changes the outcome. */
  lemma {:induction false} TotalKeepsError(a: seq<Entry>, b: seq<Entry>, count: Entry -> Result<nat>)
    requires Total(a, count).Err?
    ensures Total(a + b, count) == Total(a, count)
    decreases |b|
  {
    if b == [] {
      assert a + b == a;
    } else {
      assert (a + b)[..|a + b| - 1] == a + b[..|b| - 1];
      TotalKeepsError(a, b[..|b| - 1], count);
    }
  }

  /** How the outcome of the files kept so far changes with a kept file
      whose own outcome is `r`: it adds its pages, or its failure decides
      the outcome of the whole sequence. */
  lemma {:induction false} KeptStep(paths: seq<Entry>, i: nat, keep: Entry -> bool, count: Entry -> Result<nat>, t: nat,
                                    r: Result<nat>)
    requires i < |paths| && Total(Filter(paths[..i], keep), count) == Ok(t)
    requires keep(paths[i]) && count(paths[i]) == r
    ensures r.Ok? ==> Total(Filter(paths[..i + 1], keep), count) == Ok(t + r.value)
    ensures r.Err? ==> Total(Filter(paths, keep), count) == r
  {
    if r.Ok? {
      FilesAdd(paths, i, keep, count, t);
    } else {
      FilesFail(paths, i, keep, count);
    }
  }

  lemma {:induction false} FilesSkip(paths: seq<Entry>, i: nat, keep: Entry -> bool, count: Entry -> Result<nat>, t: nat)
    requires i < |paths| && Total(Filter(paths[..i], keep), count) == Ok(t) && !keep(paths[i])
    ensures Total(Filter(paths[..i + 1], keep), count) == Ok(t)
  {
    var kept := Filter(paths[..i], keep);
    TakeSnoc(paths, i);
    FilterSnoc(paths[..i], paths[i], keep);
    assert kept + [] == kept;
  }

  lemma {:induction false} FilesAdd(paths: seq<Entry>, i: nat, keep: Entry -> bool, count: Entry -> Result<nat>, t: nat)
    requires i < |paths| && Total(Filter(paths[..i], keep), count) == Ok(t)
    requires keep(paths[i]) && count(paths[i]).Ok?
    ensures Total(Filter(paths[..i + 1], keep), count) == Ok(t + count(paths[i]).value)
  {
    TakeSnoc(paths, i);
    FilterSnoc(paths[..i], paths[i], keep);
    TotalAdds(Filter(paths[..i], keep), paths[i], count, t);
  }

  lemma {:induction false} FilesFail(paths: seq<Entry>, i: nat, keep: Entry -> bool, count: Entry -> Result<nat>)
    requires i < |paths| && Total(Filter(paths[..i], keep), count).Ok?
    requires keep(paths[i]) && count(paths[i]).Err?
    ensures Total(Filter(paths, keep), count) == count(paths[i])
  {
    var upto := Filter(paths[..i], keep) + [paths[i]];
    TakeSnoc(paths, i);
    FilterSnoc(paths[..i], paths[i], keep);
    TotalFails(Filter(paths[..i], keep), paths[i], count);
    TakeDrop(paths, i + 1);
    FilterAppend(paths[..i + 1], paths[i + 1..], keep);
    TotalKeepsError(upto, Filter(paths[i + 1..], keep), count);
  }

  /** The files `filesOf` gives for each document, one document after another. */
  function Concat(docs: seq<Entry>, filesOf: Entry -> seq<Entry>): seq<Entry>
  {
    if docs == [] then []
    else Concat(docs[..|docs| - 1], filesOf) + filesOf(docs[|docs| - 1])
  }

  /** The files of two runs of documents are those of the first, then those of the second. */
  lemma {:induction false} ConcatAppend(a: seq<Entry>, b: seq<Entry>, filesOf: Entry -> seq<Entry>)
    ensures Concat(a + b, filesOf) == Concat(a, filesOf) + Concat(b, filesOf)
    decreases |b|
  {
    if b == [] {
      assert a + b == a;
    } else {
      var b', last := b[..|b| - 1], b[|b| - 1];
      assert (a + b)[..|a + b| - 1] == a + b' && (a + b)[|a + b| - 1] == last;
      ConcatAppend(a, b', filesOf);
      calc {
        Concat(a + b, filesOf);
        Concat(a + b', filesOf) + filesOf(last);
        Concat(a, filesOf) + Concat(b', filesOf) + filesOf(last);
        Concat(a, filesOf) + Concat(b, filesOf);
      }
    }
  }

  /** The outcome of files in two runs: the pages add up, or the first error wins. */
  lemma {:induction false} TotalConcat(a: seq<Entry>, b: seq<Entry>, count: Entry -> Result<nat>)
    requires Total(a, count).Ok?
    ensures Total(b, count).Ok? ==> Total(a + b, count) == Ok(Total(a, count).value + Total(b, count).value)
    ensures Total(b, count).Err? ==> Total(a + b, count) == Total(b, count)
    decreases |b|
  {
    if b == [] {
      assert a + b == a;
    } else {
      var b', last := b[..|b| - 1], b[|b| - 1];
      assert b == b' + [last];
      assert a + b == (a + b') + [last];
      TotalConcat(a, b', count);
      if Total(b', count).Err? {
        TotalKeepsError(b', [last], count);
      } else if count(last).Ok? {
        TotalAdds(b', last, count, Total(b', count).value);
        TotalAdds(a + b', last, count, Total(a + b', count).value);
      } else {
        TotalFails(b', last, count);
        TotalFails(a + b', last, count);
      }
    }
  }

  /** How the outcome of the documents added so far changes with the next one. */
  lemma {:induction false} DocumentsStep(docs: seq<Entry>, i: nat, filesOf: Entry -> seq<Entry>, count: Entry -> Result<nat>,
                                         t: nat)
    requires i < |docs| && Total(Concat(docs[..i], filesOf), count) == Ok(t)
    ensures var r := Total(filesOf(docs[i]), count);
      (r.Ok? ==> Total(Concat(docs[..i + 1], filesOf), count) == Ok(t + r.value))
      && (r.Err? ==> Total(Concat(docs, filesOf), count) == r)
  {
    var before := Concat(docs[..i], filesOf);
    var here := filesOf(docs[i]);
    TakeSnoc(docs, i);
    assert docs[..i + 1][..i] == docs[..i];
    assert Concat(docs[..i + 1], filesOf) == before + here;
    TotalConcat(before, here, count);
    if Total(here, count).Err? {
      TakeDrop(docs, i + 1);
      ConcatAppend(docs[..i + 1], docs[i + 1..], filesOf);
      TotalKeepsError(before + here, Concat(docs[i + 1..], filesOf), count);
    }
  }

  /** How the two older revisions read one file (`Document.include`,
      `add_file`): a name ending in "pdf" (after any character) goes to the
      PDF reader, every other name to the image reader, which turns a
      picture into one page. A reader refuses what it cannot open, folders
      included; "Scan.PDF" goes to the image reader. */
  function PagesOf(f: Entry): Result<nat>
  {
    if AnyThenAtEnd(f.name, "pdf") then
      if f.File? && f.content.Pdf? then Ok(f.content.pages) else Err(Unreadable(f.name))
    else if f.File? && f.content.Image? then Ok(1)
    else Err(Unreadable(f.name))
  }

  /** `count` gives what `PagesOf` gives. The methods of the older
      revisions take the page count as such a ghost parameter, which only ever stands for `PagesOf`
      itself, so that the verifier does not unfold the name tests where
      only the totals matter. */
  ghost predicate ReadsPages(count: Entry -> Result<nat>)
  {
    forall f {:trigger PagesOf(f)} :: count(f) == PagesOf(f)
  }
}
