/** Naming rules that more than one revision applies word for word: moving
    a leading ISO date to the end, dropping a leading "<digits>. ", the
    "(UNUSED)"/"(EXCLUDE)" omit tag and the document name built from them in
    the two older revisions, the successor of the last exhibit index, and the
    "</p><p>" paragraph joining of list descriptions. */
module Naming {
  import opened Outcomes
  import opened Text

  // ---------------------------------------------------------------------
  // Dates: `^\d{4}-\d{2}-\d{2} .+`
  // ---------------------------------------------------------------------

  /** The name starts "YYYY-MM-DD " and has at least one more character that `.` matches. */
  predicate IsDated(s: string)
  {
    |s| >= 12 && AllDigits(s[0..4]) && s[4] == '-' && AllDigits(s[5..7]) && s[7] == '-'
    && AllDigits(s[8..10]) && s[10] == ' ' && s[11] != '\n'
  }

  /** "YYYY-MM-DD rest" becomes "rest M/D/YY": month and day lose their leading zeros. */
  function MoveDate(s: string): string
    requires IsDated(s)
  {
    s[11..] + " " + LStrip(s[5..7], {'0'}) + "/" + LStrip(s[8..10], {'0'}) + "/" + s[2..4]
  }

  /** `n` written with exactly `width` digits, zero-padded on the left. */
  function Padded(n: nat, width: nat): (r: string)
    requires n < Power10(width)
    ensures |r| == width && AllDigits(r)
  {
    if width == 0 then [] else Padded(n / 10, width - 1) + [DigitChar(n % 10)]
  }

  function Power10(k: nat): (p: nat)
    ensures p >= 1
  {
    if k == 0 then 1 else 10 * Power10(k - 1)
  }

  /** The ISO stamp "YYYY-MM-DD" of a date. */
  function IsoDate(year: nat, month: nat, day: nat): string
    requires year < 10000 && month < 100 && day < 100
  {
    Padded(year, 4) + "-" + Padded(month, 2) + "-" + Padded(day, 2)
  }

  /** A date stamp and the space after it hold no '('. */
  lemma {:induction false} IsoDateHasNoParen(year: nat, month: nat, day: nat)
    requires year < 10000 && month < 100 && day < 100
    ensures NoChar(IsoDate(year, month, day) + " ", '(')
  {
    assert Power10(2) == 100 && Power10(4) == 10000;
    var y, m, d := Padded(year, 4), Padded(month, 2), Padded(day, 2);
    DigitsHaveNoChar(y, '(');
    DigitsHaveNoChar(m, '(');
    DigitsHaveNoChar(d, '(');
    NoCharConcat(y, "-", '(');
    NoCharConcat(y + "-", m, '(');
    NoCharConcat(y + "-" + m, "-", '(');
    NoCharConcat(y + "-" + m + "-", d, '(');
    NoCharConcat(y + "-" + m + "-" + d, " ", '(');
  }

  /** Dropping the leading zeros of a two-digit field gives the plain decimal number. */
  lemma {:induction false} UnpadTwoDigits(n: nat)
    requires 1 <= n < 100
    ensures LStrip(Padded(n, 2), {'0'}) == NatToString(n)
  {
    assert Power10(1) == 10 && Power10(2) == 100;
    assert Padded(n / 10, 1) == [DigitChar(n / 10)];
    assert Padded(n, 2) == [DigitChar(n / 10), DigitChar(n % 10)];
    if n < 10 {
      UnpadLeadingZero(n);
    } else {
      UnpadNoZero(n);
    }
  }

  lemma {:induction false} UnpadLeadingZero(n: nat)
    requires 1 <= n < 10
    ensures LStrip([DigitChar(0), DigitChar(n)], {'0'}) == NatToString(n)
  {
    var p := [DigitChar(0), DigitChar(n)];
    assert p[1..] == [DigitChar(n)];
    assert LStrip(p[1..], {'0'}) == p[1..];
  }

  lemma {:induction false} UnpadNoZero(n: nat)
    requires 10 <= n < 100
    ensures LStrip([DigitChar(n / 10), DigitChar(n % 10)], {'0'}) == NatToString(n)
  {
    assert NatToString(n / 10) == [DigitChar(n / 10)];
  }

  /** The last two digits of a four-digit year. */
  lemma {:induction false} LastTwoDigitsOfYear(year: nat)
    requires year < 10000
    ensures Padded(year, 4)[2..4] == Padded(year % 100, 2)
  {
    var t, r := year / 10, year % 100;
    assert Power10(1) == 10 && Power10(2) == 100 && Power10(3) == 1000;
    assert Padded(year, 4) == Padded(t, 3) + [DigitChar(year % 10)];
    assert Padded(t, 3) == Padded(t / 10, 2) + [DigitChar(t % 10)];
    assert Padded(r, 2) == Padded(r / 10, 1) + [DigitChar(r % 10)];
    assert Padded(r / 10, 1) == [DigitChar(r / 10 % 10)];
    TensAndUnits(year);
  }

  lemma {:induction false} TensAndUnits(n: nat)
    ensures (n % 100) / 10 % 10 == (n / 10) % 10 && (n % 100) % 10 == n % 10
  {
    var q := n / 100;
    assert n == 100 * q + n % 100;
    assert n / 10 == 10 * q + (n % 100) / 10;
  }

  /** Where each field of "YYYY-MM-DD rest" sits. */
  lemma {:induction false} IsoFields(y: string, m: string, d: string, rest: string)
    requires |y| == 4 && |m| == 2 && |d| == 2
    ensures var s := y + "-" + m + "-" + d + " " + rest;
      s[0..4] == y && s[4] == '-' && s[5..7] == m && s[7] == '-' && s[8..10] == d
      && s[10] == ' ' && s[11..] == rest
  {
    var s := y + "-" + m + "-" + d + " " + rest;
    assert s == y + ("-" + (m + ("-" + (d + (" " + rest)))));
  }

  /** "YYYY-MM-DD rest" is recognised and rewritten as "rest M/D/YY" for every
      date whose month and day are not zero, e.g. "2022-01-15 Photo" as "Photo 1/15/22". */
  lemma {:induction false} MoveDateOfIso(year: nat, month: nat, day: nat, rest: string)
    requires year < 10000 && 1 <= month < 100 && 1 <= day < 100
    requires rest != [] && rest[0] != '\n'
    ensures IsDated(IsoDate(year, month, day) + " " + rest)
    ensures MoveDate(IsoDate(year, month, day) + " " + rest)
         == rest + " " + NatToString(month) + "/" + NatToString(day) + "/" + Padded(year % 100, 2)
  {
    assert Power10(2) == 100 && Power10(4) == 10000;
    var y, m, d := Padded(year, 4), Padded(month, 2), Padded(day, 2);
    var s := IsoDate(year, month, day) + " " + rest;
    assert s == y + "-" + m + "-" + d + " " + rest;
    IsoFields(y, m, d, rest);
    UnpadTwoDigits(month);
    UnpadTwoDigits(day);
    LastTwoDigitsOfYear(year);
  }

  // ---------------------------------------------------------------------
  // Leading numbers: `^\d+\. `
  // ---------------------------------------------------------------------

  /** The length of the run of digits the name starts with. */
  function DigitRun(s: string): (k: nat)
    ensures k <= |s| && AllDigits(s[..k])
    ensures k < |s| ==> !IsDigit(s[k])
  {
    if s != [] && IsDigit(s[0]) then
      var k := 1 + DigitRun(s[1..]);
      assert s[..k] == [s[0]] + s[1..][..k - 1];
      k
    else 0
  }

  /** `search("^\d+\. ", s)`. */
  predicate HasNumberPrefix(s: string)
  {
    var k := DigitRun(s);
    k > 0 && k + 2 <= |s| && s[k] == '.' && s[k + 1] == ' '
  }

  /** `sub("^\d+\. ", "", s)`. */
  function StripNumberPrefix(s: string): string
  {
    if HasNumberPrefix(s) then s[DigitRun(s) + 2..] else s
  }

  /** The digit run of `digits + rest` is `digits` when `rest` does not start with a digit. */
  lemma {:induction false} DigitRunOf(digits: string, rest: string)
    requires AllDigits(digits)
    requires rest == [] || !IsDigit(rest[0])
    ensures DigitRun(digits + rest) == |digits|
  {
    if digits != [] {
      assert (digits + rest)[1..] == digits[1..] + rest;
      DigitRunOf(digits[1..], rest);
    } else {
      assert digits + rest == rest;
    }
  }

  /** "<digits>. rest" loses exactly its number: "3. Lease" becomes "Lease". */
  lemma {:induction false} StripNumberPrefixOf(digits: string, rest: string)
    requires digits != [] && AllDigits(digits)
    ensures StripNumberPrefix(digits + ". " + rest) == rest
  {
    var s := digits + ". " + rest;
    assert s == digits + (". " + rest);
    DigitRunOf(digits, ". " + rest);
    assert s[|digits| + 2..] == rest;
  }

  /** A name that does not start with a digit is never touched. */
  lemma {:induction false} StripNumberPrefixKeeps(s: string)
    requires s == [] || !IsDigit(s[0])
    ensures StripNumberPrefix(s) == s
  {
  }

  /** A name starting "<digits>." is never dated: the date needs four digits and a dash. */
  lemma {:induction false} NumberedIsNotDated(digits: string, rest: string)
    requires digits != [] && AllDigits(digits)
    ensures !IsDated(digits + "." + rest)
  {
    var s := digits + "." + rest;
    if |s| >= 12 && |digits| < 4 {
      assert s[0..4][|digits|] == '.';
    }
    if |s| >= 12 && |digits| >= 4 {
      assert s[4] == '.' || s[4] == digits[4];
    }
  }

  // ---------------------------------------------------------------------
  // The omit tag of the two older revisions: `\(UNUSED\)|\(EXCLUDE\)`
  // ---------------------------------------------------------------------

  predicate IsOmitTag(t: string) { t == "(UNUSED)" || t == "(EXCLUDE)" }

  predicate OmitTagAt(s: string, i: int)
  {
    OccursAt(s, i, "(UNUSED)") || OccursAt(s, i, "(EXCLUDE)")
  }

  /** `search(omitPattern, s)`. */
  predicate HasOmitTag(s: string)
  {
    exists i | 0 <= i <= |s| :: OmitTagAt(s, i)
  }

  /** `sub(omitPattern, "", s)`: every tag met scanning left to right is deleted; nothing else is. */
  function RemoveOmitTags(s: string): (r: string)
    ensures |r| <= |s|
    decreases |s|
  {
    if s == [] then []
    else if OccursAt(s, 0, "(UNUSED)") then RemoveOmitTags(s[8..])
    else if OccursAt(s, 0, "(EXCLUDE)") then RemoveOmitTags(s[9..])
    else [s[0]] + RemoveOmitTags(s[1..])
  }

  /** A name with no omit tag comes out unchanged. */
  lemma {:induction false} RemoveOmitTagsKeeps(s: string)
    requires !HasOmitTag(s)
    ensures RemoveOmitTags(s) == s
  {
    if s != [] {
      assert !OmitTagAt(s, 0);
      forall i | 0 <= i <= |s[1..]| ensures !OmitTagAt(s[1..], i) {
        if OmitTagAt(s[1..], i) {
          assert s[1..][i..] == s[i + 1..];
          assert OmitTagAt(s, i + 1);
        }
      }
      RemoveOmitTagsKeeps(s[1..]);
    }
  }

  /** A tag at the front is deleted and scanning goes on after it. */
  lemma {:induction false} RemoveOmitTagsAtTag(tag: string, y: string)
    requires IsOmitTag(tag)
    ensures RemoveOmitTags(tag + y) == RemoveOmitTags(y)
  {
    var s := tag + y;
    if tag == "(UNUSED)" {
      assert s[0..8] == tag && s[8..] == y;
    } else {
      assert s[1] == 'E';
      assert !OccursAt(s, 0, "(UNUSED)");
      assert s[0..9] == tag && s[9..] == y;
    }
  }

  /** A character other than '(' never starts a tag and is kept. */
  lemma {:induction false} RemoveOmitTagsPlain(c: char, t: string)
    requires c != '('
    ensures RemoveOmitTags([c] + t) == [c] + RemoveOmitTags(t)
  {
    var s := [c] + t;
    assert s[0] == c && s[1..] == t;
  }

  /** A tag is deleted on its own, and the text before it (which holds no '(') is kept whole. */
  lemma {:induction false} RemoveOmitTagsAround(x: string, tag: string, y: string)
    requires NoChar(x, '(') && IsOmitTag(tag)
    ensures RemoveOmitTags(x + tag + y) == x + RemoveOmitTags(y)
  {
    assert x + tag + y == x + (tag + y);
    RemoveOmitTagsPlainPrefix(x, tag + y);
    RemoveOmitTagsAtTag(tag, y);
  }

  /** Text without '(' never starts a tag and is kept whole. */
  lemma {:induction false} RemoveOmitTagsPlainPrefix(x: string, t: string)
    requires NoChar(x, '(')
    ensures RemoveOmitTags(x + t) == x + RemoveOmitTags(t)
  {
    if x == [] {
      assert x + t == t;
    } else {
      var rest := x[1..] + t;
      assert x + t == [x[0]] + rest;
      RemoveOmitTagsPlain(x[0], rest);
      RemoveOmitTagsPlainPrefix(x[1..], t);
      assert x == [x[0]] + x[1..];
    }
  }

  /** Text without '(' in front of a tag-free name keeps the whole free of tags. */
  lemma {:induction false} NoOmitTagAfterPlainPrefix(x: string, y: string)
    requires NoChar(x, '(') && !HasOmitTag(y)
    ensures !HasOmitTag(x + y)
  {
    forall i | 0 <= i <= |x + y| ensures !OmitTagAt(x + y, i) {
      if OccursAt(x + y, i, "(UNUSED)") {
        OccursAfterPrefix(x, y, i, "(UNUSED)");
        assert OmitTagAt(y, i - |x|);
      }
      if OccursAt(x + y, i, "(EXCLUDE)") {
        OccursAfterPrefix(x, y, i, "(EXCLUDE)");
        assert OmitTagAt(y, i - |x|);
      }
    }
  }

  // ---------------------------------------------------------------------
  // Document names in the two older revisions
  // ---------------------------------------------------------------------

  /** A document's display name: omit tags removed and spaces trimmed, then
      "<digits>. " dropped unless digits are kept, then a leading date moved
      to the end. Unlike the current revision, the number is dropped first,
      so one name can lose its number and have its date moved. */
  function LegacyName(stem: string, keepDigits: bool): string
  {
    var untagged := Strip(RemoveOmitTags(stem), {' '});
    var numbered := if keepDigits then untagged else StripNumberPrefix(untagged);
    if IsDated(numbered) then MoveDate(numbered) else numbered
  }

  /** "<digits>. YYYY-MM-DD rest" has both rules applied: "3. 2022-01-15 Photo" is named "Photo 1/15/22". */
  lemma {:induction false} LegacyNameNumberedAndDated(digits: string, year: nat, month: nat, day: nat, rest: string)
    requires digits != [] && AllDigits(digits)
    requires year < 10000 && 1 <= month < 100 && 1 <= day < 100
    requires rest != [] && rest[0] != '\n' && rest[|rest| - 1] != ' ' && !HasOmitTag(rest)
    ensures LegacyName(digits + ". " + IsoDate(year, month, day) + " " + rest, false)
         == rest + " " + NatToString(month) + "/" + NatToString(day) + "/" + Padded(year % 100, 2)
  {
    var dated := IsoDate(year, month, day) + " " + rest;
    var stem := digits + ". " + dated;
    assert stem == digits + ". " + IsoDate(year, month, day) + " " + rest;
    NumberedDateUntouched(digits, year, month, day, rest);
    StripNumberPrefixOf(digits, dated);
    MoveDateOfIso(year, month, day, rest);
  }

  /** Neither the omit tags nor the trimming of spaces touch such a name. */
  lemma {:induction false} NumberedDateUntouched(digits: string, year: nat, month: nat, day: nat, rest: string)
    requires digits != [] && AllDigits(digits)
    requires year < 10000 && month < 100 && day < 100
    requires rest != [] && rest[|rest| - 1] != ' ' && !HasOmitTag(rest)
    ensures var stem := digits + ". " + IsoDate(year, month, day) + " " + rest;
      Strip(RemoveOmitTags(stem), {' '}) == stem
  {
    var date := IsoDate(year, month, day);
    var stem := digits + ". " + date + " " + rest;
    var head := digits + ". " + (date + " ");
    assert stem == head + rest;
    DigitsHaveNoChar(digits, '(');
    NoCharConcat(digits, ". ", '(');
    IsoDateHasNoParen(year, month, day);
    NoCharConcat(digits + ". ", date + " ", '(');
    NoOmitTagAfterPlainPrefix(head, rest);
    RemoveOmitTagsKeeps(stem);
    assert stem[0] == digits[0] && stem[|stem| - 1] == rest[|rest| - 1];
    StripKeeps(stem, {' '});
  }

  /** A tagged name that is neither numbered nor dated keeps only its text:
      "Lease (UNUSED)" is named "Lease", with or without kept digits. */
  lemma {:induction false} LegacyNameDropsTag(title: string, tag: string, keepDigits: bool)
    requires title != [] && NoChar(title, '(') && IsOmitTag(tag)
    requires !IsDigit(title[0]) && title[0] != ' ' && title[|title| - 1] != ' '
    ensures LegacyName(title + " " + tag, keepDigits) == title
  {
    var stem := title + " " + tag;
    assert RemoveOmitTags(stem) == title + " " by {
      NoCharConcat(title, " ", '(');
      RemoveOmitTagsAround(title + " ", tag, "");
      assert stem + "" == stem;
    }
    assert Strip(title + " ", {' '}) == title by {
      assert title + " " == "" + title + " ";
      StripPadded("", title, " ", {' '});
    }
    StripNumberPrefixKeeps(title);
    assert !IsDated(title) by {
      if |title| >= 4 { assert title[0..4][0] == title[0]; }
    }
  }

  // ---------------------------------------------------------------------
  // The index reserved for rebuttal
  // ---------------------------------------------------------------------

  /** `search("[A-Y]", s)`. */
  predicate HasIndexLetter(s: string)
  {
    exists k | 0 <= k < |s| :: IsIndexLetter(s[k])
  }

  /** The index after `last`: the next character when `last` holds a letter
      A-Y (which needs `last` to be one character, else `ord` raises), and
      otherwise the integer plus one (which needs `last` to be an integer). */
  function NextIndex(last: string): Result<string>
  {
    if HasIndexLetter(last) then
      if |last| == 1 then
        assert IsIndexLetter(last[0]);
        Ok([(last[0] as int + 1) as char])
      else Err(TypeError(last))
    else
      match ParseInt(last)
      case Some(n) => Ok(IntToString(n + 1))
      case None => Err(ValueError(last))
  }

  /** Letters step to the next letter: "B" is followed by "C" and "Y" by "Z". */
  lemma {:induction false} NextIndexOfLetter(c: char)
    requires IsIndexLetter(c)
    ensures NextIndex([c]).Ok?
    ensures |NextIndex([c]).value| == 1
    ensures NextIndex([c]).value[0] as int == c as int + 1 && 'B' <= NextIndex([c]).value[0] <= 'Z'
  {
    assert IsIndexLetter([c][0]);
  }

  /** Numbers step to the next number: "12" is followed by "13". */
  lemma {:induction false} NextIndexOfNumber(n: nat)
    ensures NextIndex(NatToString(n)) == Ok(NatToString(n + 1))
  {
    var s := NatToString(n);
    assert !HasIndexLetter(s) by {
      forall k | 0 <= k < |s| ensures !IsIndexLetter(s[k]) { assert IsDigit(s[k]); }
    }
    DigitsValueOfNatToString(n);
  }

  /** An index of several characters that holds a capital letter has no successor: `ord` raises. */
  lemma {:induction false} NextIndexOfWord(last: string, k: nat)
    requires |last| > 1 && k < |last| && IsIndexLetter(last[k])
    ensures NextIndex(last) == Err(TypeError(last))
  {
  }

  /** The reserved index is never the last index itself. */
  lemma {:induction false} NextIndexIsNew(last: string)
    requires NextIndex(last).Ok?
    ensures NextIndex(last).value != last
  {
    if !HasIndexLetter(last) {
      var n := ParseInt(last).value;
      ParseIntOfIntToString(n + 1);
    }
  }

  // ---------------------------------------------------------------------
  // Paragraphs of a list description
  // ---------------------------------------------------------------------

  const Separator: string := "</p><p>"

  /** Appends one line to a description, after a separator unless the description is still empty. */
  function AppendParagraph(description: string, line: string): string
  {
    (if description == "" then "" else description + Separator) + line
  }

  /** Appends lines one after another, as a loop of `AppendParagraph` calls does. */
  function AppendAll(description: string, lines: seq<string>): string
    decreases |lines|
  {
    if lines == [] then description
    else AppendAll(AppendParagraph(description, lines[0]), lines[1..])
  }

  /** The parts joined by the separator, `Separator.join(parts)`. */
  function Join(parts: seq<string>): string
  {
    if |parts| == 0 then ""
    else if |parts| == 1 then parts[0]
    else Join(parts[..|parts| - 1]) + Separator + parts[|parts| - 1]
  }

  predicate NoneEmpty(parts: seq<string>) { forall i :: 0 <= i < |parts| ==> parts[i] != "" }

  lemma {:induction false} JoinNonEmpty(parts: seq<string>)
    requires parts != [] && NoneEmpty(parts)
    ensures Join(parts) != ""
  {
    if |parts| > 1 {
      assert Join(parts) == Join(parts[..|parts| - 1]) + Separator + parts[|parts| - 1];
      assert |Join(parts)| >= |Separator|;
    }
  }

  /** When no line is empty, appending lines to the joined paragraphs so far
      is joining them all: the description is the title line and the
      document lines separated by "</p><p>". */
  lemma {:induction false} AppendAllIsJoin(parts: seq<string>, lines: seq<string>)
    requires NoneEmpty(parts) && NoneEmpty(lines)
    ensures AppendAll(Join(parts), lines) == Join(parts + lines)
    decreases |lines|
  {
    if lines == [] {
      assert parts + lines == parts;
    } else {
      var next := parts + [lines[0]];
      assert lines[0] != "";
      if parts == [] {
        assert AppendParagraph(Join(parts), lines[0]) == Join(next);
      } else {
        JoinNonEmpty(parts);
        assert next[..|next| - 1] == parts;
        assert AppendParagraph(Join(parts), lines[0]) == Join(next);
      }
      assert NoneEmpty(next);
      AppendAllIsJoin(next, lines[1..]);
      assert next + lines[1..] == parts + lines;
    }
  }

  /** Appending one more line after several is one more paragraph. */
  lemma {:induction false} AppendAllSnoc(description: string, lines: seq<string>, line: string)
    ensures AppendAll(description, lines + [line]) == AppendParagraph(AppendAll(description, lines), line)
    decreases |lines|
  {
    if lines == [] {
      assert lines + [line] == [line];
      assert [line][1..] == [];
    } else {
      assert (lines + [line])[0] == lines[0];
      assert (lines + [line])[1..] == lines[1..] + [line];
      AppendAllSnoc(AppendParagraph(description, lines[0]), lines[1..], line);
    }
  }

  // ---------------------------------------------------------------------
  // Exhibit titles: `sub(omitPattern, "", rest).strip('( )')`
  // ---------------------------------------------------------------------

  /** `sub(omitPattern, "", rest).strip('( )')`. */
  function TitleOf(rest: string): string
  {
    Strip(RemoveOmitTags(rest), {'(', ' ', ')'})
  }

  /** A title followed by an omit tag loses the tag and the space before it. */
  lemma {:induction false} TitleOfTagged(title: string, tag: string)
    requires title != [] && NoChar(title, '(') && IsOmitTag(tag)
    requires title[0] !in {'(', ' ', ')'} && title[|title| - 1] !in {'(', ' ', ')'}
    ensures TitleOf(title + " " + tag) == title
  {
    var rest := title + " " + tag;
    assert RemoveOmitTags(rest) == title + " " by {
      NoCharConcat(title, " ", '(');
      RemoveOmitTagsAround(title + " ", tag, "");
      assert rest + "" == rest;
    }
    assert title + " " == "" + title + " ";
    StripPadded("", title, " ", {'(', ' ', ')'});
  }
}
