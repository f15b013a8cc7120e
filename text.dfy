/** The string and number operations of Python that the exhibit rules are
    written in: the character classes their regular expressions use, the
    `str.strip` family, `int()` and `str()` on integers, `str.find` and
    `str.split(sep, 1)`, and pathlib's split of a file name into stem and suffix. */
module Text {
  import opened Outcomes

  predicate IsDigit(c: char) { '0' <= c <= '9' }

  /** `\d` throughout a string (ASCII digits). */
  predicate AllDigits(s: string) { forall i :: 0 <= i < |s| ==> IsDigit(s[i]) }

  /** `[A-Y]`, the letters an exhibit may be named by. */
  predicate IsIndexLetter(c: char) { 'A' <= c <= 'Y' }

  /** Every character is one that a regular expression's `.` matches (anything but a newline). */
  predicate NoNewline(s: string) { forall i :: 0 <= i < |s| ==> s[i] != '\n' }

  predicate NoChar(s: string, c: char) { forall i :: 0 <= i < |s| ==> s[i] != c }

  lemma {:induction false} NoCharConcat(a: string, b: string, c: char)
    requires NoChar(a, c) && NoChar(b, c)
    ensures NoChar(a + b, c)
  {
    forall i | 0 <= i < |a + b| ensures (a + b)[i] != c {
      if i >= |a| { assert (a + b)[i] == b[i - |a|]; }
    }
  }

  lemma {:induction false} DigitsHaveNoChar(s: string, c: char)
    requires AllDigits(s) && !IsDigit(c)
    ensures NoChar(s, c)
  {
  }

  // ---------------------------------------------------------------------
  // str.lstrip, str.rstrip, str.strip
  // ---------------------------------------------------------------------

  /** `s.lstrip(chars)`: drops every leading character that is in `chars`. */
  function LStrip(s: string, chars: set<char>): (r: string)
    ensures |r| <= |s|
    ensures r == [] || r[0] !in chars
  {
    if s != [] && s[0] in chars then LStrip(s[1..], chars) else s
  }

  /** What `lstrip` keeps is a suffix, and all it drops is in `chars`. */
  lemma {:induction false} LStripDropsOnlyChars(s: string, chars: set<char>)
    ensures LStrip(s, chars) == s[|s| - |LStrip(s, chars)|..]
    ensures forall i :: 0 <= i < |s| - |LStrip(s, chars)| ==> s[i] in chars
  {
    if s != [] && s[0] in chars {
      LStripDropsOnlyChars(s[1..], chars);
    }
  }

  /** `s.rstrip(chars)`: drops every trailing character that is in `chars`. */
  function RStrip(s: string, chars: set<char>): (r: string)
    ensures |r| <= |s| && r == s[..|r|]
    ensures r == [] || r[|r| - 1] !in chars
  {
    if s != [] && s[|s| - 1] in chars then RStrip(s[..|s| - 1], chars) else s
  }

  /** All `rstrip` drops is in `chars`. */
  lemma {:induction false} RStripDropsOnlyChars(s: string, chars: set<char>)
    ensures forall i :: |RStrip(s, chars)| <= i < |s| ==> s[i] in chars
  {
    if s != [] && s[|s| - 1] in chars {
      RStripDropsOnlyChars(s[..|s| - 1], chars);
    }
  }

  /** `s.strip(chars)`. */
  function Strip(s: string, chars: set<char>): (r: string)
    ensures |r| <= |s|
    ensures r == [] || (r[0] !in chars && r[|r| - 1] !in chars)
  {
    RStrip(LStrip(s, chars), chars)
  }

  /** A string that neither starts nor ends with one of `chars` is kept whole. */
  lemma {:induction false} StripKeeps(s: string, chars: set<char>)
    requires s != [] && s[0] !in chars && s[|s| - 1] !in chars
    ensures Strip(s, chars) == s
  {
    assert LStrip(s, chars) == s;
  }

  /** Stripping leaves a string alone whose two ends are not in `chars`, and
      removes exactly the padding `pre` and `post` made of those characters. */
  lemma {:induction false} StripPadded(pre: string, s: string, post: string, chars: set<char>)
    requires forall i :: 0 <= i < |pre| ==> pre[i] in chars
    requires forall i :: 0 <= i < |post| ==> post[i] in chars
    requires s != [] && s[0] !in chars && s[|s| - 1] !in chars
    ensures Strip(pre + s + post, chars) == s
  {
    LStripPrefix(pre, s + post, chars);
    assert pre + s + post == pre + (s + post);
    RStripSuffix(s, post, chars);
  }

  lemma {:induction false} LStripPrefix(pre: string, s: string, chars: set<char>)
    requires forall i :: 0 <= i < |pre| ==> pre[i] in chars
    requires s != [] && s[0] !in chars
    ensures LStrip(pre + s, chars) == s
  {
    if pre != [] {
      assert (pre + s)[1..] == pre[1..] + s;
      LStripPrefix(pre[1..], s, chars);
    } else {
      assert pre + s == s;
    }
  }

  lemma {:induction false} RStripSuffix(s: string, post: string, chars: set<char>)
    requires forall i :: 0 <= i < |post| ==> post[i] in chars
    requires s != [] && s[|s| - 1] !in chars
    ensures RStrip(s + post, chars) == s
  {
    if post != [] {
      var p := post[..|post| - 1];
      assert (s + post)[..|s + post| - 1] == s + p;
      RStripSuffix(s, p, chars);
    } else {
      assert s + post == s;
    }
  }

  // ---------------------------------------------------------------------
  // str() and int() on integers
  // ---------------------------------------------------------------------

  function DigitChar(d: nat): (c: char)
    requires d < 10
    ensures IsDigit(c)
  {
    ('0' as int + d) as char
  }

  function DigitValue(c: char): nat
    requires IsDigit(c)
  {
    c as int - '0' as int
  }

  /** `str(n)` for a natural number: decimal digits, no leading zero. */
  function NatToString(n: nat): (r: string)
    ensures |r| >= 1 && AllDigits(r)
    ensures |r| > 1 ==> r[0] != '0'
    decreases n
  {
    if n < 10 then [DigitChar(n)] else NatToString(n / 10) + [DigitChar(n % 10)]
  }

  /** The value of a string of decimal digits (leading zeros allowed). */
  function DigitsValue(s: string): nat
    requires AllDigits(s)
  {
    if s == [] then 0 else DigitsValue(s[..|s| - 1]) * 10 + DigitValue(s[|s| - 1])
  }

  /** Reading back what `str` wrote gives the number again. */
  lemma {:induction false} DigitsValueOfNatToString(n: nat)
    ensures DigitsValue(NatToString(n)) == n
  {
    if n >= 10 {
      var s := NatToString(n);
      assert s[..|s| - 1] == NatToString(n / 10);
      DigitsValueOfNatToString(n / 10);
    }
  }

  /** `str(i)` for any integer. */
  function IntToString(i: int): string
  {
    if i < 0 then "-" + NatToString(-i) else NatToString(i)
  }

  /** `int(s)` on a sign followed by decimal digits; `None` where Python raises ValueError. */
  function ParseInt(s: string): Option<int>
  {
    if |s| >= 2 && (s[0] == '+' || s[0] == '-') && AllDigits(s[1..]) then
      var v: int := DigitsValue(s[1..]);
      Some(if s[0] == '-' then -v else v)
    else if |s| >= 1 && AllDigits(s) then
      Some(DigitsValue(s))
    else
      None
  }

  /** `int(str(i)) == i`. */
  lemma {:induction false} ParseIntOfIntToString(i: int)
    ensures ParseInt(IntToString(i)) == Some(i)
  {
    if i < 0 {
      var s := IntToString(i);
      assert s[1..] == NatToString(-i);
      DigitsValueOfNatToString(-i);
    } else {
      DigitsValueOfNatToString(i);
    }
  }

  // ---------------------------------------------------------------------
  // str.find, str.split(sep, 1), str.rfind
  // ---------------------------------------------------------------------

  predicate OccursAt(s: string, i: int, lit: string)
  {
    0 <= i && i + |lit| <= |s| && s[i..i + |lit|] == lit
  }

  /** `lit in s`, the regular-expression search of a pattern with no special characters. */
  predicate Contains(s: string, lit: string)
  {
    exists i | 0 <= i <= |s| :: OccursAt(s, i, lit)
  }

  /** `s.find(lit, k)`: the first occurrence at or after `k`, or -1. */
  function FindFrom(s: string, lit: string, k: nat): (r: int)
    ensures r == -1 || (k <= r && OccursAt(s, r, lit))
    ensures forall i :: k <= i && (r == -1 || i < r) ==> !OccursAt(s, i, lit)
    decreases |s| + 1 - k
  {
    if k > |s| then -1
    else if OccursAt(s, k, lit) then k
    else FindFrom(s, lit, k + 1)
  }

  /** `s.split(sep, 1)`: the text before the first `sep`, and the text after it when there is one. */
  function SplitOnce(s: string, sep: string): (r: (string, Option<string>))
    requires sep != []
    ensures r.1.None? ==> r.0 == s && !Contains(s, sep)
    ensures r.1.Some? ==> s == r.0 + sep + r.1.value
    ensures r.1.Some? ==> forall i :: 0 <= i < |r.0| ==> !OccursAt(s, i, sep)
  {
    var i := FindFrom(s, sep, 0);
    if i < 0 then (s, None)
    else
      assert s == s[..i] + sep + s[i + |sep|..];
      (s[..i], Some(s[i + |sep|..]))
  }

  /** Splitting `head + sep + tail` where `sep` cannot start inside `head` gives back the two parts. */
  lemma {:induction false} SplitOnceAt(head: string, sep: string, tail: string)
    requires sep != [] && NoChar(head, sep[0])
    ensures SplitOnce(head + sep + tail, sep) == (head, Some(tail))
  {
    var s := head + sep + tail;
    assert OccursAt(s, |head|, sep);
    forall i | 0 <= i < |head| ensures !OccursAt(s, i, sep) {
      assert s[i] == head[i];
    }
    assert FindFrom(s, sep, 0) == |head|;
    assert s[..|head|] == head && s[|head| + |sep|..] == tail;
  }

  /** An occurrence of `lit` in `x + y` lies wholly in `y` when `x` never holds the first character of `lit`. */
  lemma {:induction false} OccursAfterPrefix(x: string, y: string, i: int, lit: string)
    requires lit != [] && NoChar(x, lit[0]) && OccursAt(x + y, i, lit)
    ensures i >= |x| && OccursAt(y, i - |x|, lit)
  {
    assert (x + y)[i..i + |lit|] == y[i - |x|..i - |x| + |lit|];
  }

  /** `s.rfind(c)`: the last position holding `c`, or -1. */
  function RFind(s: string, c: char): (r: int)
    ensures -1 <= r < |s|
    ensures r >= 0 ==> s[r] == c
  {
    if s == [] then -1
    else if s[|s| - 1] == c then |s| - 1
    else RFind(s[..|s| - 1], c)
  }

  /** No `c` follows the position `RFind` reports. */
  lemma {:induction false} RFindIsLast(s: string, c: char)
    ensures forall i :: RFind(s, c) < i < |s| ==> s[i] != c
  {
    if s != [] && s[|s| - 1] != c {
      RFindIsLast(s[..|s| - 1], c);
    }
  }

  // ---------------------------------------------------------------------
  // pathlib
  // ---------------------------------------------------------------------

  /** `PurePath.suffix`: from the last '.' on, unless that dot starts or ends the name. */
  function Suffix(name: string): string
  {
    var i := RFind(name, '.');
    if 0 < i < |name| - 1 then name[i..] else ""
  }

  /** `PurePath.stem`: the name without its suffix. */
  function Stem(name: string): string
  {
    var i := RFind(name, '.');
    if 0 < i < |name| - 1 then name[..i] else name
  }

  /** `PurePath.suffix[1:]`: the extension without its dot. */
  function Extension(name: string): string
  {
    var i := RFind(name, '.');
    if 0 < i < |name| - 1 then name[i + 1..] else ""
  }

  /** A name is its stem followed by its suffix, and a suffix is one dot and a dot-free rest. */
  lemma {:induction false} StemThenSuffix(name: string)
    ensures Stem(name) + Suffix(name) == name
    ensures Suffix(name) == "" || (Suffix(name)[0] == '.' && NoChar(Suffix(name)[1..], '.'))
  {
    var i := RFind(name, '.');
    RFindIsLast(name, '.');
    if 0 < i < |name| - 1 {
      assert name[..i] + name[i..] == name;
      forall k | 0 <= k < |name[i..][1..]| ensures name[i..][1..][k] != '.' {
        assert name[i..][1..][k] == name[i + 1 + k];
      }
    }
  }

  /** `base.ext` splits into stem `base` and extension `ext` when `ext` holds no dot. */
  lemma {:induction false} StemOfDotted(base: string, ext: string)
    requires base != [] && ext != [] && NoChar(ext, '.')
    ensures Stem(base + "." + ext) == base
    ensures Extension(base + "." + ext) == ext
  {
    var name := base + "." + ext;
    var i := RFind(name, '.');
    RFindIsLast(name, '.');
    assert name[|base|] == '.';
    forall k | |base| < k < |name| ensures name[k] != '.' {
      assert name[k] == ext[k - |base| - 1];
    }
    assert i == |base|;
    assert name[..i] == base;
    assert name[i + 1..] == ext;
  }

  // ---------------------------------------------------------------------
  // Pattern ends and ordering
  // ---------------------------------------------------------------------

  /** A match of `.lit` that ends at `e`: one non-newline character, then `lit`. */
  predicate AnyThenEndsAt(s: string, lit: string, e: int)
  {
    |lit| + 1 <= e <= |s| && s[e - |lit| - 1] != '\n' && s[e - |lit|..e] == lit
  }

  /** `search(".lit$", s)`: `$` matches at the end or just before a final newline. */
  predicate AnyThenAtEnd(s: string, lit: string)
  {
    AnyThenEndsAt(s, lit, |s|) || (|s| >= 1 && s[|s| - 1] == '\n' && AnyThenEndsAt(s, lit, |s| - 1))
  }

  /** The last character a match of `.lit$` leaves at the end of the name is the literal's last. */
  lemma {:induction false} EndsAsLiteral(s: string, lit: string)
    requires lit != [] && AnyThenEndsAt(s, lit, |s|)
    ensures s[|s| - 1] == lit[|lit| - 1]
  {
    assert s[|s| - |lit|..|s|][|lit| - 1] == s[|s| - 1];
  }

  /** Python's `a < b` on strings: lexicographic by code point. */
  predicate Below(a: string, b: string)
  {
    if a == [] then b != []
    else b != [] && (a[0] < b[0] || (a[0] == b[0] && Below(a[1..], b[1..])))
  }

  /** `s.upper()` on ASCII letters; every other character is left as it is. */
  function Upper(s: string): (r: string)
    ensures |r| == |s|
    ensures forall i :: 0 <= i < |s| ==> r[i] == (if 'a' <= s[i] <= 'z' then (s[i] as int - 32) as char else s[i])
  {
    if s == [] then []
    else [if 'a' <= s[0] <= 'z' then (s[0] as int - 32) as char else s[0]] + Upper(s[1..])
  }
}
