/**
 * The parts of Python's `str` and list semantics that the modelled code relies on:
 * `isspace`, `strip`, `lower`, `split()`, `split(sep)`, `sep.join`, `re.sub(r'\s+', ' ', s)`,
 * `re.sub(r'\n+', '\n', s)`, slicing with clamped and negative bounds, and negative indexing.
 */
module PyText {
  import opened Wrappers

  /** How many characters `str.isspace()` accepts. */
  const SpaceCount: nat := 29

  /** The `i`-th of the characters for which Python 3's `str.isspace()` holds; `\s` in a `str`
      pattern matches the same ones. */
  function SpaceChar(i: nat): char {
    if i == 0 then ' '
    else if i == 1 then '\t'
    else if i == 2 then '\n'
    else if i == 3 then '\U{b}'
    else if i == 4 then '\U{c}'
    else if i == 5 then '\r'
    else if i == 6 then '\U{1c}'
    else if i == 7 then '\U{1d}'
    else if i == 8 then '\U{1e}'
    else if i == 9 then '\U{1f}'
    else if i == 10 then '\U{85}'
    else if i == 11 then '\U{a0}'
    else if i == 12 then '\U{1680}'
    else if i == 13 then '\U{2000}'
    else if i == 14 then '\U{2001}'
    else if i == 15 then '\U{2002}'
    else if i == 16 then '\U{2003}'
    else if i == 17 then '\U{2004}'
    else if i == 18 then '\U{2005}'
    else if i == 19 then '\U{2006}'
    else if i == 20 then '\U{2007}'
    else if i == 21 then '\U{2008}'
    else if i == 22 then '\U{2009}'
    else if i == 23 then '\U{200a}'
    else if i == 24 then '\U{2028}'
    else if i == 25 then '\U{2029}'
    else if i == 26 then '\U{202f}'
    else if i == 27 then '\U{205f}'
    else '\U{3000}'
  }

  /** `c.isspace()` */
  predicate IsSpace(c: char) {
    SpaceFrom(c, 0)
  }

  /** `c` is one of the space characters from the `i`-th on. */
  predicate SpaceFrom(c: char, i: nat)
    decreases SpaceCount - i
  {
    i < SpaceCount && (SpaceChar(i) == c || SpaceFrom(c, i + 1))
  }

  lemma {:induction false} SpaceFromListed(c: char, i: nat)
    requires SpaceFrom(c, i)
    ensures exists j :: i <= j < SpaceCount && SpaceChar(j) == c
    decreases SpaceCount - i
  {
    if SpaceChar(i) != c {
      SpaceFromListed(c, i + 1);
    }
  }

  /** The two whitespace characters the modelled code writes itself. */
  lemma SpaceAndNewlineAreSpace()
    ensures IsSpace(' ') && IsSpace('\n')
  {
    assert SpaceFrom('\n', 2);
  }

  /** No ASCII letter is whitespace, and neither is any character from U+00C0 to U+017F
      (the upper Latin-1 and Latin Extended-A) or of basic Cyrillic (U+0400 to U+045F). */
  lemma LetterIsNotSpace(c: char)
    requires 'A' <= c <= 'Z' || 'a' <= c <= 'z' || '\U{c0}' <= c <= '\U{17f}' || '\U{400}' <= c <= '\U{45f}'
    ensures !IsSpace(c)
  {
    if IsSpace(c) {
      SpaceFromListed(c, 0);
      assert false;
    }
  }

  predicate NoSpace(s: string) {
    forall i :: 0 <= i < |s| ==> !IsSpace(s[i])
  }

  predicate AllSpace(s: string) {
    forall i :: 0 <= i < |s| ==> IsSpace(s[i])
  }

  /** What `str.split()` yields: a non-empty run of non-whitespace characters. */
  predicate IsWord(w: string) {
    w != [] && NoSpace(w)
  }

  predicate AreWords(ws: seq<string>) {
    forall i :: 0 <= i < |ws| ==> IsWord(ws[i])
  }

  // ---------------------------------------------------------------- strip

  /** The end of the whitespace run of `s` that starts at `i`. */
  function SpaceRunEnd(s: string, i: nat): (e: nat)
    requires i <= |s|
    ensures i <= e <= |s|
    ensures forall k :: i <= k < e ==> IsSpace(s[k])
    ensures e < |s| ==> !IsSpace(s[e])
    decreases |s| - i
  {
    if i < |s| && IsSpace(s[i]) then SpaceRunEnd(s, i + 1) else i
  }

  /** The start of the whitespace run of `s` that ends at `j`. */
  function SpaceRunStart(s: string, j: nat): (b: nat)
    requires j <= |s|
    ensures b <= j
    ensures forall k :: b <= k < j ==> IsSpace(s[k])
    ensures b > 0 ==> !IsSpace(s[b - 1])
  {
    if j > 0 && IsSpace(s[j - 1]) then SpaceRunStart(s, j - 1) else j
  }

  /** `s.lstrip()` */
  function TrimLeft(s: string): (r: string)
    ensures |r| <= |s| && r == s[|s| - |r|..]
    ensures r == [] || !IsSpace(r[0])
    ensures s != [] && IsSpace(s[0]) ==> |r| < |s|
  {
    s[SpaceRunEnd(s, 0)..]
  }

  /** What `lstrip()` removes is whitespace. */
  lemma TrimLeftDropsSpace(s: string)
    ensures AllSpace(s[..|s| - |TrimLeft(s)|])
  {
    var e := SpaceRunEnd(s, 0);
    assert |s| - |TrimLeft(s)| == e;
    assert forall k :: 0 <= k < e ==> s[..e][k] == s[k];
  }

  /** `s.rstrip()` */
  function TrimRight(s: string): (r: string)
    ensures |r| <= |s| && r == s[..|r|]
    ensures r == [] || !IsSpace(r[|r| - 1])
  {
    s[..SpaceRunStart(s, |s|)]
  }

  /** What `rstrip()` removes is whitespace. */
  lemma TrimRightDropsSpace(s: string)
    ensures AllSpace(s[|TrimRight(s)|..])
  {
    var b := SpaceRunStart(s, |s|);
    assert |TrimRight(s)| == b;
    assert forall k :: 0 <= k < |s| - b ==> s[b..][k] == s[b + k];
  }

  /** `s.strip()` */
  function Strip(s: string): string {
    TrimRight(TrimLeft(s))
  }

  /** `s.strip()` is the slice of `s` between its leading and its trailing whitespace. */
  lemma StripIsSlice(s: string)
    ensures var a, r := |s| - |TrimLeft(s)|, Strip(s);
      a + |r| <= |s| && r == s[a..a + |r|]
  {
    PrefixOfSuffix(s, TrimLeft(s), Strip(s));
  }

  /** A prefix `r` of a suffix `t` of `s` is a slice of `s`. */
  lemma PrefixOfSuffix<T>(s: seq<T>, t: seq<T>, r: seq<T>)
    requires |t| <= |s| && t == s[|s| - |t|..]
    requires |r| <= |t| && r == t[..|r|]
    ensures var a := |s| - |t|; a + |r| <= |s| && r == s[a..a + |r|]
  {
  }

  /** What `s.strip()` cuts off either end is whitespace. */
  lemma StripDropsSpace(s: string)
    ensures var a, r := |s| - |TrimLeft(s)|, Strip(s);
      AllSpace(s[..a]) && AllSpace(s[a + |r|..])
  {
    var t := TrimLeft(s);
    TrimLeftDropsSpace(s);
    TrimRightDropsSpace(t);
    DroppedEnds(s, t, TrimRight(t));
  }

  /** When the part of `s` before its suffix `t`, and the part of `t` after its prefix `r`, are
      whitespace, so is everything of `s` around `r`. */
  lemma DroppedEnds(s: string, t: string, r: string)
    requires |t| <= |s| && t == s[|s| - |t|..]
    requires |r| <= |t| && r == t[..|r|]
    requires AllSpace(s[..|s| - |t|]) && AllSpace(t[|r|..])
    ensures var a := |s| - |t|; AllSpace(s[..a]) && AllSpace(s[a + |r|..])
  {
    var a := |s| - |t|;
    forall i | a + |r| <= i < |s|
      ensures IsSpace(s[i])
    {
      assert s[i] == t[|r|..][i - a - |r|];
    }
  }

  /** `s.strip()` is empty or starts and ends with non-whitespace. */
  lemma StripEnds(s: string)
    ensures var r := Strip(s); r == [] || (!IsSpace(r[0]) && !IsSpace(r[|r| - 1]))
  {
    var t := TrimLeft(s);
    var r := TrimRight(t);
    if r != [] {
      assert r[0] == t[0];
    }
  }

  /** The text is blank exactly when `strip()` leaves nothing: Python's `not text.strip()`. */
  lemma StripEmptyIffBlank(s: string)
    ensures Strip(s) == [] <==> AllSpace(s)
  {
    if AllSpace(s) {
      BlankTrimsAway(s);
    }
    if Strip(s) == [] {
      TrimmedAwayIsBlank(s);
    }
  }

  lemma {:induction false} BlankTrimsAway(s: string)
    requires AllSpace(s)
    ensures TrimLeft(s) == []
    decreases |s|
  {
    if s != [] {
      assert IsSpace(s[0]);
      assert AllSpace(s[1..]) by {
        forall i | 0 <= i < |s| - 1 ensures IsSpace(s[1..][i]) {
          assert s[1..][i] == s[i + 1];
        }
      }
      BlankTrimsAway(s[1..]);
    }
  }

  lemma TrimmedAwayIsBlank(s: string)
    requires Strip(s) == []
    ensures AllSpace(s)
  {
    var t := TrimLeft(s);
    var a := |s| - |t|;
    TrimLeftDropsSpace(s);
    TrimRightDropsSpace(t);
    assert t[0..] == t;
    assert s[..a] == s;
  }

  /** A string that already has non-whitespace ends is left alone by `strip()`. */
  lemma StripKeepsTrimmed(s: string)
    requires s == [] || (!IsSpace(s[0]) && !IsSpace(s[|s| - 1]))
    ensures Strip(s) == s
  {
  }

  /** `strip()` is idempotent. */
  lemma StripIdempotent(s: string)
    ensures Strip(Strip(s)) == Strip(s)
  {
    StripEnds(s);
    StripKeepsTrimmed(Strip(s));
  }

  /** `[text.strip() for text in texts]` */
  function StripAll(texts: seq<string>): (r: seq<string>)
    ensures |r| == |texts|
    ensures forall i :: 0 <= i < |texts| ==> r[i] == Strip(texts[i])
  {
    seq(|texts|, i requires 0 <= i < |texts| => Strip(texts[i]))
  }

  /** `[x for x in xs if x]` */
  function NonEmpty(xs: seq<string>): (r: seq<string>)
    ensures |r| <= |xs|
    ensures forall x :: x in r ==> x in xs && x != []
  {
    if xs == [] then []
    else (if xs[0] == [] then [] else [xs[0]]) + NonEmpty(xs[1..])
  }

  /** Filtering keeps everything exactly when nothing is empty, and otherwise drops something. */
  lemma NonEmptyKeepsAll(xs: seq<string>)
    ensures (forall i :: 0 <= i < |xs| ==> xs[i] != []) <==> NonEmpty(xs) == xs
    ensures NonEmpty(xs) != xs ==> |NonEmpty(xs)| < |xs|
  {
    if forall i :: 0 <= i < |xs| ==> xs[i] != [] {
      NonEmptyOfFull(xs);
    }
    if NonEmpty(xs) == xs {
      forall i | 0 <= i < |xs| ensures xs[i] != [] {
        assert xs[i] in NonEmpty(xs);
      }
    }
    NonEmptySameLength(xs);
  }

  lemma {:induction false} NonEmptyOfFull(xs: seq<string>)
    requires forall i :: 0 <= i < |xs| ==> xs[i] != []
    ensures NonEmpty(xs) == xs
    decreases |xs|
  {
    if xs != [] {
      var rest := xs[1..];
      assert forall i :: 0 <= i < |rest| ==> rest[i] == xs[i + 1];
      NonEmptyOfFull(rest);
      assert [xs[0]] + rest == xs;
    }
  }

  /** Filtering that keeps the length keeps everything. */
  lemma {:induction false} NonEmptySameLength(xs: seq<string>)
    ensures |NonEmpty(xs)| == |xs| ==> NonEmpty(xs) == xs
    decreases |xs|
  {
    if xs != [] {
      var rest := xs[1..];
      NonEmptySameLength(rest);
      if xs[0] != [] {
        assert [xs[0]] + rest == xs;
      }
    }
  }

  // ---------------------------------------------------------------- lower

  /** The Latin Extended-A capitals that lower-case to the next code point: the even ones of
      `Ā`-`į`, `Ĳ`-`ķ` and `Ŋ`-`ŷ`, and the odd ones of `Ĺ`-`Ň` and `Ź`-`Ž`. */
  predicate PairedCapital(c: char) {
    var n := c as int;
    || (n % 2 == 0 && (0x100 <= n <= 0x12f || 0x132 <= n <= 0x137 || 0x14a <= n <= 0x177))
    || (n % 2 == 1 && (0x139 <= n <= 0x148 || 0x179 <= n <= 0x17e))
  }

  /** `lower()` on one character, for the capitals whose lower case is a single character:
      ASCII, Latin-1 (`À`-`Þ` but `×`), Latin Extended-A (`Ÿ` lowers to `ÿ`) and the Cyrillic
      capitals `Ѐ`-`Я`. Every other character is kept as it is. */
  function LowerChar(c: char): (d: char)
    ensures IsSpace(d) <==> IsSpace(c)
    ensures 'A' <= c <= 'Z' ==> d as int == c as int + 32
    ensures c as int < 0x80 && !('A' <= c <= 'Z') ==> d == c
    ensures '\U{c0}' <= c <= '\U{de}' && c != '\U{d7}' ==> d as int == c as int + 32
    ensures PairedCapital(c) ==> d as int == c as int + 1
    ensures c == '\U{178}' ==> d == '\U{ff}'
    ensures '\U{400}' <= c <= '\U{40f}' ==> d as int == c as int + 80
    ensures '\U{410}' <= c <= '\U{42f}' ==> d as int == c as int + 32
    ensures c as int > 0x45f ==> d == c
  {
    var n := c as int;
    if 'A' <= c <= 'Z' || ('\U{c0}' <= c <= '\U{de}' && c != '\U{d7}') || '\U{410}' <= c <= '\U{42f}' then
      var d := (n + 32) as char;
      LetterIsNotSpace(c);
      LetterIsNotSpace(d);
      d
    else if '\U{400}' <= c <= '\U{40f}' then
      var d := (n + 80) as char;
      LetterIsNotSpace(c);
      LetterIsNotSpace(d);
      d
    else if PairedCapital(c) then
      var d := (n + 1) as char;
      LetterIsNotSpace(c);
      LetterIsNotSpace(d);
      d
    else if c == '\U{178}' then
      LetterIsNotSpace(c);
      LetterIsNotSpace('\U{ff}');
      '\U{ff}'
    else c
  }

  /** `s.lower()` */
  function Lower(s: string): (r: string)
    ensures |r| == |s|
    ensures forall i :: 0 <= i < |s| ==> r[i] == LowerChar(s[i])
  {
    seq(|s|, i requires 0 <= i < |s| => LowerChar(s[i]))
  }

  /** `title.strip().lower()`: the key under which both registries file a collection. */
  function Normalize(title: string): string {
    Lower(Strip(title))
  }

  /** Normalizing a key again changes nothing, so keys made by `Normalize` are fixed points. */
  lemma NormalizeIdempotent(title: string)
    ensures Normalize(Normalize(title)) == Normalize(title)
  {
    var s := Strip(title);
    StripEnds(title);
    LowerKeepsTrimmed(s);
    StripKeepsTrimmed(Lower(s));
    LowerIdempotent(s);
  }

  /** Lower-casing keeps whitespace where it is, so trimmed ends stay trimmed. */
  lemma LowerKeepsTrimmed(s: string)
    requires s == [] || (!IsSpace(s[0]) && !IsSpace(s[|s| - 1]))
    ensures var k := Lower(s); k == [] || (!IsSpace(k[0]) && !IsSpace(k[|k| - 1]))
  {
  }

  lemma LowerIdempotent(s: string)
    ensures Lower(Lower(s)) == Lower(s)
  {
    var k := Lower(s);
    forall i | 0 <= i < |s| ensures LowerChar(k[i]) == k[i] {
    }
  }

  // ---------------------------------------------------------------- split() and join

  /** The end of the run of non-whitespace characters of `s` that starts at `i`. */
  function WordEnd(s: string, i: nat): (e: nat)
    requires i <= |s|
    ensures i <= e <= |s|
    ensures forall k :: i <= k < e ==> !IsSpace(s[k])
    ensures e < |s| ==> IsSpace(s[e])
    decreases |s| - i
  {
    if i < |s| && !IsSpace(s[i]) then WordEnd(s, i + 1) else i
  }

  /** Length of the leading run of non-whitespace characters. */
  function WordLen(s: string): (n: nat)
    ensures n <= |s| && NoSpace(s[..n])
    ensures n < |s| ==> IsSpace(s[n])
    ensures s != [] && !IsSpace(s[0]) ==> n >= 1
  {
    var n := WordEnd(s, 0);
    assert forall k :: 0 <= k < n ==> s[..n][k] == s[k];
    n
  }

  /** `s.split()`: the maximal runs of non-whitespace characters, in order. */
  function Words(s: string): (ws: seq<string>)
    ensures AreWords(ws)
    decreases |s|
  {
    var t := TrimLeft(s);
    if t == [] then []
    else
      var n := WordLen(t);
      var rest := Words(t[n..]);
      AreWordsCons(t[..n], rest);
      [t[..n]] + rest
  }

  lemma AreWordsCons(w: string, ws: seq<string>)
    requires IsWord(w) && AreWords(ws)
    ensures AreWords([w] + ws)
  {
    forall i | 0 <= i < |ws| + 1 ensures IsWord(([w] + ws)[i]) {
      if i > 0 {
        assert ([w] + ws)[i] == ws[i - 1];
      }
    }
  }

  /** `sep.join(xs)` */
  function Join(sep: string, xs: seq<string>): string
    decreases |xs|
  {
    if |xs| == 0 then ""
    else if |xs| == 1 then xs[0]
    else xs[0] + sep + Join(sep, xs[1..])
  }

  /** Moving the start of a scan one character into the string. */
  lemma {:induction false} SpaceRunEndTail(s: string, i: nat)
    requires 1 <= i <= |s|
    ensures SpaceRunEnd(s, i) == 1 + SpaceRunEnd(s[1..], i - 1)
    decreases |s| - i
  {
    if i < |s| {
      assert s[1..][i - 1] == s[i];
      if IsSpace(s[i]) {
        SpaceRunEndTail(s, i + 1);
      }
    }
  }

  /** A leading whitespace character does not change what `lstrip()` leaves. */
  lemma TrimLeftCons(c: char, s: string)
    requires IsSpace(c)
    ensures TrimLeft([c] + s) == TrimLeft(s)
  {
    var x := [c] + s;
    assert x[1..] == s;
    SpaceRunEndTail(x, 1);
    var e := SpaceRunEnd(s, 0);
    assert x[1 + e..] == s[e..];
  }

  /** `lstrip()` leaves a string alone that does not start with whitespace. */
  lemma TrimLeftKeeps(s: string)
    requires s == [] || !IsSpace(s[0])
    ensures TrimLeft(s) == s
  {
    assert SpaceRunEnd(s, 0) == 0;
  }

  lemma WordsSkipsLeadingSpace(c: char, s: string)
    requires IsSpace(c)
    ensures Words([c] + s) == Words(s)
  {
    TrimLeftCons(c, s);
  }

  lemma {:induction false} WordEndOfWord(w: string, rest: string, i: nat)
    requires NoSpace(w) && i <= |w|
    requires rest == [] || IsSpace(rest[0])
    ensures WordEnd(w + rest, i) == |w|
    decreases |w| - i
  {
    var x := w + rest;
    if i < |w| {
      assert x[i] == w[i];
      WordEndOfWord(w, rest, i + 1);
    } else if rest != [] {
      assert x[i] == rest[0];
    }
  }

  lemma WordLenOfWord(w: string, rest: string)
    requires NoSpace(w)
    requires rest == [] || IsSpace(rest[0])
    ensures WordLen(w + rest) == |w|
  {
    WordEndOfWord(w, rest, 0);
  }

  /** A word followed by whitespace or nothing is the first word `split()` finds. */
  lemma WordsOfWordThen(w: string, tail: string)
    requires IsWord(w)
    requires tail == [] || IsSpace(tail[0])
    ensures Words(w + tail) == [w] + Words(tail)
  {
    var s := w + tail;
    assert s[0] == w[0];
    assert TrimLeft(s) == s;
    WordLenOfWord(w, tail);
    assert s[..|w|] == w;
    assert s[|w|..] == tail;
  }

  lemma WordsOfNothing()
    ensures Words("") == []
  {
    assert TrimLeft("") == "";
  }

  lemma WordsOfOneWord(w: string)
    requires IsWord(w)
    ensures Words(w) == [w]
  {
    assert w + "" == w;
    WordsOfWordThen(w, "");
    WordsOfNothing();
  }

  lemma WordsOfWordSpace(w: string, rest: string)
    requires IsWord(w)
    ensures Words(w + ([' '] + rest)) == [w] + Words(rest)
  {
    SpaceAndNewlineAreSpace();
    WordsOfWordThen(w, [' '] + rest);
    WordsSkipsLeadingSpace(' ', rest);
  }

  lemma JoinCons(sep: string, xs: seq<string>)
    requires |xs| >= 2
    ensures Join(sep, xs) == xs[0] + (sep + Join(sep, xs[1..]))
  {
  }

  /** `' '.join(ws).split() == ws` for a list of words: the chunk strings keep their word windows. */
  lemma {:induction false} WordsOfJoin(ws: seq<string>)
    requires AreWords(ws)
    ensures Words(Join(" ", ws)) == ws
    decreases |ws|
  {
    if |ws| == 0 {
      WordsOfNothing();
    } else if |ws| == 1 {
      WordsOfOneWord(ws[0]);
    } else {
      JoinCons(" ", ws);
      WordsOfWordSpace(ws[0], Join(" ", ws[1..]));
      WordsOfJoin(ws[1..]);
      assert [ws[0]] + ws[1..] == ws;
    }
  }

  /** Position of the first `c` in `s`, or `|s|` when there is none. */
  function IndexOf(s: string, c: char): (i: nat)
    ensures i <= |s|
    ensures i < |s| ==> s[i] == c
    ensures forall j :: 0 <= j < i ==> s[j] != c
  {
    if s == [] then 0
    else if s[0] == c then 0
    else 1 + IndexOf(s[1..], c)
  }

  /** `s.split(sep)` for a one-character separator. */
  function Split(s: string, sep: char): (parts: seq<string>)
    ensures |parts| >= 1
    decreases |s|
  {
    var i := IndexOf(s, sep);
    if i == |s| then [s] else [s[..i]] + Split(s[i + 1..], sep)
  }

  /** A string without the separator splits into itself alone. */
  lemma SplitWithoutSep(s: string, sep: char)
    requires sep !in s
    ensures Split(s, sep) == [s]
  {
  }

  /** `sep.join(xs).split(sep) == xs` when no part contains `sep`. */
  lemma {:induction false} SplitOfJoin(xs: seq<string>, sep: char)
    requires |xs| >= 1
    requires forall i :: 0 <= i < |xs| ==> sep !in xs[i]
    ensures Split(Join([sep], xs), sep) == xs
    decreases |xs|
  {
    if |xs| == 1 {
      SplitWithoutSep(xs[0], sep);
    } else {
      var s := Join([sep], xs);
      var x := xs[0];
      assert s == x + [sep] + Join([sep], xs[1..]);
      assert IndexOf(s, sep) == |x| by {
        assert forall j :: 0 <= j < |x| ==> s[j] == x[j];
        assert s[|x|] == sep;
      }
      assert s[..|x|] == x;
      assert s[|x| + 1..] == Join([sep], xs[1..]);
      SplitOfJoin(xs[1..], sep);
    }
  }

  /** The first `c` in `a + b` is the first in `a`, or else the first in `b`. */
  lemma {:induction false} IndexOfConcat(a: string, b: string, c: char)
    ensures IndexOf(a + b, c) == if IndexOf(a, c) < |a| then IndexOf(a, c) else |a| + IndexOf(b, c)
    decreases |a|
  {
    if a == [] {
      assert a + b == b;
    } else {
      assert (a + b)[1..] == a[1..] + b;
      IndexOfConcat(a[1..], b, c);
    }
  }

  /** Appending a separator and a part without separators appends that part to the split. */
  lemma {:induction false} SplitSnoc(r: string, sep: char, last: string)
    requires sep !in last
    ensures Split(r + [sep] + last, sep) == Split(r, sep) + [last]
    decreases |r|
  {
    var s := r + [sep] + last;
    var i := IndexOf(r, sep);
    IndexOfConcat(r, [sep] + last, sep);
    assert r + ([sep] + last) == s;
    if i == |r| {
      assert s[..i] == r && s[i + 1..] == last;
      SplitWithoutSep(last, sep);
      SplitWithoutSep(r, sep);
    } else {
      assert s[..i] == r[..i];
      assert s[i + 1..] == r[i + 1..] + [sep] + last;
      SplitSnoc(r[i + 1..], sep, last);
    }
  }

  /** Joining one more part appends the separator and that part. */
  lemma {:induction false} JoinSnoc(sep: string, xs: seq<string>, x: string)
    requires xs != []
    ensures Join(sep, xs + [x]) == Join(sep, xs) + sep + x
    decreases |xs|
  {
    if |xs| == 1 {
      assert (xs + [x])[1..] == [x];
    } else {
      assert (xs + [x])[1..] == xs[1..] + [x];
      JoinSnoc(sep, xs[1..], x);
    }
  }

  // ---------------------------------------------------------------- regular-expression substitutions

  /** True when every whitespace character is a single `' '` followed by a non-whitespace one or the end. */
  predicate SpacesCollapsed(s: string) {
    forall i :: 0 <= i < |s| && IsSpace(s[i]) ==> s[i] == ' ' && (i + 1 < |s| ==> !IsSpace(s[i + 1]))
  }

  /** `re.sub(r'\s+', ' ', s)`: every maximal whitespace run becomes one space. */
  function CollapseSpaces(s: string): (r: string)
    ensures SpacesCollapsed(r)
    ensures |r| <= |s| && (r == [] <==> s == [])
    ensures s != [] ==> (IsSpace(r[0]) <==> IsSpace(s[0]))
    decreases |s|
  {
    if s == [] then []
    else if IsSpace(s[0]) then [' '] + CollapseSpaces(TrimLeft(s))
    else [s[0]] + CollapseSpaces(s[1..])
  }

  /** A blank string collapses to at most one space. */
  lemma CollapseBlank(s: string)
    requires AllSpace(s)
    ensures AllSpace(CollapseSpaces(s))
  {
    if s != [] {
      assert TrimLeft(s) == [];
    }
  }

  /** Collapsed whitespace contains no newline. */
  lemma CollapsedHasNoNewline(s: string)
    requires SpacesCollapsed(s)
    ensures '\n' !in s
  {
    SpaceAndNewlineAreSpace();
  }

  /** Any slice of a collapsed string is collapsed. */
  lemma CollapsedSlice(s: string, a: int, b: int)
    requires SpacesCollapsed(s) && 0 <= a <= b <= |s|
    ensures SpacesCollapsed(s[a..b])
  {
    var t := s[a..b];
    forall i | 0 <= i < |t| && IsSpace(t[i])
      ensures t[i] == ' ' && (i + 1 < |t| ==> !IsSpace(t[i + 1]))
    {
      assert t[i] == s[a + i];
      if i + 1 < |t| {
        assert t[i + 1] == s[a + i + 1];
      }
    }
  }

  /** A string whose whitespace is already single spaces is left alone by the substitution. */
  lemma {:induction false} CollapseNoop(s: string)
    requires SpacesCollapsed(s)
    ensures CollapseSpaces(s) == s
    decreases |s|
  {
    if s != [] {
      var rest := s[1..];
      CollapsedSlice(s, 1, |s|);
      CollapseNoop(rest);
      if IsSpace(s[0]) {
        assert rest == [] || !IsSpace(rest[0]) by {
          if rest != [] {
            assert rest[0] == s[1];
          }
        }
        assert s == [s[0]] + rest;
        TrimLeftCons(s[0], rest);
        TrimLeftKeeps(rest);
      } else {
        assert s == [s[0]] + rest;
      }
    }
  }

  /** A string with some non-whitespace character keeps one after the substitution. */
  lemma {:induction false} CollapseKeepsNonSpace(s: string)
    requires !AllSpace(s)
    ensures !AllSpace(CollapseSpaces(s))
    decreases |s|
  {
    var r := CollapseSpaces(s);
    if IsSpace(s[0]) {
      var t := TrimLeft(s);
      var i :| 0 <= i < |s| && !IsSpace(s[i]);
      TrimLeftDropsSpace(s);
      var a := |s| - |t|;
      assert i >= a;
      assert t[i - a] == s[i];
      CollapseKeepsNonSpace(t);
      var c := CollapseSpaces(t);
      var j :| 0 <= j < |c| && !IsSpace(c[j]);
      assert r == [' '] + c;
      assert r[j + 1] == c[j];
    }
  }

  /** Leading newlines of `s` removed. */
  function DropNewlines(s: string): (r: string)
    ensures |r| <= |s|
    ensures s != [] && s[0] == '\n' ==> |r| < |s|
  {
    if s != [] && s[0] == '\n' then DropNewlines(s[1..]) else s
  }

  /** `re.sub(r'\n+', '\n', s)`: every run of newlines becomes one newline. */
  function SquashNewlines(s: string): (r: string)
    decreases |s|
  {
    if s == [] then []
    else if s[0] == '\n' then ['\n'] + SquashNewlines(DropNewlines(s))
    else [s[0]] + SquashNewlines(s[1..])
  }

  /** A string without newlines is left alone by the newline substitution. */
  lemma {:induction false} SquashNewlinesNoop(s: string)
    requires '\n' !in s
    ensures SquashNewlines(s) == s
    decreases |s|
  {
    if s != [] {
      assert s[0] != '\n';
      assert '\n' !in s[1..];
      SquashNewlinesNoop(s[1..]);
    }
  }

  // ---------------------------------------------------------------- slicing and indexing

  /** `ValueError: range() arg 3 must not be zero` */
  datatype RangeError = StepIsZero

  function Min(a: int, b: int): int {
    if a < b then a else b
  }

  /** The `j`-th value of `range(0, stop, step)`, `j * step`, built by repeated addition. */
  function RangeItem(j: nat, step: int): (s: int)
    ensures step >= 0 ==> s >= 0
  {
    if j == 0 then 0 else RangeItem(j - 1, step) + step
  }

  lemma {:induction false} RangeItemIsProduct(j: nat, step: int)
    ensures RangeItem(j, step) == j * step
  {
    if j > 0 {
      RangeItemIsProduct(j - 1, step);
      assert (j - 1) * step + step == j * step;
    }
  }

  lemma RangeItemNext(j: nat, step: int)
    requires j > 0
    ensures RangeItem(j, step) == step + RangeItem(j - 1, step)
  {
  }

  /** A Python slice bound: negative counts from the end, then clamped into `[0, n]`. */
  function ClampBound(i: int, n: nat): (b: nat)
    ensures b <= n
    ensures 0 <= i <= n ==> b == i
  {
    if i < 0 then (if i + n < 0 then 0 else i + n) else if i > n then n else i
  }

  /** `s[i:j]` */
  function PySlice<T>(s: seq<T>, i: int, j: int): (r: seq<T>)
    ensures |r| <= |s|
    ensures 0 <= i <= j <= |s| ==> r == s[i..j]
    ensures 0 <= i <= |s| <= j ==> r == s[i..]
  {
    var a := ClampBound(i, |s|);
    var b := ClampBound(j, |s|);
    if a <= b then s[a..b] else []
  }

  /** `s[i]`: negative positions count from the end; `None` is the `IndexError`. */
  function PyIndex<T>(s: seq<T>, i: int): (r: Option<T>)
    ensures 0 <= i < |s| ==> r == Some(s[i])
    ensures -|s| <= i < 0 ==> r == Some(s[|s| + i])
    ensures r.None? <==> (i >= |s| || i < -|s|)
  {
    if 0 <= i < |s| then Some(s[i])
    else if -|s| <= i < 0 then Some(s[|s| + i])
    else None
  }
}
