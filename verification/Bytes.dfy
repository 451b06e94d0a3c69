/** Byte strings, one char per byte (the source decodes and encodes as latin-1),
    and the Python operations on them that the proxy uses. */
module Bytes {
  const CRLF := "\r\n"
  const DELIM := "\r\n\r\n"

  /** `p` occurs in `s` at offset `i`. */
  predicate At(s: string, p: string, i: int) {
    0 <= i <= |s| - |p| && s[i..i + |p|] == p
  }

  /** `s.find(p, start)` for a non-negative `start`. */
  function Find(s: string, p: string, start: nat): (r: int)
    ensures r == -1 ==> forall j :: start <= j ==> !At(s, p, j)
    ensures r != -1 ==> start <= r && At(s, p, r) && forall j :: start <= j < r ==> !At(s, p, j)
    decreases |s| - start
  {
    if start + |p| > |s| then -1
    else if At(s, p, start) then start
    else Find(s, p, start + 1)
  }

  /** Python's treatment of a slice bound: negative counts from the end, then clamp. */
  function PyIndex(i: int, length: nat): nat {
    if i < 0 then (if i + length < 0 then 0 else i + length)
    else if i > length then length else i
  }

  /** `s[lo:hi]` with Python's bounds. */
  function PySlice(s: string, lo: int, hi: int): string {
    var a, b := PyIndex(lo, |s|), PyIndex(hi, |s|);
    if a < b then s[a..b] else ""
  }

  /** A slice is what stands between two offsets; one beyond an end is that end, and a negative one
      counts from the end of the text. */
  lemma SliceMeans(s: string, lo: nat, hi: int)
    ensures 0 <= lo <= hi <= |s| ==> PySlice(s, lo, hi) == s[lo..hi]
    ensures lo <= |s| < hi ==> PySlice(s, lo, hi) == s[lo..]
    ensures hi < 0 && lo <= |s| + hi ==> PySlice(s, lo, hi) == s[lo..|s| + hi]
    ensures 0 <= hi <= lo || hi < -|s| || (hi < 0 && |s| + hi < lo) ==> PySlice(s, lo, hi) == ""
  {
  }

  /** A CRLF starts at offset `j`. */
  predicate CrlfAt(s: string, j: int) {
    0 <= j < |s| - 1 && s[j] == '\r' && s[j + 1] == '\n'
  }

  ghost predicate NoCrlf(s: string) {
    forall j :: !CrlfAt(s, j)
  }

  lemma AtCrlf(s: string, j: int)
    ensures At(s, CRLF, j) == CrlfAt(s, j)
  {
    if 0 <= j < |s| - 1 {
      assert s[j..j + 2] == [s[j], s[j + 1]];
    }
  }

  lemma AtDelim(s: string, j: int)
    ensures At(s, DELIM, j) == (CrlfAt(s, j) && CrlfAt(s, j + 2))
  {
    if 0 <= j <= |s| - 4 {
      assert s[j..j + 4] == [s[j], s[j + 1], s[j + 2], s[j + 3]];
    }
  }

  /** `find("\r\n", start)` in terms of characters. */
  lemma FindCrlf(s: string, start: nat)
    ensures var r := Find(s, CRLF, start);
            if r == -1 then forall j :: start <= j ==> !CrlfAt(s, j)
            else start <= r && CrlfAt(s, r) && forall j :: start <= j < r ==> !CrlfAt(s, j)
  {
    forall j ensures At(s, CRLF, j) == CrlfAt(s, j) {
      AtCrlf(s, j);
    }
  }

  /** The characters below 256 for which `str.isspace` holds. */
  predicate IsSpace(c: char) {
    var n := c as int;
    0x09 <= n <= 0x0D || 0x1C <= n <= 0x20 || n == 0x85 || n == 0xA0
  }

  function LStrip(s: string): (r: string)
    ensures |r| <= |s|
    ensures r != "" ==> !IsSpace(r[0])
    decreases |s|
  {
    if s != "" && IsSpace(s[0]) then LStrip(s[1..]) else s
  }

  function RStrip(s: string): (r: string)
    ensures |r| <= |s|
    ensures r != "" ==> !IsSpace(r[|r| - 1])
    decreases |s|
  {
    if s != "" && IsSpace(s[|s| - 1]) then RStrip(s[..|s| - 1]) else s
  }

  function Strip(s: string): string {
    RStrip(LStrip(s))
  }

  /** No white space at either end. */
  predicate Trimmed(s: string) {
    s == "" || (!IsSpace(s[0]) && !IsSpace(s[|s| - 1]))
  }

  lemma {:induction false} LStripPart(s: string)
    ensures LStrip(s) == s[|s| - |LStrip(s)|..]
    ensures forall i :: 0 <= i < |s| - |LStrip(s)| ==> IsSpace(s[i])
    decreases |s|
  {
    if s != "" && IsSpace(s[0]) {
      LStripPart(s[1..]);
      forall i | 0 <= i < |s| - |LStrip(s)| ensures IsSpace(s[i]) {
        assert i > 0 ==> s[i] == s[1..][i - 1];
      }
    }
  }

  lemma {:induction false} RStripPart(s: string)
    ensures RStrip(s) == s[..|RStrip(s)|]
    ensures forall i :: |RStrip(s)| <= i < |s| ==> IsSpace(s[i])
    decreases |s|
  {
    if s != "" && IsSpace(s[|s| - 1]) {
      RStripPart(s[..|s| - 1]);
    }
  }

  /** `strip` returns a trimmed contiguous part of its argument; all it removes is white space. */
  lemma StripTrims(s: string) returns (lo: nat, hi: nat)
    ensures lo <= hi <= |s| && Strip(s) == s[lo..hi]
    ensures Trimmed(Strip(s))
    ensures forall i :: 0 <= i < |s| && !(lo <= i < hi) ==> IsSpace(s[i])
  {
    var l, r := LStrip(s), Strip(s);
    LStripPart(s);
    RStripPart(l);
    lo := |s| - |l|;
    hi := lo + |r|;
    if r != "" {
      assert r[0] == l[0];
    }
    forall i | lo <= i < |s| ensures s[i] == l[i - lo] {
    }
  }

  /** `strip` leaves trimmed text alone, also behind one extra leading space. */
  lemma StripFixes(s: string)
    requires Trimmed(s)
    ensures Strip(s) == s && Strip(" " + s) == s
  {
    assert (" " + s)[1..] == s;
    assert LStrip(" " + s) == LStrip(s);
  }

  /** `t` is `s` without the white space around it. */
  ghost predicate TrimOf(s: string, t: string) {
    Trimmed(t) && exists a, b :: Blank(a) && Blank(b) && s == a + t + b
  }

  predicate Blank(s: string) {
    forall i :: 0 <= i < |s| ==> s[i] as int in WHITE
  }

  /** The white space of latin-1. */
  const WHITE := {9, 10, 11, 12, 13, 28, 29, 30, 31, 32, 133, 160}

  /** `strip` removes the white space around, and nothing else. */
  lemma StripIff(s: string, t: string)
    ensures TrimOf(s, t) <==> t == Strip(s)
  {
    hide Strip, IsSpace, Blank, Trimmed;
    var lo, hi := StripTrims(s);
    StripIsTrim(s, lo, hi);
    if TrimOf(s, t) {
      var a, b :| Blank(a) && Blank(b) && s == a + t + b;
      BlankAround(a, t, b);
      assert s[|a|..|a| + |t|] == t;
      SameTrim(s, lo, hi, |a|, |a| + |t|);
    }
  }

  lemma StripIsTrim(s: string, lo: nat, hi: nat)
    requires lo <= hi <= |s| && Trimmed(s[lo..hi])
    requires forall i :: 0 <= i < |s| && !(lo <= i < hi) ==> IsSpace(s[i])
    ensures TrimOf(s, s[lo..hi])
  {
    assert Blank(s[..lo]) && Blank(s[hi..]) && s == s[..lo] + s[lo..hi] + s[hi..];
  }

  lemma BlankAround(a: string, t: string, b: string)
    requires Blank(a) && Blank(b)
    ensures var s := a + t + b; forall k :: 0 <= k < |s| && !(|a| <= k < |a| + |t|) ==> IsSpace(s[k])
  {
    var s := a + t + b;
    forall k | 0 <= k < |s| && !(|a| <= k < |a| + |t|) ensures IsSpace(s[k]) {
      assert s[k] == if k < |a| then a[k] else b[k - |a| - |t|];
    }
  }

  /** Between white space there is one trimmed part. */
  lemma SameTrim(s: string, lo: nat, hi: nat, i: nat, j: nat)
    requires lo <= hi <= |s| && i <= j <= |s| && Trimmed(s[lo..hi]) && Trimmed(s[i..j])
    requires forall k :: 0 <= k < |s| && !(lo <= k < hi) ==> IsSpace(s[k])
    requires forall k :: 0 <= k < |s| && !(i <= k < j) ==> IsSpace(s[k])
    ensures s[lo..hi] == s[i..j]
  {
    if lo < hi {
      assert !IsSpace(s[lo..hi][0]) && !IsSpace(s[lo..hi][hi - lo - 1]);
      assert i <= lo < j && i <= hi - 1 < j;
    }
    if i < j {
      assert !IsSpace(s[i..j][0]) && !IsSpace(s[i..j][j - i - 1]);
      assert lo <= i < hi && lo <= j - 1 < hi;
    }
  }

  function LowerChar(c: char): char {
    if 'A' <= c <= 'Z' then (c as int + 32) as char else c
  }

  function UpperChar(c: char): char {
    if 'a' <= c <= 'z' then (c as int - 32) as char else c
  }

  function Lower(s: string): string {
    seq(|s|, i requires 0 <= i < |s| => LowerChar(s[i]))
  }

  function Upper(s: string): string {
    seq(|s|, i requires 0 <= i < |s| => UpperChar(s[i]))
  }

  // ---------- Casing, by tables ----------

  const LOWER_LETTERS := "abcdefghijklmnopqrstuvwxyz"
  const UPPER_LETTERS := "ABCDEFGHIJKLMNOPQRSTUVWXYZ"

  predicate LetterPair(a: char, b: char, i: int) {
    0 <= i < 26 && a == LOWER_LETTERS[i] && b == UPPER_LETTERS[i]
  }

  /** The same letter, in any casing, or the same other character. */
  predicate SameLetter(a: char, b: char) {
    a == b || exists i :: 0 <= i < 26 && (LetterPair(a, b, i) || LetterPair(b, a, i))
  }

  /** The same name, in any casing. */
  predicate CaseOf(s: string, t: string) {
    |s| == |t| && forall i :: 0 <= i < |s| ==> SameLetter(s[i], t[i])
  }

  lemma LetterRows(i: int)
    requires 0 <= i < 26
    ensures LOWER_LETTERS[i] == ('a' as int + i) as char && UPPER_LETTERS[i] == ('A' as int + i) as char
  {
  }

  lemma PairIs(a: char, b: char, i: int)
    ensures LetterPair(a, b, i) <==> 'a' <= a <= 'z' && i == a as int - 'a' as int && b as int == a as int - 32
  {
    if 0 <= i < 26 {
      LetterRows(i);
    }
  }

  lemma PairIff(a: char, b: char)
    ensures (exists i :: 0 <= i < 26 && LetterPair(a, b, i)) <==> 'a' <= a <= 'z' && b as int == a as int - 32
  {
    forall i ensures LetterPair(a, b, i) <==> 'a' <= a <= 'z' && i == a as int - 'a' as int && b as int == a as int - 32 {
      PairIs(a, b, i);
    }
    assert 'a' <= a <= 'z' && b as int == a as int - 32 ==> LetterPair(a, b, a as int - 'a' as int);
  }

  lemma LetterIff(a: char, b: char)
    ensures LowerChar(a) == LowerChar(b) <==> SameLetter(a, b)
    ensures UpperChar(a) == UpperChar(b) <==> SameLetter(a, b)
  {
    hide LetterPair;
    PairIff(a, b);
    PairIff(b, a);
  }

  /** Lower-casing, and upper-casing, equate a name with every casing of it, and with nothing else. */
  lemma CaseIff(s: string, t: string)
    ensures Lower(s) == Lower(t) <==> CaseOf(s, t)
    ensures Upper(s) == Upper(t) <==> CaseOf(s, t)
  {
    hide LowerChar, UpperChar, SameLetter;
    assert |Lower(s)| == |Upper(s)| == |s| && |Lower(t)| == |Upper(t)| == |t|;
    if |s| == |t| {
      forall i | 0 <= i < |s|
        ensures Lower(s)[i] == Lower(t)[i] <==> SameLetter(s[i], t[i])
        ensures Upper(s)[i] == Upper(t)[i] <==> SameLetter(s[i], t[i])
      {
        LetterIff(s[i], t[i]);
      }
      EqualIff(Lower(s), Lower(t));
      EqualIff(Upper(s), Upper(t));
    }
  }

  lemma EqualIff(s: string, t: string)
    requires |s| == |t|
    ensures s == t <==> forall i :: 0 <= i < |s| ==> s[i] == t[i]
  {
  }

  /** Every occurrence inside `s` is one inside any extension of `s`, and the other way round. */
  lemma AtExtend(s: string, x: string, p: string, i: int)
    requires i + |p| <= |s|
    ensures At(s + x, p, i) == At(s, p, i)
  {
    if 0 <= i {
      assert (s + x)[i..i + |p|] == s[i..i + |p|];
    }
  }

  /** A match found in `s` is the match found in every extension. */
  lemma FindExtend(s: string, x: string, p: string, start: nat)
    requires Find(s, p, start) != -1
    ensures Find(s + x, p, start) == Find(s, p, start)
  {
    var r, q := Find(s, p, start), Find(s + x, p, start);
    AtExtend(s, x, p, r);
    if start <= q < r { AtExtend(s, x, p, q); }
  }

  /** A match that ends inside a prefix is the match found in the prefix. */
  lemma FindCut(s: string, x: string, p: string, start: nat)
    requires var r := Find(s + x, p, start); r != -1 && r + |p| <= |s|
    ensures Find(s, p, start) == Find(s + x, p, start)
  {
    var r := Find(s + x, p, start);
    AtExtend(s, x, p, r);
    if Find(s, p, start) != -1 {
      FindExtend(s, x, p, start);
    }
  }

  /** `find` is pinned down by a first occurrence. */
  lemma FindIs(s: string, p: string, start: nat, r: int)
    requires start <= r && At(s, p, r)
    requires forall j :: start <= j < r ==> !At(s, p, j)
    ensures Find(s, p, start) == r
  {
  }

  /** `find` of a single character, when it is known where that character first occurs. */
  lemma FindChar(a: string, c: char, b: string)
    requires c !in a
    ensures Find(a + [c] + b, [c], 0) == |a|
  {
    var s := a + [c] + b;
    forall j | 0 <= j < |a| ensures !At(s, [c], j) {
      assert s[j..j + 1][0] == a[j];
    }
    assert s[|a|..|a| + 1] == [c];
    FindIs(s, [c], 0, |a|);
  }

  lemma FindCharSplits(s: string, c: char)
    ensures var k := Find(s, [c], 0);
            if k == -1 then c !in s else k < |s| && s[k] == c && c !in s[..k]
  {
    forall j | 0 <= j < |s| ensures At(s, [c], j) == (s[j] == c) {
      assert s[j..j + 1] == [s[j]];
    }
  }

  /** A part of a CRLF-free string is CRLF-free. */
  lemma NoCrlfPart(s: string, lo: nat, hi: nat)
    requires NoCrlf(s) && lo <= hi <= |s|
    ensures NoCrlf(s[lo..hi])
  {
    forall j ensures !CrlfAt(s[lo..hi], j) {
      assert !CrlfAt(s, lo + j);
    }
  }

  /** Glueing CRLF-free parts creates no CRLF unless a CR meets an LF. */
  lemma NoCrlfConcat(a: string, b: string)
    requires NoCrlf(a) && NoCrlf(b)
    requires a == "" || b == "" || a[|a| - 1] != '\r' || b[0] != '\n'
    ensures NoCrlf(a + b)
  {
    forall j ensures !CrlfAt(a + b, j) {
      assert !CrlfAt(a, j) && !CrlfAt(b, j - |a|);
    }
  }

  /** The first CRLF behind a CRLF-free line is that line's own terminator. */
  lemma FindLineEnd(s: string, pos: nat, line: string)
    requires NoCrlf(line) && pos <= |s| && line + CRLF <= s[pos..]
    ensures Find(s, CRLF, pos) == pos + |line|
  {
    FindCrlf(s, pos);
    var t := line + CRLF;
    forall k | 0 <= k < |t| ensures s[pos + k] == t[k] {
      assert s[pos..][k] == t[k];
    }
    assert s[pos + |line|] == t[|line|] && s[pos + |line| + 1] == t[|line| + 1];
    assert CrlfAt(s, pos + |line|);
    forall j | pos <= j < pos + |line| ensures !CrlfAt(s, j) {
      assert !CrlfAt(line, j - pos);
      assert s[j] == t[j - pos] && s[j + 1] == t[j - pos + 1];
    }
  }

  /** Every line followed by CRLF. */
  function Lines(ls: seq<string>): string {
    if ls == [] then "" else ls[0] + CRLF + Lines(ls[1..])
  }

  /** Lines separated by CRLF: `"\r\n".join(ls)`. */
  function Join(ls: seq<string>): string {
    if ls == [] then "" else if |ls| == 1 then ls[0] else ls[0] + CRLF + Join(ls[1..])
  }

  lemma {:induction false} LinesJoin(ls: seq<string>)
    requires ls != []
    ensures Lines(ls) == Join(ls) + CRLF
  {
    if |ls| > 1 {
      LinesJoin(ls[1..]);
    }
  }

  ghost predicate GoodLines(ls: seq<string>) {
    forall i :: 0 <= i < |ls| ==> ls[i] != "" && NoCrlf(ls[i])
  }

  /** In non-empty CRLF-free lines closed by a blank line, CRLFCRLF occurs at the very end only
      (and nowhere when there is no line at all). */
  lemma {:induction false} DelimOnlyAtEnd(ls: seq<string>, j: int)
    requires GoodLines(ls)
    ensures At(Lines(ls) + CRLF, DELIM, j) <==> ls != [] && j == |Lines(ls)| - 2
  {
    var w := Lines(ls) + CRLF;
    AtDelim(w, j);
    if ls != [] {
      var t, rest := ls[0], Lines(ls[1..]) + CRLF;
      assert w == t + CRLF + rest;
      DelimOnlyAtEnd(ls[1..], j - |t| - 2);
      AtDelim(rest, j - |t| - 2);
      assert !CrlfAt(t, j);
      if ls[1..] == [] {
        assert rest == CRLF;
      } else {
        NoLeadingCrlf(ls[1..], rest);
        AtCrlf(rest, 0);
      }
    }
  }

  /** The first CRLFCRLF behind non-empty lines closed by a blank line is that of the blank line. */
  lemma BlankLineFound(ls: seq<string>, rest: string)
    requires GoodLines(ls) && ls != []
    ensures Find(Lines(ls) + CRLF + rest, DELIM, 0) == |Lines(ls)| - 2 >= 0
  {
    hide GoodLines;
    var w := Lines(ls) + CRLF;
    forall j ensures At(w, DELIM, j) <==> j == |w| - 4 {
      DelimOnlyAtEnd(ls, j);
    }
    assert |w| >= 4;
    FindIs(w, DELIM, 0, |w| - 4);
    FindExtend(w, rest, DELIM, 0);
  }

  /** The first line of non-empty lines closed by a blank line does not start with CRLF. */
  lemma NoLeadingCrlf(ls: seq<string>, s: string)
    requires GoodLines(ls) && ls != [] && s <= Lines(ls) + CRLF
    ensures !At(s, CRLF, 0)
  {
    AtCrlf(s, 0);
    var u := ls[0];
    assert Lines(ls) + CRLF == u + CRLF + (Lines(ls[1..]) + CRLF);
    assert !CrlfAt(u, 0);
  }

  /** `s.split("\r\n")`. */
  function Split(s: string): (r: seq<string>)
    ensures r != []
    decreases |s|
  {
    var k := Find(s, CRLF, 0);
    if k == -1 then [s] else [s[..k]] + Split(s[k + 2..])
  }

  /** Splitting yields CRLF-free parts which join back to the original. */
  lemma {:induction false} SplitParts(s: string)
    ensures Join(Split(s)) == s
    ensures forall i :: 0 <= i < |Split(s)| ==> NoCrlf(Split(s)[i])
    decreases |s|
  {
    FindCrlf(s, 0);
    var k := Find(s, CRLF, 0);
    if k != -1 {
      SplitParts(s[k + 2..]);
      assert Split(s)[1..] == Split(s[k + 2..]);
      assert s == s[..k] + CRLF + s[k + 2..];
      forall j ensures !CrlfAt(s[..k], j) {
        assert j < k ==> !CrlfAt(s, j);
      }
    }
  }

  /** Splitting undoes joining CRLF-free lines. */
  lemma {:induction false} SplitJoin(ls: seq<string>)
    requires ls != [] && forall i :: 0 <= i < |ls| ==> NoCrlf(ls[i])
    ensures Split(Join(ls)) == ls
  {
    if |ls| == 1 {
      FindCrlf(ls[0], 0);
    } else {
      var s := Join(ls);
      assert s == ls[0] + CRLF + Join(ls[1..]);
      assert s[0..] == s;
      FindLineEnd(s, 0, ls[0]);
      assert s[|ls[0]| + 2..] == Join(ls[1..]) && s[..|ls[0]|] == ls[0];
      SplitJoin(ls[1..]);
      assert ls == [ls[0]] + ls[1..];
    }
  }
}
