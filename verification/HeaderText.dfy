/** What the parser makes of text that it did not write itself: request lines, header lines with any
    white space, repeated and malformed lines, and the header sections of responses. */
module HeaderText {
  import opened Wrappers
  import opened Bytes
  import opened PyInt
  import opened Http
  import opened HttpRoundTrip

  // ---------- One header line ----------

  /** The line's text up to its first colon, trimmed, is `name`, and the rest, trimmed, is `value`. */
  ghost predicate FieldOf(line: string, name: string, value: string) {
    exists n, v :: line == n + ":" + v && ':' !in n && TrimOf(n, name) && TrimOf(v, value)
  }

  /** A line without a colon is no field; any other line is exactly one. */
  lemma FieldIff(line: string, name: string, value: string)
    ensures var k := Find(line, ":", 0);
            FieldOf(line, name, value) <==> (k != -1 && name == Strip(line[..k]) && value == Strip(line[k + 1..]))
  {
    hide Find, Strip, TrimOf;
    FindCharSplits(line, ':');
    var k := Find(line, ":", 0);
    if k != -1 {
      StripIff(line[..k], Strip(line[..k]));
      StripIff(line[k + 1..], Strip(line[k + 1..]));
      assert line == line[..k] + ":" + line[k + 1..];
    }
    if FieldOf(line, name, value) {
      var n, v :| line == n + ":" + v && ':' !in n && TrimOf(n, name) && TrimOf(v, value);
      FindChar(n, ':', v);
      assert n + [':'] + v == line;
      assert line[..|n|] == n && line[|n| + 1..] == v;
      StripIff(n, name);
      StripIff(v, value);
    }
  }

  ghost predicate Names(line: string, name: string) {
    exists value :: FieldOf(line, name, value)
  }

  lemma NamesIff(line: string, name: string)
    ensures var k := Find(line, ":", 0); Names(line, name) <==> (k != -1 && name == Strip(line[..k]))
  {
    var k := Find(line, ":", 0);
    if k != -1 {
      FieldIff(line, name, Strip(line[k + 1..]));
    }
    forall value | FieldOf(line, name, value) ensures k != -1 && name == Strip(line[..k]) {
      FieldIff(line, name, value);
    }
  }

  // ---------- The header dictionary ----------

  /** `k` is the first line of that name. */
  ghost predicate FirstAt(lines: seq<string>, name: string, k: int) {
    0 <= k < |lines| && Names(lines[k], name) && forall j :: 0 <= j < k ==> !Names(lines[j], name)
  }

  /** `k` is the last line of that name, and has that value. */
  ghost predicate LastAt(lines: seq<string>, name: string, value: string, k: int) {
    0 <= k < |lines| && FieldOf(lines[k], name, value) && forall j :: k < j < |lines| ==> !Names(lines[j], name)
  }

  /** The dictionary of some lines: one entry for every name, in the order of first lines, each with
      the value of its last line. */
  ghost predicate DictionaryOf(lines: seq<string>, hs: seq<Header>, firsts: seq<int>, lasts: seq<int>) {
    && |firsts| == |lasts| == |hs|
    && (forall i :: 0 <= i < |hs| ==> FirstAt(lines, hs[i].name, firsts[i]))
    && (forall i :: 0 <= i < |hs| ==> LastAt(lines, hs[i].name, hs[i].value, lasts[i]))
    && (forall i, j :: 0 <= i < j < |hs| ==> firsts[i] < firsts[j])
    && (forall k, name :: 0 <= k < |lines| && Names(lines[k], name) ==> Listed(hs, name))
  }

  ghost predicate Listed(hs: seq<Header>, name: string) {
    exists i :: 0 <= i < |hs| && hs[i].name == name
  }

  /** Whatever the lines, what the parser collects is their dictionary. */
  lemma {:induction false} HeadersMean(lines: seq<string>) returns (firsts: seq<int>, lasts: seq<int>)
    ensures DictionaryOf(lines, ParseHeaders(lines), firsts, lasts)
    decreases |lines|
  {
    if lines == [] {
      firsts, lasts := [], [];
    } else {
      var n := |lines| - 1;
      var before, line := lines[..n], lines[n];
      firsts, lasts := HeadersMean(before);
      hide DictionaryOf, ParseHeaders, AddLine, Find, Strip;
      firsts, lasts := OneMoreLine(before, ParseHeaders(before), firsts, lasts, line);
      assert before + [line] == lines;
      ParseHeadersSnoc(lines);
    }
  }

  lemma ParseHeadersSnoc(lines: seq<string>)
    requires lines != []
    ensures ParseHeaders(lines) == AddLine(ParseHeaders(lines[..|lines| - 1]), lines[|lines| - 1])
  {
  }

  lemma OneMoreLine(lines: seq<string>, hs: seq<Header>, firsts: seq<int>, lasts: seq<int>, line: string)
    returns (fs: seq<int>, ls: seq<int>)
    requires DictionaryOf(lines, hs, firsts, lasts)
    ensures DictionaryOf(lines + [line], AddLine(hs, line), fs, ls)
  {
    hide Names, FieldOf, Find, Strip, DictionaryOf, Put;
    var k := Find(line, ":", 0);
    TheField(line);
    if k == -1 {
      fs, ls := firsts, lasts;
      NoField(lines, hs, firsts, lasts, line);
    } else {
      var name, value := Strip(line[..k]), Strip(line[k + 1..]);
      fs, ls := OneMoreField(lines, hs, firsts, lasts, line, name, value);
    }
  }

  lemma TheField(line: string)
    ensures var k := Find(line, ":", 0);
            && -1 <= k < |line|
            && (forall name :: Names(line, name) <==> (k != -1 && name == Strip(line[..k])))
            && (k != -1 ==> FieldOf(line, Strip(line[..k]), Strip(line[k + 1..])))
  {
    hide Find, Strip, FieldOf;
    FindCharSplits(line, ':');
    var k := Find(line, ":", 0);
    if k != -1 {
      FieldIff(line, Strip(line[..k]), Strip(line[k + 1..]));
    }
    forall name ensures Names(line, name) <==> (k != -1 && name == Strip(line[..k])) {
      NamesIff(line, name);
    }
  }

  lemma NoField(lines: seq<string>, hs: seq<Header>, firsts: seq<int>, lasts: seq<int>, line: string)
    requires DictionaryOf(lines, hs, firsts, lasts) && forall name :: !Names(line, name)
    ensures DictionaryOf(lines + [line], hs, firsts, lasts)
  {
    hide Names, FieldOf, Listed;
    var more := lines + [line];
    forall i | 0 <= i < |hs| ensures FirstAt(more, hs[i].name, firsts[i]) {
      StillFirst(lines, line, hs[i].name, firsts[i]);
    }
    forall i | 0 <= i < |hs| ensures LastAt(more, hs[i].name, hs[i].value, lasts[i]) {
      StillLast(lines, line, hs[i].name, hs[i].value, lasts[i]);
    }
    forall k, name | 0 <= k < |more| && Names(more[k], name) ensures Listed(hs, name) {
      assert k < |lines| && more[k] == lines[k];
    }
  }

  lemma StillFirst(lines: seq<string>, line: string, name: string, k: int)
    requires FirstAt(lines, name, k)
    ensures FirstAt(lines + [line], name, k)
  {
    hide Names;
  }

  lemma StillLast(lines: seq<string>, line: string, name: string, value: string, k: int)
    requires LastAt(lines, name, value, k) && !Names(line, name)
    ensures LastAt(lines + [line], name, value, k)
  {
    hide Names, FieldOf;
    var more := lines + [line];
    forall j | k < j < |more| ensures !Names(more[j], name) {
      assert more[j] == if j < |lines| then lines[j] else line;
    }
  }

  lemma OneMoreField(lines: seq<string>, hs: seq<Header>, firsts: seq<int>, lasts: seq<int>, line: string,
                     name: string, value: string)
    returns (fs: seq<int>, ls: seq<int>)
    requires DictionaryOf(lines, hs, firsts, lasts) && FieldOf(line, name, value)
    requires forall other :: Names(line, other) <==> other == name
    ensures DictionaryOf(lines + [line], Put(hs, name, value), fs, ls)
  {
    hide Names, FieldOf;
    var i := IndexOf(hs, name);
    var more, n := lines + [line], |lines|;
    var ks := Put(hs, name, value);
    if i == -1 {
      fs, ls := firsts + [n], lasts + [n];
      forall j | 0 <= j < n ensures !Names(more[j], name) {
        assert more[j] == lines[j];
        assert Names(lines[j], name) ==> Listed(hs, name);
      }
    } else {
      fs, ls := firsts, lasts[i := n];
      assert forall j :: 0 <= j < |hs| ==> ks[j].name == hs[j].name;
      OneOfEach(lines, hs, firsts, lasts, i);
    }
    forall j | 0 <= j < |ks| ensures FirstAt(more, ks[j].name, fs[j]) {
      if j < |hs| {
        StillFirst(lines, line, hs[j].name, firsts[j]);
      }
    }
    forall j | 0 <= j < |ks| ensures LastAt(more, ks[j].name, ks[j].value, ls[j]) {
      if j < |hs| && j != i {
        StillLast(lines, line, hs[j].name, hs[j].value, lasts[j]);
      }
    }
    forall k, other | 0 <= k < |more| && Names(more[k], other) ensures Listed(ks, other) {
      if k < n {
        assert more[k] == lines[k];
        assert Listed(hs, other);
        var j :| 0 <= j < |hs| && hs[j].name == other;
        assert ks[j].name == other;
      } else {
        assert ks[if i == -1 then |hs| else i].name == name;
      }
    }
  }

  lemma OneOfEach(lines: seq<string>, hs: seq<Header>, firsts: seq<int>, lasts: seq<int>, i: int)
    requires DictionaryOf(lines, hs, firsts, lasts) && 0 <= i < |hs|
    ensures forall j :: 0 <= j < |hs| && j != i ==> hs[j].name != hs[i].name
  {
    hide Names, Listed, LastAt;
    forall j | 0 <= j < |hs| && j != i ensures hs[j].name != hs[i].name {
      assert FirstAt(lines, hs[j].name, firsts[j]) && FirstAt(lines, hs[i].name, firsts[i]);
      assert firsts[j] != firsts[i];
    }
  }

  // ---------- Whole requests ----------

  /** A request line: three parts between single spaces, of which the last may hold more spaces. */
  ghost predicate PartsOf(line: string, v: string, p: string, w: string) {
    line == v + " " + p + " " + w && ' ' !in v && ' ' !in p
  }

  lemma PartsIff(line: string, v: string, p: string, w: string)
    ensures PartsOf(line, v, p, w) <==> RequestLine(line) == Some((v, p, w))
  {
    assert v + " " + p + " " + w == v + " " + (p + " " + w);
    if PartsOf(line, v, p, w) {
      LineParts(v, p, w);
    }
    if RequestLine(line) == Some((v, p, w)) {
      RequestLineParts(line);
    }
  }

  /** What the parser makes of any head and what follows it: with a request line of three parts and
      as many body bytes as announced, those parts, the dictionary of the lines and those bytes;
      with fewer bytes, or another first line, nothing. */
  lemma {:induction false} ParseText(first: string, lines: seq<string>, rest: string, v: string, p: string, w: string)
    requires GoodLines([first] + lines)
    ensures var buf, hs := HeadText(first, lines) + rest, ParseHeaders(lines);
            && (PartsOf(first, v, p, w) && ContentLength(hs) >= 0 ==>
                  ParseRequest(buf) == if |rest| < ContentLength(hs) then None
                                       else Some(Request(v, p, w, hs, rest[..ContentLength(hs)])))
            && ((forall a, b, c :: !PartsOf(first, a, b, c)) ==> ParseRequest(buf) == None)
  {
    hide ParseRequest, BehindHead, GoodLines, RequestLine, PartsOf;
    var buf := HeadText(first, lines) + rest;
    HeadSplits(first, lines, rest);
    ParseBehindHead(buf);
    PartsIff(first, v, p, w);
    var h := |HeadText(first, lines)| - 4;
    assert buf[h + 4..] == rest;
    BehindLines(first, lines, buf, h);
    if RequestLine(first).Some? {
      var (a, b, c) := RequestLine(first).value;
      PartsIff(first, a, b, c);
    }
  }

  lemma BehindLines(first: string, lines: seq<string>, buf: string, h: nat)
    requires h + 4 <= |buf| && Split(buf[..h]) == [first] + lines
    ensures var hs := ParseHeaders(lines);
            && (RequestLine(first).None? ==> BehindHead(buf[..h], h + 4, buf) == None)
            && (RequestLine(first).Some? && ContentLength(hs) >= 0 ==>
                  var (v, p, w) := RequestLine(first).value;
                  var rest := buf[h + 4..];
                  BehindHead(buf[..h], h + 4, buf) == if |rest| < ContentLength(hs) then None
                                                      else Some(Request(v, p, w, hs, rest[..ContentLength(hs)])))
  {
    hide Split, RequestLine, ParseHeaders, ContentLength;
    assert ([first] + lines)[1..] == lines;
    var n := ContentLength(ParseHeaders(lines));
    if 0 <= n <= |buf| - (h + 4) {
      assert PySlice(buf, h + 4, h + 4 + n) == buf[h + 4..][..n];
    }
  }

  /** Without a blank line there is no request yet. */
  lemma NoBlankLine(buf: string)
    requires forall i :: !At(buf, "\r\n\r\n", i)
    ensures ParseRequest(buf) == None && ResponseContentLength(buf) == -1 && IsChunked(buf) == None
  {
    assert Find(buf, DELIM, 0) == -1;
  }

  // ---------- The announced length ----------

  /** `i` is the first header called `name`, in any casing. */
  ghost predicate FirstCalled(hs: seq<Header>, name: string, i: int) {
    0 <= i < |hs| && CaseOf(hs[i].name, name) && forall j :: 0 <= j < i ==> !CaseOf(hs[j].name, name)
  }

  lemma NamesLower()
    ensures Lower("content-length") == "content-length"
    ensures Lower("x-forwarded-for") == "x-forwarded-for"
    ensures Lower("transfer-encoding") == "transfer-encoding"
    ensures Lower("chunked") == "chunked"
  {
    forall i | 0 <= i < |"content-length"| ensures !('A' <= "content-length"[i] <= 'Z') {}
    forall i | 0 <= i < |"x-forwarded-for"| ensures !('A' <= "x-forwarded-for"[i] <= 'Z') {}
    forall i | 0 <= i < |"transfer-encoding"| ensures !('A' <= "transfer-encoding"[i] <= 'Z') {}
    forall i | 0 <= i < |"chunked"| ensures !('A' <= "chunked"[i] <= 'Z') {}
    LowerFixed("content-length");
    LowerFixed("x-forwarded-for");
    LowerFixed("transfer-encoding");
    LowerFixed("chunked");
  }

  /** The request's length is the number in its first Content-Length header; a value that is no
      number, like no such header, stands for 0. */
  lemma {:induction false} LengthMeans(hs: seq<Header>, i: int, n: int)
    ensures FirstCalled(hs, "content-length", i) && Numeral(hs[i].value, 10, n) ==> ContentLength(hs) == n
    ensures (FirstCalled(hs, "content-length", i) && (exists k :: 0 <= k < |hs[i].value| && Foreign(hs[i].value[k], 10))
             ==> ContentLength(hs) == 0)
    ensures (forall j :: 0 <= j < |hs| ==> !CaseOf(hs[j].name, "content-length")) ==> ContentLength(hs) == 0
  {
    hide Lower, CaseOf, Numeral, ParseInt, Foreign;
    NamesLower();
    forall j | 0 <= j < |hs| ensures CaseOf(hs[j].name, "content-length") <==> Lower(hs[j].name) == "content-length" {
      CaseIff(hs[j].name, "content-length");
    }
    if FirstCalled(hs, "content-length", i) {
      FirstNamedIs(hs, "content-length", i);
      NumberMeans(hs[i].value, n);
    }
  }

  lemma NumberMeans(value: string, n: int)
    ensures Numeral(value, 10, n) ==> IntOrZero(value) == n
    ensures (exists k :: 0 <= k < |value| && Foreign(value[k], 10)) ==> IntOrZero(value) == 0
  {
    hide Numeral, ParseInt, Foreign;
    if Numeral(value, 10, n) {
      NumeralParses(value, 10, n);
    }
    if k :| 0 <= k < |value| && Foreign(value[k], 10) {
      Rejects(value, 10, k);
    }
  }

  // ---------- The header section of a response ----------

  /** `k` is the first line called `name`, in any casing, and has that value. */
  ghost predicate FirstField(lines: seq<string>, name: string, value: string, k: int) {
    && 0 <= k < |lines| && IsField(lines[k], name, value)
    && forall j, v :: 0 <= j < k ==> !IsField(lines[j], name, v)
  }

  ghost predicate IsField(line: string, name: string, value: string) {
    exists n :: FieldOf(line, n, value) && CaseOf(n, name)
  }

  lemma IsFieldIff(line: string, name: string, value: string)
    requires Lower(name) == name
    ensures var k := Find(line, ":", 0);
            && (k != -1 ==> k + 1 <= |line|)
            && (IsField(line, name, value)
                <==> (k != -1 && Lower(Strip(line[..k])) == name && value == Strip(line[k + 1..])))
  {
    hide FieldOf, CaseOf, Lower, Strip, Find;
    TheField(line);
    var k := Find(line, ":", 0);
    if k != -1 {
      CaseIff(Strip(line[..k]), name);
    }
    forall n ensures FieldOf(line, n, value) <==> (k != -1 && n == Strip(line[..k]) && value == Strip(line[k + 1..])) {
      FieldIff(line, n, value);
    }
  }

  lemma {:induction false} FieldValueMeans(lines: seq<string>, name: string, value: string, k: int)
    requires Lower(name) == name
    ensures FirstField(lines, name, value, k) ==> FieldValue(lines, name) == Some(value)
    ensures (forall j, v :: 0 <= j < |lines| ==> !IsField(lines[j], name, v)) ==> FieldValue(lines, name) == None
    decreases |lines|
  {
    hide IsField, Lower, Strip, Find;
    if lines != [] {
      var line := lines[0];
      var c := Find(line, ":", 0);
      IsFieldIff(line, name, value);
      if c != -1 {
        IsFieldIff(line, name, Strip(line[c + 1..]));
      }
      if c != -1 && Lower(Strip(line[..c])) == name {
        assert IsField(lines[0], name, Strip(line[c + 1..]));
      } else {
        FieldValueMeans(lines[1..], name, value, k - 1);
        if FirstField(lines, name, value, k) {
          assert k > 0 && lines[1..][k - 1] == lines[k];
          assert forall j :: 0 <= j < k - 1 ==> lines[1..][j] == lines[j + 1];
        }
        if forall j, v :: 0 <= j < |lines| ==> !IsField(lines[j], name, v) {
          assert forall j :: 0 <= j < |lines| - 1 ==> lines[1..][j] == lines[j + 1];
        }
      }
    }
  }

  lemma LinesOfResponse(first: string, lines: seq<string>, rest: string)
    requires GoodLines([first] + lines)
    ensures ResponseLines(HeadText(first, lines) + rest) == Some(lines)
  {
    hide GoodLines, Split, Find, HeadText;
    HeadSplits(first, lines, rest);
  }

  /** The response's length: the number in its first Content-Length line, 0 where that is none, and
      -2 without such a line. */
  lemma {:induction false} ResponseLengthMeans(first: string, lines: seq<string>, rest: string, value: string, k: int, n: int)
    requires GoodLines([first] + lines)
    ensures var buf := HeadText(first, lines) + rest;
            && (FirstField(lines, "content-length", value, k) && Numeral(value, 10, n) ==> ResponseContentLength(buf) == n)
            && (FirstField(lines, "content-length", value, k) && (exists m :: 0 <= m < |value| && Foreign(value[m], 10)) ==>
                  ResponseContentLength(buf) == 0)
            && ((forall j, v :: 0 <= j < |lines| ==> !IsField(lines[j], "content-length", v)) ==> ResponseContentLength(buf) == -2)
  {
    hide GoodLines, HeadText, FieldValue, IsField, FirstField, Numeral, ResponseLines, Lower, IntOrZero;
    LinesOfResponse(first, lines, rest);
    NamesLower();
    FieldValueMeans(lines, "content-length", value, k);
    NumberMeans(value, n);
  }

  // ---------- Transfer codings ----------

  /** `s[lo..hi]` stands between commas. */
  predicate PartAt(s: string, lo: int, hi: int) {
    && 0 <= lo <= hi <= |s| && (lo == 0 || s[lo - 1] == ',') && (hi == |s| || s[hi] == ',')
    && forall i :: lo <= i < hi ==> s[i] != ','
  }

  /** One of the parts between commas, trimmed and in any casing, is "chunked". */
  ghost predicate NamesChunked(value: string) {
    exists lo, hi :: PartAt(value, lo, hi) && IsChunkedCoding(value[lo..hi])
  }

  ghost predicate IsChunkedCoding(part: string) {
    exists t :: TrimOf(part, t) && CaseOf(t, "chunked")
  }

  ghost predicate HasPart(s: string, part: string) {
    exists lo, hi :: PartAt(s, lo, hi) && s[lo..hi] == part
  }

  lemma {:induction false} SplitCommasMeans(s: string, part: string)
    ensures part in SplitCommas(s) <==> HasPart(s, part)
    decreases |s|
  {
    FindCharSplits(s, ',');
    var k := Find(s, ",", 0);
    hide Find;
    if k == -1 {
      assert PartAt(s, 0, |s|) && s[0..|s|] == s;
      assert forall i :: 0 <= i < |s| ==> s[i] != ',';
    } else {
      var rest := s[k + 1..];
      SplitCommasMeans(rest, part);
      FirstOrLater(s, k, part);
    }
  }

  lemma FirstOrLater(s: string, k: nat, part: string)
    requires k < |s| && s[k] == ',' && ',' !in s[..k]
    ensures HasPart(s, part) <==> part == s[..k] || HasPart(s[k + 1..], part)
  {
    var rest := s[k + 1..];
    forall i | 0 <= i < k ensures s[i] != ',' {
      assert s[..k][i] == s[i];
    }
    if part == s[..k] {
      assert PartAt(s, 0, k) && s[0..k] == part;
    }
    if HasPart(rest, part) {
      var lo, hi :| PartAt(rest, lo, hi) && rest[lo..hi] == part;
      LaterPart(s, k, lo, hi);
      assert s[k + 1 + lo..k + 1 + hi] == part;
    }
    if HasPart(s, part) {
      var lo, hi :| PartAt(s, lo, hi) && s[lo..hi] == part;
      if lo > k {
        LaterPart(s, k, lo - k - 1, hi - k - 1);
        assert rest[lo - k - 1..hi - k - 1] == part;
      } else {
        assert lo == 0;
        assert hi == k;
      }
    }
  }

  lemma LaterPart(s: string, k: nat, lo: int, hi: int)
    requires k < |s| && s[k] == ',' && 0 <= lo
    ensures PartAt(s[k + 1..], lo, hi) <==> PartAt(s, k + 1 + lo, k + 1 + hi)
  {
    var rest := s[k + 1..];
    if lo <= hi <= |rest| {
      assert forall i :: 0 <= i < |rest| ==> rest[i] == s[k + 1 + i];
      if PartAt(s, k + 1 + lo, k + 1 + hi) {
        forall i | lo <= i < hi ensures rest[i] != ',' {
          assert s[k + 1 + i] != ',';
        }
      }
    }
  }

  lemma LowerKeeps(c: char)
    ensures LowerChar(c) == ',' <==> c == ','
    ensures LowerChar(c) as int in WHITE <==> c as int in WHITE
    ensures IsSpace(LowerChar(c)) <==> IsSpace(c)
  {
  }

  lemma LowerStrip(s: string)
    ensures Strip(Lower(s)) == Lower(Strip(s))
  {
    hide LowerChar, Strip, IsSpace;
    var lo, hi := StripTrims(s);
    var t := Strip(s);
    StripIff(s, t);
    var a, b :| Blank(a) && Blank(b) && s == a + t + b;
    forall c ensures (LowerChar(c) as int in WHITE <==> c as int in WHITE) && (IsSpace(LowerChar(c)) <==> IsSpace(c)) {
      LowerKeeps(c);
    }
    assert Lower(s) == Lower(a) + Lower(t) + Lower(b);
    assert Blank(Lower(a)) && Blank(Lower(b)) && Trimmed(Lower(t));
    StripIff(Lower(s), Lower(t));
  }

  lemma LowerPart(s: string, lo: int, hi: int)
    ensures PartAt(Lower(s), lo, hi) <==> PartAt(s, lo, hi)
  {
    hide LowerChar;
    forall c ensures LowerChar(c) == ',' <==> c == ',' {
      LowerKeeps(c);
    }
    assert forall i :: 0 <= i < |s| ==> (Lower(s)[i] == ',' <==> s[i] == ',');
    hide Lower;
  }

  lemma {:induction false} ListsIff(value: string)
    ensures ListsChunked(value) <==> NamesChunked(value)
  {
    hide Lower, Strip, CaseOf, SplitCommas, IsChunkedCoding;
    var u := Lower(value);
    var codings := SplitCommas(u);
    NamesLower();
    if ListsChunked(value) {
      var i :| 0 <= i < |codings| && Strip(codings[i]) == "chunked";
      SplitCommasMeans(u, codings[i]);
      var lo, hi :| PartAt(u, lo, hi) && u[lo..hi] == codings[i];
      CodingAt(value, lo, hi);
    }
    if NamesChunked(value) {
      var lo, hi :| PartAt(value, lo, hi) && IsChunkedCoding(value[lo..hi]);
      CodingAt(value, lo, hi);
      SplitCommasMeans(u, u[lo..hi]);
      assert u[lo..hi] in codings;
    }
  }

  lemma CodingAt(value: string, lo: int, hi: int)
    ensures PartAt(Lower(value), lo, hi) <==> PartAt(value, lo, hi)
    ensures PartAt(value, lo, hi) ==>
              |Lower(value)| == |value| && (Strip(Lower(value)[lo..hi]) == "chunked" <==> IsChunkedCoding(value[lo..hi]))
  {
    LowerPart(value, lo, hi);
    if PartAt(value, lo, hi) {
      assert Lower(value)[lo..hi] == Lower(value[lo..hi]);
      hide Lower, Strip, CaseOf, TrimOf;
      LowerStrip(value[lo..hi]);
      NamesLower();
      CaseIff(Strip(value[lo..hi]), "chunked");
      StripIff(value[lo..hi], Strip(value[lo..hi]));
      forall t | TrimOf(value[lo..hi], t) ensures t == Strip(value[lo..hi]) {
        StripIff(value[lo..hi], t);
      }
    }
  }

  /** A response is chunked exactly when its first Transfer-Encoding line names "chunked" among the
      codings listed, whatever the casing and the spacing. */
  lemma {:induction false} ChunkedMeans(first: string, lines: seq<string>, rest: string, value: string, k: int)
    requires GoodLines([first] + lines)
    ensures var buf := HeadText(first, lines) + rest;
            && (FirstField(lines, "transfer-encoding", value, k) ==> IsChunked(buf) == Some(NamesChunked(value)))
            && ((forall j, v :: 0 <= j < |lines| ==> !IsField(lines[j], "transfer-encoding", v)) ==> IsChunked(buf) == Some(false))
  {
    hide GoodLines, HeadText, FieldValue, IsField, FirstField, ResponseLines, Lower, ListsChunked, NamesChunked;
    LinesOfResponse(first, lines, rest);
    NamesLower();
    FieldValueMeans(lines, "transfer-encoding", value, k);
    ListsIff(value);
  }
}
