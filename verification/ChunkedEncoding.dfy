/** The chunked message format of RFC 7230, section 4.1, against the scanner: every well-formed
    message scans to its own length, and none of its proper prefixes scans at all. */
module ChunkedEncoding {
  import opened Wrappers
  import opened Bytes
  import opened PyInt
  import opened Loops
  import opened Chunked
  import opened ChunkedFraming

  // ---------- The format ----------

  /** One chunk: its size as written, the extension behind it, and its data. */
  datatype Chunk = Chunk(token: string, ext: string, data: string)

  /** The last chunk (a size of zero, as written, and an extension) and the trailer fields. */
  datatype LastChunk = LastChunk(token: string, ext: string, trailers: seq<string>)

  /** A size line: a hexadecimal numeral of value `n`, in any casing and with any leading zeros. */
  ghost predicate GoodLine(token: string, ext: string, n: nat) {
    Numeral(token, 16, n) && (ext == "" || ext[0] == ';') && NoCrlf(ext)
  }

  ghost predicate GoodChunk(c: Chunk) {
    GoodLine(c.token, c.ext, |c.data|) && c.data != ""
  }

  ghost predicate GoodLast(t: LastChunk) {
    GoodLine(t.token, t.ext, 0) && GoodLines(t.trailers)
  }

  /** Every length has such a size line. */
  lemma PlainChunk(data: string)
    requires data != ""
    ensures GoodChunk(Chunk(HexOf(|data|), "", data))
  {
    hide HexOf, Numeral;
    HexOfIs(|data|);
  }

  ghost predicate GoodChunks(cs: seq<Chunk>) {
    forall i :: 0 <= i < |cs| ==> GoodChunk(cs[i])
  }

  function EncodeChunk(c: Chunk): string {
    c.token + c.ext + CRLF + c.data + CRLF
  }

  function EncodeLast(t: LastChunk): string {
    t.token + t.ext + CRLF + (Lines(t.trailers) + CRLF)
  }

  function Encode(cs: seq<Chunk>, t: LastChunk): string {
    if cs == [] then EncodeLast(t) else EncodeChunk(cs[0]) + Encode(cs[1..], t)
  }

  // ---------- Size lines ----------

  lemma LineHasNoCrlf(token: string, ext: string, n: nat)
    requires GoodLine(token, ext, n)
    ensures NoCrlf(token + ext) && ';' !in token
  {
    NumeralPlain(token, 16, n);
    assert token[|token| - 1] !in ";\r\n";
    NoCrlfConcat(token, ext);
  }

  lemma LineSize(s: string, pos: nat, token: string, ext: string, n: nat)
    requires GoodLine(token, ext, n) && pos <= |s| && token + ext + CRLF <= s[pos..]
    ensures Find(s, CRLF, pos) == pos + |token| + |ext|
    ensures SizeAt(s, pos) == Some(n)
  {
    hide SizeAt, ParseInt, BeforeSemicolon, Numeral, Strip;
    LineHasNoCrlf(token, ext, n);
    SizeAtLine(s, pos, token + ext);
    TokenOfLine(token, ext);
    NumeralParses(token, 16, n);
  }

  /** A size line that has not ended yet has no size. */
  lemma LineCut(s: string, pos: nat, token: string, ext: string, n: nat)
    requires GoodLine(token, ext, n) && pos <= |s| && |s| - pos < |token| + |ext| + 2
    requires s[pos..] <= token + ext + CRLF
    ensures TurnAt(s, pos) == Stop(None) && SizeAt(s, pos) == None
  {
    hide ParseInt, BeforeSemicolon, Numeral, TurnBehind;
    LineHasNoCrlf(token, ext, n);
    var line := token + ext;
    forall j | pos <= j ensures !CrlfAt(s, j) {
      if j + 1 < |s| {
        assert s[pos..][j - pos] == s[j] && s[pos..][j - pos + 1] == s[j + 1];
        assert !CrlfAt(line, j - pos);
      }
    }
    FindCrlf(s, pos);
  }

  // ---------- One chunk ----------

  lemma SliceAt(s: string, pos: nat, off: nat, t: string)
    requires pos + off + |t| <= |s| && s[pos..][off..off + |t|] == t && t != ""
    ensures PySlice(s, pos + off, pos + off + |t|) == t
  {
    assert s[pos + off..pos + off + |t|] == s[pos..][off..off + |t|];
  }

  lemma ChunkTurn(s: string, pos: nat, c: Chunk)
    requires GoodChunk(c) && pos <= |s| && EncodeChunk(c) <= s[pos..]
    ensures TurnAt(s, pos) == Advance(pos + |EncodeChunk(c)|)
    ensures SizeAt(s, pos) == Some(|c.data|)
  {
    hide SizeAt, GoodLine;
    var line := c.token + c.ext + CRLF;
    var off := |line| + |c.data|;
    assert EncodeChunk(c) == line + (c.data + CRLF);
    assert line <= s[pos..];
    LineSize(s, pos, c.token, c.ext, |c.data|);
    ChunkEndsAt(s, pos, c, off);
    hide PySlice, EncodeChunk;
  }

  lemma ChunkEndsAt(s: string, pos: nat, c: Chunk, off: nat)
    requires pos <= |s| && EncodeChunk(c) <= s[pos..] && off == |c.token + c.ext + CRLF| + |c.data|
    ensures pos + off + 2 <= |s| && PySlice(s, pos + off, pos + off + 2) == CRLF
  {
    assert s[pos..][off..off + 2] == EncodeChunk(c)[off..off + 2] == CRLF;
    SliceAt(s, pos, off, CRLF);
  }

  lemma ChunkCut(s: string, pos: nat, c: Chunk)
    requires GoodChunk(c) && pos <= |s| && |s| - pos < |EncodeChunk(c)| && s[pos..] <= EncodeChunk(c)
    ensures TurnAt(s, pos) == Stop(None) && (SizeAt(s, pos).Some? ==> SizeAt(s, pos).value > 0)
  {
    hide SizeAt, GoodLine;
    var line := c.token + c.ext + CRLF;
    assert EncodeChunk(c) == line + (c.data + CRLF);
    if |s| - pos < |line| {
      assert s[pos..] <= line;
      LineCut(s, pos, c.token, c.ext, |c.data|);
    } else {
      assert line <= s[pos..];
      LineSize(s, pos, c.token, c.ext, |c.data|);
    }
  }

  /** Data that is followed by anything but CRLF stops the scan. */
  lemma WrongEnd(s: string, pos: nat, c: Chunk)
    requires GoodChunk(c) && pos <= |s|
    requires c.token + c.ext + CRLF + c.data <= s[pos..] && !(EncodeChunk(c) <= s[pos..])
    ensures TurnAt(s, pos) == Stop(None)
  {
    hide SizeAt, GoodLine;
    var line := c.token + c.ext + CRLF;
    assert line + c.data == c.token + c.ext + CRLF + c.data;
    assert line <= s[pos..];
    LineSize(s, pos, c.token, c.ext, |c.data|);
    var q := pos + |line| + |c.data|;
    if q + 2 <= |s| && s[q..q + 2] == CRLF {
      WholeChunk(s, pos, c);
    }
  }

  lemma WholeChunk(s: string, pos: nat, c: Chunk)
    requires pos <= |s| && c.token + c.ext + CRLF + c.data <= s[pos..]
    requires var q := pos + |c.token + c.ext + CRLF + c.data|; q + 2 <= |s| && s[q..q + 2] == CRLF
    ensures EncodeChunk(c) <= s[pos..]
  {
    var whole := c.token + c.ext + CRLF + c.data;
    assert s[pos..][..|whole| + 2] == whole + CRLF;
  }

  /** So does a size that holds a character of no number. */
  lemma WrongSize(s: string, pos: nat, token: string, ext: string, i: nat)
    requires NoCrlf(token + ext) && ';' !in token && (ext == "" || ext[0] == ';')
    requires pos <= |s| && token + ext + CRLF <= s[pos..]
    requires i < |token| && Foreign(token[i], 16)
    ensures TurnAt(s, pos) == Stop(None)
  {
    hide ParseInt, BeforeSemicolon, Strip, Foreign;
    SizeAtLine(s, pos, token + ext);
    TokenOfLine(token, ext);
    var lo, hi := StripTrims(token);
    ForeignIsSolid(token[i]);
    assert Strip(token)[i - lo] == token[i];
    Rejects(Strip(token), 16, i - lo);
  }

  lemma ForeignIsSolid(c: char)
    requires Foreign(c, 16)
    ensures !IsSpace(c)
  {
  }

  // ---------- The last chunk and the trailers ----------

  /** CRLFCRLF behind the last-chunk line occurs only at the end of the trailer part. */
  lemma TrailerDelim(s: string, p: nat, trailers: seq<string>, j: nat)
    requires GoodLines(trailers) && p <= j && p <= |s| && s[p..] <= Lines(trailers) + CRLF
    ensures At(s, DELIM, j)
       <==> trailers != [] && s[p..] == Lines(trailers) + CRLF && j == |s| - 4
  {
    var w := Lines(trailers) + CRLF;
    DelimOnlyAtEnd(trailers, j - p);
    if j + 4 <= |s| {
      assert s[j..j + 4] == s[p..][j - p..j - p + 4];
      PrefixSlice(s[p..], w, j - p, j - p + 4);
    }
  }

  lemma PrefixSlice(a: string, w: string, i: nat, j: nat)
    requires a <= w && i <= j <= |a|
    ensures a[i..j] == w[i..j]
  {
  }

  lemma TrailerEnd(s: string, p: nat, trailers: seq<string>)
    requires GoodLines(trailers) && p <= |s| && s[p..] <= Lines(trailers) + CRLF
    ensures MessageEnd(s, p) == if s[p..] == Lines(trailers) + CRLF then Some(|s|) else None
  {
    var t := Find(s, DELIM, p);
    if t != -1 {
      TrailerDelim(s, p, trailers, t);
    }
    var whole := s[p..] == Lines(trailers) + CRLF;
    if trailers == [] {
      if whole {
        assert s[p..p + 2] == s[p..];
      }
    } else {
      NoLeadingCrlf(trailers, s[p..]);
      if |s| >= p + 2 {
        assert s[p..][0..2] == s[p..p + 2];
      }
      if whole {
        assert Lines(trailers) == trailers[0] + CRLF + Lines(trailers[1..]);
        TrailerDelim(s, p, trailers, |s| - 4);
      }
    }
  }

  /** The last chunk completes the message exactly when all of it is there. */
  lemma LastChunkTurn(s: string, pos: nat, t: LastChunk)
    requires GoodLast(t) && pos <= |s| && s[pos..] <= EncodeLast(t)
    ensures TurnAt(s, pos) == Stop(if s[pos..] == EncodeLast(t) then Some(|s|) else None)
    ensures SizeAt(s, pos).Some? ==> SizeAt(s, pos).value == 0
  {
    hide SizeAt, TurnAt, GoodLine, Lines, MessageEnd, GoodLines;
    var line := t.token + t.ext + CRLF;
    var w := Lines(t.trailers) + CRLF;
    if |s| - pos < |line| {
      assert s[pos..] <= line;
      LineCut(s, pos, t.token, t.ext, 0);
    } else {
      assert s[pos..][..|line|] == EncodeLast(t)[..|line|] == line;
      LineSize(s, pos, t.token, t.ext, 0);
      LastTurn(s, pos);
      var p := pos + |line|;
      assert s[pos..] == line + s[p..];
      assert s[p..] == s[pos..][|line|..] && EncodeLast(t)[|line|..] == w;
      TrailerEnd(s, p, t.trailers);
    }
  }

  // ---------- Whole messages ----------

  lemma ScanPastChunk(s: string, pos: nat, c: Chunk)
    requires GoodChunk(c) && pos <= |s| && EncodeChunk(c) <= s[pos..]
    ensures pos < pos + |EncodeChunk(c)| <= |s|
    ensures Scan(s, pos) == Scan(s, pos + |EncodeChunk(c)|)
    ensures ForwardSizes(s, pos) == ForwardSizes(s, pos + |EncodeChunk(c)|)
  {
    hide TurnAt, SizeAt, EncodeChunk, GoodChunk;
    ChunkTurn(s, pos, c);
    ChunkNonEmpty(c);
    assert |s[pos..]| == |s| - pos;
  }

  lemma ChunkNonEmpty(c: Chunk)
    ensures |EncodeChunk(c)| > 0
  {
  }

  lemma ScanInsideChunk(s: string, pos: nat, c: Chunk)
    requires GoodChunk(c) && pos <= |s| && |s| - pos < |EncodeChunk(c)| && s[pos..] <= EncodeChunk(c)
    ensures Scan(s, pos) == None && ForwardSizes(s, pos)
  {
    hide TurnAt, SizeAt, EncodeChunk, GoodChunk;
    ChunkCut(s, pos, c);
  }

  lemma ScanLast(s: string, pos: nat, t: LastChunk)
    requires GoodLast(t) && pos <= |s| && s[pos..] <= EncodeLast(t)
    ensures Scan(s, pos) == if s[pos..] == EncodeLast(t) then Some(|s|) else None
    ensures ForwardSizes(s, pos)
  {
    hide TurnAt, SizeAt, EncodeLast, GoodLast;
    LastChunkTurn(s, pos, t);
  }

  /** Scanning the rest of a message, from behind `pre`, in any string cut inside that message:
      the scan completes, at the end of the string, exactly when nothing is cut off. */
  lemma {:induction false} ScanMessage(pre: string, cs: seq<Chunk>, t: LastChunk, s: string)
    requires GoodChunks(cs) && GoodLast(t) && pre <= s <= pre + Encode(cs, t)
    ensures ForwardSizes(s, |pre|)
    ensures Scan(s, |pre|) == if s == pre + Encode(cs, t) then Some(|s|) else None
    decreases |cs|
  {
    hide Scan, ForwardSizes, EncodeLast, GoodLast, EncodeChunk, GoodChunk;
    var pos := |pre|;
    assert s == pre + s[pos..];
    assert s[pos..] <= Encode(cs, t);
    if cs == [] {
      ScanLast(s, pos, t);
    } else {
      var c := cs[0];
      var enc := EncodeChunk(c);
      assert GoodChunk(c);
      if |s| - pos < |enc| {
        ScanInsideChunk(s, pos, c);
      } else {
        assert enc <= s[pos..];
        ScanPastChunk(s, pos, c);
        assert (pre + enc) + Encode(cs[1..], t) == pre + Encode(cs, t);
        ScanMessage(pre + enc, cs[1..], t, s);
      }
    }
  }

  /** Round trip: a well-formed chunked message scans to exactly its length. */
  lemma {:induction false} RoundTrip(cs: seq<Chunk>, t: LastChunk)
    requires GoodChunks(cs) && GoodLast(t)
    ensures ForwardSizes(Encode(cs, t), 0)
    ensures Scan(Encode(cs, t), 0) == Some(|Encode(cs, t)|)
    ensures Returns(Turns(Encode(cs, t)), Some(|Encode(cs, t)|))
  {
    hide ForwardSizes, Scan, Returns, Turns, Halts;
    assert "" + Encode(cs, t) == Encode(cs, t);
    ScanMessage("", cs, t, Encode(cs, t));
    ForwardHalts(Encode(cs, t));
  }

  /** Prefix-freeness: no proper prefix of a well-formed chunked message scans. */
  lemma {:induction false} PrefixFree(cs: seq<Chunk>, t: LastChunk, s: string)
    requires GoodChunks(cs) && GoodLast(t) && s < Encode(cs, t)
    ensures ForwardSizes(s, 0) && Scan(s, 0) == None
    ensures Returns(Turns(s), None)
  {
    hide ForwardSizes, Scan, Returns, Turns, Halts;
    assert "" + Encode(cs, t) == Encode(cs, t);
    ScanMessage("", cs, t, s);
    ForwardHalts(s);
  }
}
