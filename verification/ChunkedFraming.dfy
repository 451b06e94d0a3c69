/** What the scanner recognises: prefixes and extensions of a scanned body, and the chunked
    encodings of RFC 7230, section 4.1. */
module ChunkedFraming {
  import opened Wrappers
  import opened Bytes
  import opened PyInt
  import opened Loops
  import opened Chunked

  // ---------- Prefixes and extensions ----------

  /** The position behind the last-chunk line, if the scanner gets there from `pos`. */
  function LastLine(body: string, pos: nat): Option<nat>
    decreases |body| - pos
  {
    if SizeAt(body, pos) == Some(0) then Some(Find(body, CRLF, PyIndex(pos, |body|)) + |CRLF|)
    else
      match TurnAt(body, pos)
      case Stop(_) => None
      case Advance(p) => if pos < p <= |body| then LastLine(body, p) else None
  }

  /** Where the message ends when the last-chunk line ends at `p`. */
  function MessageEnd(body: string, p: nat): Option<int> {
    var t := Find(body, DELIM, p);
    if t != -1 then Some(t + |DELIM|)
    else if PySlice(body, p, p + |CRLF|) == CRLF then Some(p + |CRLF|)
    else None
  }

  lemma SizeSame(b: string, x: string, pos: nat)
    requires pos <= |b| && 0 <= Find(b + x, CRLF, pos) <= |b| - 2
    ensures Find(b, CRLF, pos) == Find(b + x, CRLF, pos) && SizeAt(b, pos) == SizeAt(b + x, pos)
  {
    hide ParseInt, BeforeSemicolon;
    FindCut(b, x, CRLF, pos);
    var e := Find(b, CRLF, pos);
    assert (b + x)[pos..e] == b[pos..e];
  }

  lemma SliceSame(b: string, x: string, lo: nat, hi: nat)
    requires hi <= |b|
    ensures PySlice(b, lo, hi) == PySlice(b + x, lo, hi)
  {
    if lo < hi {
      assert (b + x)[lo..hi] == b[lo..hi];
    }
  }

  lemma FoundSize(b: string, pos: nat)
    requires SizeAt(b, pos).Some? && pos <= |b|
    ensures pos <= Find(b, CRLF, pos) <= |b| - 2
  {
    hide ParseInt, BeforeSemicolon;
  }

  lemma StopAtLast(body: string, pos: nat)
    requires TurnAt(body, pos).Stop? && TurnAt(body, pos).result.Some? && pos <= |body|
    ensures SizeAt(body, pos) == Some(0)
    ensures TurnAt(body, pos).result == MessageEnd(body, Find(body, CRLF, pos) + |CRLF|)
  {
    hide SizeAt;
  }

  lemma LastTurn(body: string, pos: nat)
    requires SizeAt(body, pos) == Some(0) && pos <= |body|
    ensures TurnAt(body, pos) == Stop(MessageEnd(body, Find(body, CRLF, pos) + |CRLF|))
  {
    hide SizeAt;
  }

  lemma MessageEndCut(b: string, x: string, p: nat)
    requires p <= |b| && MessageEnd(b + x, p) == Some(|b|)
    ensures MessageEnd(b, p) == Some(|b|)
  {
    if Find(b + x, DELIM, p) != -1 {
      FindCut(b, x, DELIM, p);
    } else {
      SliceSame(b, x, p, p + 2);
    }
  }

  lemma LastCut(b: string, x: string, pos: nat)
    requires pos <= |b| && TurnAt(b + x, pos) == Stop(Some(|b|))
    ensures SizeAt(b, pos) == Some(0) && TurnAt(b, pos) == Stop(Some(|b|))
  {
    hide TurnAt, SizeAt, MessageEnd;
    StopAtLast(b + x, pos);
    FoundSize(b + x, pos);
    var e := Find(b + x, CRLF, pos);
    EndBehind(b + x, e + 2);
    SizeSame(b, x, pos);
    MessageEndCut(b, x, e + 2);
    LastTurn(b, pos);
  }

  lemma EndBehind(body: string, p: nat)
    requires MessageEnd(body, p).Some?
    ensures p < MessageEnd(body, p).value
  {
  }

  /** Scanning is idempotent: the scanned part of a body scans to itself. */
  lemma {:induction false} ScanCut(b: string, x: string, pos: nat)
    requires pos <= |b| && ForwardSizes(b + x, pos) && Scan(b + x, pos) == Some(|b|)
    ensures ForwardSizes(b, pos) && Scan(b, pos) == Some(|b|)
    decreases |b| - pos
  {
    ForwardTurn(b + x, pos);
    hide SizeAt, TurnAt;
    match TurnAt(b + x, pos)
    case Advance(p) =>
      ScanInside(b + x, p);
      TurnSameForward(b, x, pos, p);
      ScanCut(b, x, p);
    case Stop(r) =>
      LastCut(b, x, pos);
  }

  /** A turn by its parts, where the size is not zero. */
  lemma TurnIs(body: string, pos: nat, size: int, e: nat)
    requires SizeAt(body, pos) == Some(size) && e == Find(body, CRLF, PyIndex(pos, |body|))
    ensures var q := e + 2 + size;
            && (size == 0 ==> TurnAt(body, pos).Stop?)
            && (size != 0 && q + 2 <= |body| && PySlice(body, q, q + 2) == CRLF ==> TurnAt(body, pos) == Advance(q + 2))
  {
    hide SizeAt, PySlice, Find, PyIndex, TurnBehind, At;
    TurnBehindIs(body, size, e + 2);
  }

  lemma TurnBehindIs(body: string, size: int, p: nat)
    ensures var t := TurnBehind(body, size, p);
            && (size == 0 ==> t.Stop?)
            && (size != 0 && p + size + 2 <= |body| && PySlice(body, p + size, p + size + 2) == CRLF
                ==> t == Advance(p + size + 2))
  {
    hide PySlice, Find;
  }

  lemma TurnSameForward(b: string, x: string, pos: nat, p: int)
    requires pos <= |b| && p <= |b|
    requires ForwardAt(b + x, pos) && TurnAt(b + x, pos) == Advance(p)
    ensures TurnAt(b, pos) == Advance(p) && SizeAt(b, pos) == SizeAt(b + x, pos)
  {
    hide SizeAt, TurnAt, TurnBehind, ForwardAt, PySlice, Find;
    TurnRight(b + x, pos);
    TurnParts(b + x, pos);
    FoundSize(b + x, pos);
    SizeSame(b, x, pos);
    SliceSame(b, x, p - 2, p);
    TurnIs(b, pos, SizeAt(b, pos).value, Find(b, CRLF, pos));
    TurnIs(b + x, pos, SizeAt(b, pos).value, Find(b, CRLF, pos));
  }

  /** A completed scan ends inside the body. */
  lemma {:induction false} ScanInside(body: string, pos: nat)
    requires ForwardSizes(body, pos) && Scan(body, pos).Some? && pos <= |body|
    ensures pos < Scan(body, pos).value <= |body|
    decreases |body| - pos
  {
    ForwardTurn(body, pos);
    hide SizeAt;
    if TurnAt(body, pos).Advance? {
      ScanInside(body, TurnAt(body, pos).pos);
    }
  }

  lemma SameForward(b: string, x: string, pos: nat)
    requires SizeAt(b, pos) == SizeAt(b + x, pos)
    ensures ForwardAt(b, pos) == ForwardAt(b + x, pos)
  {
    hide SizeAt;
  }

  /** Scanning is monotone: an extension of a complete body is complete, with the same last-chunk
      line `p`, and ends where the first CRLFCRLF behind `p` ends, or else behind the CRLF at `p`. */
  lemma {:induction false} ScanExtend(b: string, x: string, pos: nat) returns (p: nat)
    requires pos <= |b| && ForwardSizes(b, pos) && Scan(b, pos).Some?
    ensures ForwardSizes(b + x, pos)
    ensures LastLine(b, pos) == LastLine(b + x, pos) == Some(p)
    ensures Scan(b, pos) == MessageEnd(b, p) && Scan(b + x, pos) == MessageEnd(b + x, p)
    ensures Scan(b + x, pos).Some? && Scan(b, pos).value <= Scan(b + x, pos).value
    ensures Scan(b, pos) == Scan(b + x, pos)
       <==> Find(b, DELIM, p) != -1 || Find(b + x, DELIM, p) == -1
    decreases |b| - pos
  {
    hide SizeAt, TurnAt, TurnBehind, MessageEnd, Find, ForwardAt;
    ForwardTurn(b, pos);
    match TurnAt(b, pos)
    case Advance(q) =>
      TurnParts(b, pos);
      FoundSize(b, pos);
      FindExtend(b, x, CRLF, pos);
      SizeSame(b, x, pos);
      SameForward(b, x, pos);
      AdvanceExtend(b, x, pos, q);
      p := ScanExtend(b, x, q);
    case Stop(r) =>
      StopAtLast(b, pos);
      FoundSize(b, pos);
      FindExtend(b, x, CRLF, pos);
      SizeSame(b, x, pos);
      SameForward(b, x, pos);
      LastTurn(b + x, pos);
      p := Find(b, CRLF, pos) + 2;
      MessageEndExtend(b, x, p);
  }

  lemma AdvanceExtend(b: string, x: string, pos: nat, q: int)
    requires pos <= |b| && TurnAt(b, pos) == Advance(q) && SizeAt(b, pos) == SizeAt(b + x, pos)
    requires ForwardAt(b, pos)
    requires 0 <= Find(b, CRLF, pos) == Find(b + x, CRLF, pos)
    ensures TurnAt(b + x, pos) == Advance(q) && SizeAt(b, pos) != Some(0)
  {
    hide SizeAt, TurnAt, TurnBehind, ForwardAt, PySlice, Find;
    TurnRight(b, pos);
    TurnParts(b, pos);
    SliceSame(b, x, q - 2, q);
    TurnIs(b, pos, SizeAt(b, pos).value, Find(b, CRLF, pos));
    TurnIs(b + x, pos, SizeAt(b, pos).value, Find(b, CRLF, pos));
  }

  lemma MessageEndExtend(b: string, x: string, p: nat)
    requires p <= |b| && MessageEnd(b, p).Some?
    ensures MessageEnd(b + x, p).Some? && MessageEnd(b, p).value <= MessageEnd(b + x, p).value
    ensures MessageEnd(b, p) == MessageEnd(b + x, p)
       <==> Find(b, DELIM, p) != -1 || Find(b + x, DELIM, p) == -1
  {
    if Find(b, DELIM, p) != -1 {
      FindExtend(b, x, DELIM, p);
    } else {
      SliceSame(b, x, p, p + 2);
    }
  }
}
