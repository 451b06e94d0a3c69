/** The chunked-body scanner of http_parser.py and the framing of RFC 7230, section 4.1. */
module Chunked {
  import opened Wrappers
  import opened Bytes
  import opened PyInt
  import opened Loops

  // ---------- One turn of the scanner's loop ----------

  /** `text.split(";", 1)[0]`. */
  function BeforeSemicolon(t: string): string {
    var k := Find(t, ";", 0);
    if k == -1 then t else t[..k]
  }

  /** The size announced by the line that starts at `pos`, if it has ended and is a number. */
  function SizeAt(body: string, pos: int): Option<int> {
    var e := Find(body, CRLF, PyIndex(pos, |body|));
    if e == -1 then None else ParseInt(Strip(BeforeSemicolon(PySlice(body, pos, e))), 16)
  }

  /** The rest of a turn, behind a size line that ends before `p`. */
  function TurnBehind(body: string, size: int, p: nat): Turn<Option<int>> {
    if size == 0 then
      var t := Find(body, DELIM, p);
      if t != -1 then Stop(Some(t + |DELIM|))
      else if PySlice(body, p, p + |CRLF|) == CRLF then Stop(Some(p + |CRLF|))
      else Stop(None)
    else if p + size + |CRLF| > |body| then Stop(None)
    else if PySlice(body, p + size, p + size + |CRLF|) != CRLF then Stop(None)
    else Advance(p + size + |CRLF|)
  }

  /** What the loop does with the position `pos`, for every integer `pos`: a negative size can
      move the position to the left, even below zero, where Python counts from the end. */
  function TurnAt(body: string, pos: int): Turn<Option<int>> {
    match SizeAt(body, pos)
    case None => Stop(None)
    case Some(size) => TurnBehind(body, size, Find(body, CRLF, PyIndex(pos, |body|)) + |CRLF|)
  }

  function Turns(body: string): int -> Turn<Option<int>> {
    (pos: int) => TurnAt(body, pos)
  }

  // ---------- The loop ----------

  /** The body of the scanner's loop; `Advance` is the jump back to its head. */
  method TakeTurn(body: string, start: int) returns (t: Turn<Option<int>>)
    ensures t == Turns(body)(start)
  {
    hide ParseInt, BeforeSemicolon, Strip;
    var pos := start;
    var lineEnd := Find(body, CRLF, PyIndex(pos, |body|));
    if lineEnd == -1 {
      return Stop(None);
    }
    var sizeLine := PySlice(body, pos, lineEnd);
    var size := ParseInt(Strip(BeforeSemicolon(sizeLine)), 16);
    if size.None? {
      return Stop(None);
    }
    pos := lineEnd + |CRLF|;
    if size.value == 0 {
      var trailerEnd := Find(body, DELIM, pos);
      if trailerEnd == -1 {
        if PySlice(body, pos, pos + |CRLF|) == CRLF {
          return Stop(Some(pos + |CRLF|));
        }
        return Stop(None);
      }
      return Stop(Some(trailerEnd + |DELIM|));
    }
    if pos + size.value + |CRLF| > |body| {
      return Stop(None);
    }
    pos := pos + size.value;
    if PySlice(body, pos, pos + |CRLF|) != CRLF {
      return Stop(None);
    }
    return Advance(pos + |CRLF|);
  }

  /** try_consume_chunked_body, on every body on which its loop ends. */
  method TryConsume(body: string) returns (r: Option<int>)
    requires Halts(Turns(body))
    ensures Returns(Turns(body), r)
  {
    hide TurnAt;
    var pos := 0;
    ghost var fuel: nat :| Run(Turns(body), 0, fuel).Returned?;
    ghost var left := fuel;
    while true
      invariant Run(Turns(body), pos, left).Returned?
      invariant Run(Turns(body), pos, left) == Run(Turns(body), 0, fuel)
      decreases left
    {
      var t := TakeTurn(body, pos);
      if t.Stop? {
        return t.result;
      }
      pos, left := t.pos, left - 1;
    }
  }

  // ---------- When the loop ends ----------

  lemma TurnRange(body: string, size: int, p: nat)
    ensures var t := TurnBehind(body, size, p); t.Advance? ==> -|body| <= t.pos <= |body|
  {
  }

  /** Positions stay within one body length of zero, on either side. */
  lemma TurnsBounded(body: string)
    ensures Bounded(Turns(body), -|body|, |body| + 1)
  {
    forall p | Turns(body)(p).Advance? ensures -|body| <= Turns(body)(p).pos < |body| + 1 {
      TurnRange(body, SizeAt(body, p).value, Find(body, CRLF, PyIndex(p, |body|)) + |CRLF|);
    }
  }

  /** The size at `pos` when the line there is known. */
  lemma SizeAtLine(body: string, pos: nat, line: string)
    requires NoCrlf(line) && pos <= |body| && line + CRLF <= body[pos..]
    ensures Find(body, CRLF, pos) == pos + |line|
    ensures SizeAt(body, pos) == ParseInt(Strip(BeforeSemicolon(line)), 16)
  {
    hide ParseInt, BeforeSemicolon, Strip, NoCrlf;
    FindLineEnd(body, pos, line);
    assert body[pos..pos + |line|] == (line + CRLF)[..|line|] by {
      assert body[pos..pos + |line|] == body[pos..][..|line|];
    }
    assert PySlice(body, pos, pos + |line|) == line;
  }

  lemma SignedDigit(d: char)
    requires '1' <= d <= '9'
    ensures ParseInt([d], 16) == Some(DigitVal(d))
    ensures ParseInt(['-', d], 16) == Some(-DigitVal(d))
  {
    StripFixes([d]);
    StripFixes(['-', d]);
    assert ['-', d][1..] == [d];
    assert Digits([d], 16, 0, true) == Digits([d][1..], 16, DigitVal(d), false);
  }

  /** What `split(";", 1)[0]` leaves of a token and a chunk extension. */
  lemma TokenOfLine(token: string, ext: string)
    requires ';' !in token && (ext == "" || ext[0] == ';')
    ensures BeforeSemicolon(token + ext) == token
  {
    var line := token + ext;
    forall j | At(line, ";", j) ensures j >= |token| {
      assert line[j..j + 1][0] == line[j];
    }
    if ext != "" {
      assert line[|token|..|token| + 1] == ";";
      FindIs(line, ";", 0, |token|);
    }
  }

  lemma NegativeSizes(body: string)
    requires body == "1\r\nA\r\n-6\r\n"
    ensures SizeAt(body, 0) == Some(1) && Find(body, CRLF, 0) == 1
    ensures SizeAt(body, 6) == Some(-6) && Find(body, CRLF, 6) == 8
  {
    hide SizeAt, ParseInt, BeforeSemicolon;
    assert body[0..] == body && body[6..] == "-6\r\n";
    SizeAtLine(body, 0, "1");
    SizeAtLine(body, 6, "-6");
    TokenOfLine("1", "");
    TokenOfLine("-6", "");
    assert "1" + "" == "1" && "-6" + "" == "-6";
    StripFixes("1");
    StripFixes("-6");
    SignedDigit('1');
    SignedDigit('6');
  }

  lemma NegativeTurns(body: string)
    requires body == "1\r\nA\r\n-6\r\n"
    ensures TurnAt(body, 0) == Advance(6) && TurnAt(body, 6) == Advance(6)
  {
    hide SizeAt;
    NegativeSizes(body);
    assert PySlice(body, 4, 6) == CRLF;
  }

  // ---------- Sizes that do not lead back ----------

  /** The least size that never leads the scanner back: -2 moves it just behind the size line, and
      -1, -3, -4 and -5 stop it, for no CRLF starts inside a size line. A size of -6 can lead back. */
  const LEAST_FORWARD := -5

  predicate ForwardAt(body: string, pos: int) {
    SizeAt(body, pos).Some? ==> SizeAt(body, pos).value >= LEAST_FORWARD
  }

  lemma LineEnds(body: string, pos: int)
    requires SizeAt(body, pos).Some?
    ensures var e := Find(body, CRLF, PyIndex(pos, |body|)); e >= PyIndex(pos, |body|) && CrlfAt(body, e)
  {
    hide ParseInt, BeforeSemicolon, Strip, PySlice, PyIndex;
    AtCrlf(body, Find(body, CRLF, PyIndex(pos, |body|)));
  }

  /** What a turn that goes on has found: a size line that ends at `e`, a size, and CRLF behind
      as many bytes. */
  lemma TurnParts(body: string, pos: int)
    requires TurnAt(body, pos).Advance?
    ensures var e := Find(body, CRLF, PyIndex(pos, |body|));
            && e >= PyIndex(pos, |body|) && CrlfAt(body, e) && SizeAt(body, pos).Some?
            && (var q := e + 2 + SizeAt(body, pos).value;
                PySlice(body, q, q + 2) == CRLF && TurnAt(body, pos).pos == q + 2 <= |body|)
  {
    hide SizeAt, Find, PySlice, PyIndex, At;
    LineEnds(body, pos);
  }

  /** A negative size takes a sign and a digit. */
  lemma NegativeToken(t: string)
    requires ParseInt(t, 16).Some? && ParseInt(t, 16).value < 0
    ensures |t| >= 2 && (|t| == 2 ==> t[0] == '-')
  {
    var lo, hi := StripTrims(t);
    assert |Strip(t)| == |t| ==> Strip(t) == t;
    var u := Strip(t);
    hide Strip;
    assert u != "" && u[0] == '-';
    assert Digits("", 16, 0, true) == None;
    assert u[1..] != "";
  }

  lemma NegativeText(line: string)
    requires var n := ParseInt(Strip(BeforeSemicolon(line)), 16); n.Some? && n.value < 0
    ensures |line| >= 2 && (|line| == 2 ==> line[0] == '-')
  {
    var t := BeforeSemicolon(line);
    assert |t| <= |line| && (|t| == |line| ==> t == line);
    hide BeforeSemicolon, ParseInt, Strip;
    NegativeToken(Strip(t));
    var lo, hi := StripTrims(t);
    assert |Strip(t)| == |t| ==> Strip(t) == t;
  }

  lemma NegativeLine(body: string, pos: int)
    requires SizeAt(body, pos).Some? && SizeAt(body, pos).value < 0
    ensures var i, e := PyIndex(pos, |body|), Find(body, CRLF, PyIndex(pos, |body|));
            i + 2 <= e <= |body| && (i + 2 == e ==> body[i] == '-')
  {
    var i, e := PyIndex(pos, |body|), Find(body, CRLF, PyIndex(pos, |body|));
    LineEnds(body, pos);
    LineIs(body, pos, e);
    hide BeforeSemicolon, ParseInt, Strip, PySlice, Find, PyIndex;
    NegativeText(body[i..e]);
  }

  lemma LineIs(body: string, pos: int, e: nat)
    requires PyIndex(pos, |body|) <= e <= |body|
    ensures PySlice(body, pos, e) == body[PyIndex(pos, |body|)..e]
  {
  }

  lemma SliceIsCrlf(body: string, q: int)
    requires q >= -2 && |body| >= 2 && PySlice(body, q, q + 2) == CRLF
    ensures CrlfAt(body, q)
  {
    assert q >= 0;
    assert |PySlice(body, q, q + 2)| == 2;
    assert PySlice(body, q, q + 2) == body[q..q + 2];
  }

  /** No CRLF starts inside a size line of at least two bytes, nor one byte off its end, nor where it
      would take in the sign that the line starts with. */
  lemma NoCrlfNear(body: string, i: nat, e: nat, q: int)
    requires CrlfAt(body, e) && i + 2 <= e && (i + 2 == e ==> body[i] == '-')
    requires forall j :: i <= j < e ==> !CrlfAt(body, j)
    requires e - 3 <= q <= e + 1 && q != e
    ensures PySlice(body, q, q + 2) != CRLF
  {
    if PySlice(body, q, q + 2) == CRLF {
      SliceIsCrlf(body, q);
    }
  }

  lemma FirstCrlf(body: string, i: nat)
    ensures var e := Find(body, CRLF, i); e != -1 ==> forall j :: i <= j < e ==> !CrlfAt(body, j)
  {
    FindCrlf(body, i);
  }

  /** Such a size moves the position strictly to the right, and never out of the body. */
  lemma TurnRight(body: string, pos: int)
    requires ForwardAt(body, pos) && TurnAt(body, pos).Advance?
    ensures pos < TurnAt(body, pos).pos <= |body|
    ensures SizeAt(body, pos).Some? && SizeAt(body, pos).value >= -2
  {
    hide TurnAt, SizeAt, PySlice, Find, At, CrlfAt;
    TurnParts(body, pos);
    var i, e := PyIndex(pos, |body|), Find(body, CRLF, PyIndex(pos, |body|));
    if SizeAt(body, pos).value < 0 {
      NegativeLine(body, pos);
      FirstCrlf(body, i);
      if SizeAt(body, pos).value != -2 {
        NoCrlfNear(body, i, e, e + 2 + SizeAt(body, pos).value);
      }
    }
  }

  /** The scanner's answer by recursion to the right. */
  function Scan(body: string, pos: nat): Option<int>
    decreases |body| - pos
  {
    match TurnAt(body, pos)
    case Stop(r) => r
    case Advance(p) => if pos < p <= |body| then Scan(body, p) else None
  }

  /** No size the scanner meets from `pos` on leads it back. */
  predicate ForwardSizes(body: string, pos: nat)
    decreases |body| - pos
  {
    && ForwardAt(body, pos)
    && (match TurnAt(body, pos)
        case Stop(_) => true
        case Advance(p) => pos < p <= |body| ==> ForwardSizes(body, p))
  }

  lemma StopInside(body: string, pos: nat)
    requires TurnAt(body, pos).Stop? && TurnAt(body, pos).result.Some?
    ensures pos < TurnAt(body, pos).result.value <= |body|
  {
    hide SizeAt, Find;
    LineEnds(body, pos);
  }

  lemma ForwardTurn(body: string, pos: nat)
    requires ForwardAt(body, pos)
    ensures match TurnAt(body, pos)
            case Stop(r) => r.Some? ==> pos < r.value <= |body|
            case Advance(p) => pos < p <= |body|
  {
    if TurnAt(body, pos).Advance? {
      TurnRight(body, pos);
    } else if TurnAt(body, pos).result.Some? {
      StopInside(body, pos);
    }
  }

  lemma {:induction false} ForwardRun(body: string, pos: nat)
    requires ForwardSizes(body, pos)
    ensures exists fuel: nat :: Run(Turns(body), pos, fuel) == Returned(Scan(body, pos))
    decreases |body| - pos
  {
    ForwardTurn(body, pos);
    hide TurnAt, SizeAt;
    var step := Turns(body);
    match step(pos)
    case Stop(r) =>
      assert Run(step, pos, 1) == Returned(r);
    case Advance(p) =>
      ForwardRun(body, p);
      var fuel: nat :| Run(step, p, fuel) == Returned(Scan(body, p));
      assert Run(step, pos, fuel + 1) == Run(step, p, fuel);
  }

  /** Where no size below -5 is met the scanner ends, and `Scan` is its answer. */
  lemma ForwardHalts(body: string)
    requires ForwardSizes(body, 0)
    ensures Halts(Turns(body)) && Returns(Turns(body), Scan(body, 0))
  {
    hide TurnAt, SizeAt;
    ForwardRun(body, 0);
  }

  // ---------- Sizes that lead back for ever ----------

  /** The scanner stands at the same position after `i` and after `j` turns, and the size that it
      meets there is below -5. */
  ghost predicate LoopsBack(body: string, i: nat, j: nat) {
    Meets(Turns(body), i, j) && !ForwardAt(body, Run(Turns(body), 0, i).pos)
  }

  /** The scanner never ends exactly when it meets a size below -5 twice at one position. */
  lemma EndlessIff(body: string)
    ensures !Halts(Turns(body)) <==> exists i: nat, j: nat :: LoopsBack(body, i, j)
  {
    hide TurnAt, SizeAt, ForwardAt;
    var step := Turns(body);
    TurnsBounded(body);
    if i: nat, j: nat :| LoopsBack(body, i, j) {
      forall fuel: nat ensures Run(step, 0, fuel).Running? {
        MeetsForever(step, i, j, fuel);
      }
    }
    if !Halts(step) {
      EndlessRevisits(step, -|body|, |body| + 1);
      var i: nat, j: nat :| Meets(step, i, j);
      var k := SomeBack(body, i, j);
      MeetsShift(step, i, j, k);
      assert LoopsBack(body, k, k + (j - i));
    }
  }

  /** Between two visits of one position some size leads back. */
  lemma SomeBack(body: string, i: nat, j: nat) returns (k: nat)
    requires Meets(Turns(body), i, j)
    ensures i <= k < j && Run(Turns(body), 0, k).Running? && !ForwardAt(body, Run(Turns(body), 0, k).pos)
  {
    hide TurnAt, SizeAt, ForwardAt;
    var step := Turns(body);
    k := i;
    while ForwardAt(body, Run(step, 0, k).pos)
      invariant i <= k < j && Run(step, 0, k).Running?
      invariant k == i || Run(step, 0, k).pos > Run(step, 0, i).pos
      decreases j - k
    {
      OneTurn(body, k, j);
      k := k + 1;
    }
  }

  /** A turn at a position that does not lead back, before a later position. */
  lemma OneTurn(body: string, k: nat, j: nat)
    requires k < j && Run(Turns(body), 0, j).Running? && Run(Turns(body), 0, k).Running?
    requires ForwardAt(body, Run(Turns(body), 0, k).pos)
    ensures Run(Turns(body), 0, k + 1).Running?
    ensures Run(Turns(body), 0, k).pos < Run(Turns(body), 0, k + 1).pos
  {
    hide TurnAt, SizeAt, ForwardAt;
    var step := Turns(body);
    var pos := Run(step, 0, k).pos;
    RunSplits(step, 0, k, 1);
    RunSplits(step, 0, k + 1, j - k - 1);
    FirstTurn(step, pos);
    if step(pos).Advance? {
      TurnRight(body, pos);
    }
  }

  /** It does happen: behind `1 CRLF A CRLF`, the size -6 leads back to itself. */
  lemma {:induction false} NegativeSizeLoops()
    ensures !Halts(Turns("1\r\nA\r\n-6\r\n"))
  {
    hide TurnAt, SizeAt;
    var body := "1\r\nA\r\n-6\r\n";
    NegativeSizes(body);
    NegativeTurns(body);
    var step := Turns(body);
    assert step(0) == Advance(6) && step(6) == Advance(6);
    FirstTurn(step, 0);
    FirstTurn(step, 6);
    RunSplits(step, 0, 1, 1);
    assert LoopsBack(body, 1, 2);
    EndlessIff(body);
  }
}
