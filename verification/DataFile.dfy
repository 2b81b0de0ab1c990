/**
 The buffered line reader of datafile.c, in query mode.

 The first half says what the input file means: which lines it delivers, in which order, for how many
 runs.  The second half is the reader itself, with its compacting buffer, its whole-file cache and its
 raw pointer into the buffer.
 */
module DataFile {
  import opened Bytes

  const BUFFER_SIZE: nat := 65536
  const SEMICOLON: byte := 59

  /** strcspn stops at a newline, and at a NUL whether it is the terminator or comes from the file. */
  predicate IsSep(b: byte) {
    b == 10 || b == 0
  }

  /** The first separator from i on, or the end. */
  function NextSep(s: seq<byte>, i: nat): (k: nat)
    requires i <= |s|
    ensures i <= k <= |s|
    decreases |s| - i
  {
    if i == |s| || IsSep(s[i]) then i else NextSep(s, i + 1)
  }

  lemma {:induction false} NextSepMeans(s: seq<byte>, i: nat)
    requires i <= |s|
    ensures NextSep(s, i) < |s| ==> IsSep(s[NextSep(s, i)])
    ensures forall j :: i <= j < NextSep(s, i) ==> !IsSep(s[j])
    decreases |s| - i
  {
    if i < |s| && !IsSep(s[i]) {
      NextSepMeans(s, i + 1);
    }
  }

  /** The length of the line at the front, up to its separator or the end. */
  function LineLen(s: seq<byte>): (k: nat)
    ensures k <= |s|
  {
    NextSep(s, 0)
  }

  lemma LineLenMeans(s: seq<byte>)
    ensures LineLen(s) < |s| ==> IsSep(s[LineLen(s)])
    ensures forall i :: 0 <= i < LineLen(s) ==> !IsSep(s[i])
  {
    NextSepMeans(s, 0);
  }

  /** A line that does not fit the buffer is taken in buffer-sized pieces. */
  function PieceLen(s: seq<byte>): (k: nat)
    ensures k <= |s| && k <= BUFFER_SIZE
  {
    if LineLen(s) < BUFFER_SIZE then LineLen(s) else BUFFER_SIZE
  }

  /** What is left after a piece; the separator that ended it is gone too. */
  function AfterPiece(s: seq<byte>): (r: seq<byte>)
    ensures s != [] ==> |r| < |s|
  {
    if LineLen(s) < BUFFER_SIZE && LineLen(s) < |s| then s[LineLen(s) + 1..] else s[PieceLen(s)..]
  }

  /** Empty pieces and comments are passed over. */
  predicate Wanted(s: seq<byte>) {
    PieceLen(s) > 0 && s[0] != SEMICOLON
  }

  /** The input from its first wanted piece on. */
  function Deliver(s: seq<byte>): (r: seq<byte>)
    ensures r != [] ==> Wanted(r)
    decreases |s|
  {
    if s == [] || Wanted(s) then s else Deliver(AfterPiece(s))
  }

  /** The lines that reading the input to its end delivers. */
  function Lines(s: seq<byte>): seq<seq<byte>>
    decreases |s|
  {
    var d := Deliver(s);
    if d == [] then [] else DeliverShorter(s); [d[..PieceLen(d)]] + Lines(AfterPiece(d))
  }

  lemma DeliverShorter(s: seq<byte>)
    ensures |Deliver(s)| <= |s|
    decreases |s|
  {
    if s != [] && !Wanted(s) {
      DeliverShorter(AfterPiece(s));
    }
  }

  /** A text file: the given lines, each ended by a newline. */
  function Join(lines: seq<seq<byte>>): seq<byte> {
    if lines == [] then [] else lines[0] + [10] + Join(lines[1..])
  }

  function Filter(lines: seq<seq<byte>>): seq<seq<byte>> {
    if lines == [] then []
    else (if lines[0] != [] && lines[0][0] != SEMICOLON then [lines[0]] else []) + Filter(lines[1..])
  }

  lemma LineLenIs(s: seq<byte>, k: nat)
    requires k <= |s| && (k < |s| ==> IsSep(s[k])) && forall i :: 0 <= i < k ==> !IsSep(s[i])
    ensures LineLen(s) == k
  {
    LineLenMeans(s);
  }

  lemma {:induction false} LinesSkip(s: seq<byte>)
    requires s != [] && !Wanted(s)
    ensures Lines(s) == Lines(AfterPiece(s))
  {
    assert Deliver(s) == Deliver(AfterPiece(s));
  }

  /** A file of short lines delivers exactly its non-empty, non-comment lines, in order. */
  lemma {:induction false} LinesOfJoin(lines: seq<seq<byte>>)
    requires forall l :: l in lines ==> |l| < BUFFER_SIZE && forall i :: 0 <= i < |l| ==> !IsSep(l[i])
    ensures Lines(Join(lines)) == Filter(lines)
  {
    if lines != [] {
      var l, s := lines[0], Join(lines);
      assert s == l + [10] + Join(lines[1..]);
      LineLenIs(s, |l|);
      assert AfterPiece(s) == Join(lines[1..]) && s[..|l|] == l;
      LinesOfJoin(lines[1..]);
      if !Wanted(s) {
        LinesSkip(s);
      }
    }
  }

  /** What a reader still has to deliver. */
  datatype Cursor = Cursor(rest: seq<byte>, nruns: nat, readAny: bool)

  datatype Outcome = Line(text: seq<byte>) | Eof | InvalidFile

  /** perf_datafile_next on values: the next line of the file, going round as often as maxruns allows. */
  function NextLine(file: seq<byte>, maxruns: nat, c: Cursor): (Outcome, Cursor) {
    if maxruns > 0 && maxruns == c.nruns then (Eof, c)
    else
      var d := Deliver(c.rest);
      if d != [] then (Line(d[..PieceLen(d)]), Cursor(AfterPiece(d), c.nruns, true))
      else if !c.readAny then (InvalidFile, Cursor([], c.nruns + 1, false))
      else if maxruns == c.nruns + 1 then (Eof, Cursor([], c.nruns + 1, true))
      else
        var e := Deliver(file);
        if e != [] then (Line(e[..PieceLen(e)]), Cursor(AfterPiece(e), c.nruns + 1, true))
        else (Eof, Cursor([], c.nruns + 2, true))
  }

  /** The cursor after n calls, and the outcome of the call after those. */
  function After(file: seq<byte>, maxruns: nat, n: nat): Cursor {
    if n == 0 then Cursor(file, 0, false) else NextLine(file, maxruns, After(file, maxruns, n - 1)).1
  }

  function Nth(file: seq<byte>, maxruns: nat, n: nat): Outcome {
    NextLine(file, maxruns, After(file, maxruns, n)).0
  }

  /** The same going round, on a list of lines instead of bytes. */
  datatype Tour = Tour(left: seq<seq<byte>>, nruns: nat, readAny: bool)

  function TourOf(c: Cursor): Tour {
    Tour(Lines(c.rest), c.nruns, c.readAny)
  }

  function NextStop(lines: seq<seq<byte>>, maxruns: nat, c: Tour): (Outcome, Tour)
    requires lines != []
  {
    if maxruns > 0 && maxruns == c.nruns then (Eof, c)
    else if c.left != [] then (Line(c.left[0]), Tour(c.left[1..], c.nruns, true))
    else if !c.readAny then (InvalidFile, Tour([], c.nruns + 1, false))
    else if maxruns == c.nruns + 1 then (Eof, Tour([], c.nruns + 1, true))
    else (Line(lines[0]), Tour(lines[1..], c.nruns + 1, true))
  }

  lemma LinesFirst(s: seq<byte>)
    ensures Deliver(s) == [] <==> Lines(s) == []
    ensures Deliver(s) != [] ==>
      && Lines(s)[0] == Deliver(s)[..PieceLen(Deliver(s))]
      && Lines(s)[1..] == Lines(AfterPiece(Deliver(s)))
  {
  }

  lemma NextLineIsNextStop(file: seq<byte>, maxruns: nat, c: Cursor)
    requires Lines(file) != []
    ensures NextStop(Lines(file), maxruns, TourOf(c)).0 == NextLine(file, maxruns, c).0
    ensures NextStop(Lines(file), maxruns, TourOf(c)).1 == TourOf(NextLine(file, maxruns, c).1)
  {
    LinesFirst(c.rest);
    LinesFirst(file);
  }

  /** After n lines: in run nruns, with all but the left lines of it read. */
  ghost predicate AtLine(lines: seq<seq<byte>>, c: Tour, n: nat) {
    && |c.left| <= |lines| && c.left == lines[|lines| - |c.left|..]
    && n == Times(c.nruns, |lines|) + |lines| - |c.left|
    && (n > 0 ==> c.readAny && |c.left| < |lines|) && (n == 0 ==> c.left == lines)
  }

  /** Multiplication by repeated addition, which is all that counting runs needs. */
  function Times(a: nat, b: nat): nat {
    if a == 0 then 0 else Times(a - 1, b) + b
  }

  lemma {:induction false} TimesGrows(a: nat, b: nat, c: nat)
    requires a < b
    ensures Times(a, c) + c <= Times(b, c)
  {
    if a < b - 1 {
      TimesGrows(a, b - 1, c);
    }
  }

  lemma {:induction false} TimesMod(a: nat, b: nat, r: nat)
    requires r < b
    ensures (Times(a, b) + r) % b == r && Times(a, b) == a * b
  {
    if a > 0 {
      TimesMod(a - 1, b, r);
      AddMod(Times(a - 1, b) + r, b);
    }
  }

  lemma AtLeast(d: int, b: nat)
    ensures d >= 1 ==> d * b >= b
    ensures d <= -1 ==> d * b + b <= 0
  {
  }

  lemma AddMod(n: nat, b: nat)
    requires b > 0
    ensures (n + b) % b == n % b
  {
    var d := (n + b) / b - n / b - 1;
    assert d * b == ((n + b) / b) * b - (n / b) * b - b;
    assert d * b == n % b - (n + b) % b;
    AtLeast(d, b);
  }

  /** Before the end of the last run, a call gives the next line in order, and the first after the last. */
  lemma NextInOrder(lines: seq<seq<byte>>, maxruns: nat, c: Tour, n: nat)
    requires lines != [] && AtLine(lines, c, n) && (maxruns == 0 || n < Times(maxruns, |lines|))
    ensures NextStop(lines, maxruns, c).0 == Line(lines[n % |lines|])
    ensures AtLine(lines, NextStop(lines, maxruns, c).1, n + 1)
  {
    var k := |lines| - |c.left|;
    if maxruns > 0 && maxruns < c.nruns {
      TimesGrows(maxruns, c.nruns, |lines|);
    }
    if c.left != [] {
      TimesMod(c.nruns, |lines|, k);
      assert c.left[1..] == lines[k + 1..];
    } else {
      TimesMod(c.nruns + 1, |lines|, 0);
    }
  }

  function TourAfter(lines: seq<seq<byte>>, maxruns: nat, n: nat): Tour
    requires lines != []
  {
    if n == 0 then Tour(lines, 0, false) else NextStop(lines, maxruns, TourAfter(lines, maxruns, n - 1)).1
  }

  lemma {:induction false} AfterIsTourAfter(file: seq<byte>, maxruns: nat, n: nat)
    requires Lines(file) != []
    ensures TourOf(After(file, maxruns, n)) == TourAfter(Lines(file), maxruns, n)
  {
    if n > 0 {
      AfterIsTourAfter(file, maxruns, n - 1);
      NextLineIsNextStop(file, maxruns, After(file, maxruns, n - 1));
    }
  }

  lemma {:induction false} TourReachesLine(lines: seq<seq<byte>>, maxruns: nat, n: nat)
    requires lines != [] && (maxruns == 0 || n <= Times(maxruns, |lines|))
    ensures AtLine(lines, TourAfter(lines, maxruns, n), n)
  {
    if n > 0 {
      TourReachesLine(lines, maxruns, n - 1);
      NextInOrder(lines, maxruns, TourAfter(lines, maxruns, n - 1), n - 1);
    }
  }

  lemma ReachesLine(file: seq<byte>, maxruns: nat, n: nat)
    requires Lines(file) != [] && (maxruns == 0 || n <= Times(maxruns, |Lines(file)|))
    ensures AtLine(Lines(file), TourOf(After(file, maxruns, n)), n)
  {
    AfterIsTourAfter(file, maxruns, n);
    TourReachesLine(Lines(file), maxruns, n);
  }

  /** After the last line of the last run, the reader is in that run with no line left. */
  lemma LastRun(lines: seq<seq<byte>>, maxruns: nat, c: Tour, n: nat)
    requires lines != [] && maxruns > 0 && n == Times(maxruns, |lines|) && AtLine(lines, c, n)
    ensures c.nruns + 1 == maxruns && c.left == [] && c.readAny
  {
    if c.nruns + 1 > maxruns {
      assert c.nruns > maxruns ==> Times(maxruns, |lines|) + |lines| <= Times(c.nruns, |lines|) by {
        if c.nruns > maxruns { TimesGrows(maxruns, c.nruns, |lines|); }
      }
    } else if c.nruns + 1 < maxruns {
      TimesGrows(c.nruns + 1, maxruns, |lines|);
    }
    TimesGrows(0, maxruns, |lines|);
  }

  /** The call after the last line of the last run reports the end of file, and so does every later one. */
  lemma {:induction false} StaysAtEof(file: seq<byte>, maxruns: nat, n: nat)
    requires Lines(file) != [] && maxruns > 0 && n >= Times(maxruns, |Lines(file)|)
    ensures Nth(file, maxruns, n) == Eof && After(file, maxruns, n + 1).nruns == maxruns
  {
    if n == Times(maxruns, |Lines(file)|) {
      ReachesLine(file, maxruns, n);
      LastRun(Lines(file), maxruns, TourOf(After(file, maxruns, n)), n);
      LinesFirst(After(file, maxruns, n).rest);
    } else {
      StaysAtEof(file, maxruns, n - 1);
    }
  }

  /**
   The file is delivered line by line, over and over, for exactly maxruns runs, and then the end of
   file is reported for ever; without a limit there is no end.
   */
  lemma RunsInOrder(file: seq<byte>, maxruns: nat, n: nat)
    requires Lines(file) != []
    ensures Nth(file, maxruns, n) ==
      if maxruns == 0 || n < maxruns * |Lines(file)| then Line(Lines(file)[n % |Lines(file)|]) else Eof
  {
    var lines := Lines(file);
    TimesMod(maxruns, |lines|, 0);
    if maxruns == 0 || n < maxruns * |lines| {
      ReachesLine(file, maxruns, n);
      NextLineIsNextStop(file, maxruns, After(file, maxruns, n));
      NextInOrder(lines, maxruns, TourOf(After(file, maxruns, n)), n);
    } else {
      StaysAtEof(file, maxruns, n);
    }
  }

  /** A file with nothing to deliver is reported as invalid at once. */
  lemma NothingToRead(file: seq<byte>, maxruns: nat)
    requires Lines(file) == []
    ensures Nth(file, maxruns, 0) == InvalidFile
  {
    LinesFirst(file);
  }

  /** The input ends in a separator, or there is none left. */
  predicate Terminated(s: seq<byte>) {
    s == [] || IsSep(s[|s| - 1])
  }

  /** The buffer of a reader: `buf` is the array, with a NUL at `used`; `pos` is the offset of the descriptor. */
  datatype Window = Window(buf: seq<byte>, used: nat, current: nat, pos: nat, cached: bool)

  /** An input: what the descriptor delivers from its start, whether it was opened as a regular file, whether lseek works. */
  datatype Source = Source(bytes: seq<byte>, isFile: bool, seekable: bool)

  /** The used part of the buffer is the stretch of the input before `pos`; once cached, it is all of it. */
  ghost predicate Sound(src: Source, w: Window) {
    && |w.buf| == BUFFER_SIZE + 1
    && w.current <= w.used <= BUFFER_SIZE && w.buf[w.used] == 0
    && w.used <= w.pos <= |src.bytes|
    && (forall i :: 0 <= i < w.used ==> w.buf[i] == src.bytes[w.pos - w.used + i])
    && (w.cached ==> src.isFile && w.used == |src.bytes|)
  }

  function Unread(w: Window): seq<byte>
    requires w.current <= w.used <= |w.buf|
  {
    w.buf[w.current..w.used]
  }

  /** What is still to be read: the unread part of the buffer, then the rest of the input. */
  ghost function Rest(src: Source, w: Window): seq<byte>
    requires Sound(src, w)
  {
    Unread(w) + src.bytes[w.pos..]
  }

  /** Whether read(2) may return n bytes: some, unless there is no room or nothing left. */
  predicate MayRead(src: Source, w: Window, n: nat)
    requires w.current <= w.used <= BUFFER_SIZE && w.pos <= |src.bytes|
  {
    var size, left := BUFFER_SIZE - (w.used - w.current), |src.bytes| - w.pos;
    n <= size && n <= left && (n == 0 ==> size == 0 || left == 0)
  }

  predicate CanRefill(src: Source, w: Window, n: nat) {
    && |w.buf| == BUFFER_SIZE + 1 && w.current <= w.used <= BUFFER_SIZE
    && w.used - w.current + n <= BUFFER_SIZE && w.pos + n <= |src.bytes|
  }

  /** Byte k of the buffer once it is compacted, n bytes of the input are put after what was left, and a NUL after those. */
  function ByteAfter(src: Source, w: Window, n: nat, k: nat): byte
    requires CanRefill(src, w, n) && k < |w.buf|
  {
    var rem := w.used - w.current;
    if k < rem then w.buf[w.current + k]
    else if k < rem + n then src.bytes[w.pos + k - rem]
    else if k == rem + n then 0
    else w.buf[k]
  }

  function Refilled(src: Source, w: Window, n: nat): Window
    requires CanRefill(src, w, n)
  {
    w.(buf := seq(|w.buf|, k requires 0 <= k < |w.buf| => ByteAfter(src, w, n, k)),
       used := w.used - w.current + n, current := 0, pos := w.pos + n)
  }

  /** The buffer with n bytes moved down to its start. */
  function Moved(b: seq<byte>, from: nat, n: nat): (r: seq<byte>)
    requires from + n <= |b|
    ensures |r| == |b|
  {
    seq(|b|, k requires 0 <= k < |b| => if k < n then b[from + k] else b[k])
  }

  /** The buffer with data put at an offset, and a NUL behind it. */
  function Placed(b: seq<byte>, at: nat, data: seq<byte>): (r: seq<byte>)
    requires at + |data| < |b|
    ensures |r| == |b|
  {
    seq(|b|, k requires 0 <= k < |b| =>
      if at <= k < at + |data| then data[k - at] else if k == at + |data| then 0 else b[k])
  }

  lemma RefilledBytes(src: Source, w: Window, n: nat)
    requires CanRefill(src, w, n)
    ensures Refilled(src, w, n).buf ==
      Placed(Moved(w.buf, w.current, w.used - w.current), w.used - w.current, src.bytes[w.pos..w.pos + n])
  {
  }

  function Reread(src: Source, w: Window, n: nat): Window
    requires CanRefill(src, w, n)
  {
    var w' := Refilled(src, w, n);
    if src.isFile && w'.used == |src.bytes| then w'.(cached := true) else w'
  }

  lemma RereadWindow(src: Source, w: Window, n: nat)
    requires Sound(src, w) && !w.cached && MayRead(src, w, n)
    ensures Sound(src, Reread(src, w, n))
  {
  }

  lemma RereadUnread(src: Source, w: Window, n: nat)
    requires Sound(src, w) && !w.cached && MayRead(src, w, n)
    ensures Unread(Reread(src, w, n)) == Unread(w) + src.bytes[w.pos..w.pos + n]
  {
    var u, v := Unread(Reread(src, w, n)), Unread(w) + src.bytes[w.pos..w.pos + n];
    assert |u| == |v|;
    forall k | 0 <= k < |u| ensures u[k] == v[k] {
    }
  }

  lemma CutAt(s: seq<byte>, a: seq<byte>, i: nat, n: nat)
    requires i + n <= |s|
    ensures (a + s[i..i + n]) + s[i + n..] == a + s[i..]
  {
    assert s[i..] == s[i..i + n] + s[i + n..];
    assert (a + s[i..i + n]) + s[i + n..] == a + (s[i..i + n] + s[i + n..]);
  }

  /** Reading on loses nothing, however many bytes come; and a cached file is wholly in the buffer. */
  lemma RereadSound(src: Source, w: Window, n: nat)
    requires Sound(src, w) && !w.cached && MayRead(src, w, n)
    ensures var w' := Reread(src, w, n);
      && Sound(src, w') && Rest(src, w') == Rest(src, w)
      && Unread(w') == Unread(w) + src.bytes[w.pos..w.pos + n]
  {
    RereadWindow(src, w, n);
    RereadUnread(src, w, n);
    CutAt(src.bytes, Unread(w), w.pos, n);
  }

  /**
   The pointer `cur` is taken before the buffer is compacted.  When nothing more is read, what it then
   shows is the unfinished line if and only if the move was void or did not reach the old place.
   */
  lemma StalePointer(src: Source, w: Window)
    requires Sound(src, w) && LineLen(Unread(w)) == w.used - w.current
    ensures Refilled(src, w, 0).buf[w.current..w.used] == Unread(w)
      <==> w.current == 0 || w.current > w.used - w.current || w.current == w.used
  {
    var rem, buf := w.used - w.current, Refilled(src, w, 0).buf;
    var shown, s := buf[w.current..w.used], Unread(w);
    LineLenMeans(s);
    if 0 < w.current <= rem {
      assert shown[rem - w.current] == buf[rem] == ByteAfter(src, w, 0, rem);
      assert !IsSep(s[rem - w.current]);
    } else {
      forall i | 0 <= i < rem ensures shown[i] == s[i] {
        assert shown[i] == buf[w.current + i] == ByteAfter(src, w, 0, w.current + i);
      }
    }
  }

  /** The same, as the reader meets it: an unfinished line, and a read that brings nothing. */
  lemma StaleReread(src: Source, w: Window)
    requires Sound(src, w) && LineLen(Unread(w)) == w.used - w.current && MayRead(src, w, 0)
    ensures Reread(src, w, 0).buf[w.current..w.used] == Unread(w) <==> !(0 < w.current <= w.used - w.current)
    ensures 0 < w.current <= w.used - w.current ==> LineLen(Rest(src, w)) == |Rest(src, w)|
  {
    StalePointer(src, w);
    if 0 < w.current <= w.used - w.current {
      assert Rest(src, w) == Unread(w);
    }
  }

  /** The next piece, when the buffer holds b and the rest of the input is `tail`: b has its separator. */
  lemma PieceEnded(b: seq<byte>, tail: seq<byte>)
    requires LineLen(b) < |b| <= BUFFER_SIZE
    ensures var s, k := b + tail, LineLen(b);
      PieceLen(s) == k && AfterPiece(s) == b[k + 1..] + tail && s[..k] == b[..k]
  {
    LineLenMeans(b);
    LineLenIs(b + tail, LineLen(b));
  }

  /** b has no separator, and either it is all there is or it fills the buffer. */
  lemma PieceUnended(b: seq<byte>, tail: seq<byte>)
    requires LineLen(b) == |b| <= BUFFER_SIZE && (tail == [] || |b| == BUFFER_SIZE)
    ensures var s := b + tail; PieceLen(s) == |b| && AfterPiece(s) == tail && s[..|b|] == b
  {
    var s := b + tail;
    LineLenMeans(b);
    LineLenMeans(s);
    assert forall i :: 0 <= i < |b| ==> s[i] == b[i];
    if tail == [] {
      LineLenIs(s, |b|);
    }
  }

  /** Past the piece, and past its separator if the buffer has one. */
  function Advanced(w: Window, curlen: nat): Window {
    w.(current := w.current + curlen + if w.current + curlen < w.used then 1 else 0)
  }

  /** A piece is in the buffer whole: it ends there, or the input does, or it fills the buffer. */
  ghost predicate HasPiece(src: Source, w: Window)
    requires Sound(src, w)
  {
    w.current < w.used && (LineLen(Unread(w)) < w.used - w.current || w.pos == |src.bytes| || w.used - w.current == BUFFER_SIZE)
  }

  /** Advancing takes exactly the next piece off what is left to read. */
  ghost predicate AdvancesByPiece(src: Source, w: Window)
    requires Sound(src, w)
  {
    var k := LineLen(Unread(w));
    && k == PieceLen(Rest(src, w)) && Rest(src, w) != []
    && Sound(src, Advanced(w, k)) && Rest(src, Advanced(w, k)) == AfterPiece(Rest(src, w))
  }

  lemma AdvancedUnread(src: Source, w: Window, k: nat)
    requires Sound(src, w) && k <= w.used - w.current
    ensures Sound(src, Advanced(w, k))
    ensures Unread(Advanced(w, k)) == if k < w.used - w.current then Unread(w)[k + 1..] else []
  {
  }

  lemma AdvanceEnded(src: Source, w: Window)
    requires Sound(src, w) && LineLen(Unread(w)) < w.used - w.current
    ensures AdvancesByPiece(src, w)
  {
    PieceEnded(Unread(w), src.bytes[w.pos..]);
    AdvancedUnread(src, w, LineLen(Unread(w)));
  }

  lemma AdvanceUnended(src: Source, w: Window)
    requires Sound(src, w) && HasPiece(src, w) && LineLen(Unread(w)) == w.used - w.current
    ensures AdvancesByPiece(src, w)
  {
    var tail := src.bytes[w.pos..];
    PieceUnended(Unread(w), tail);
    AdvancedUnread(src, w, LineLen(Unread(w)));
    assert [] + tail == tail;
  }

  /** What the pointer to the start of the piece shows. */
  lemma PieceInBuffer(src: Source, w: Window, k: nat)
    requires Sound(src, w) && k <= w.used - w.current
    ensures w.buf[w.current..w.current + k] == Rest(src, w)[..k]
  {
    var l, r := w.buf[w.current..w.current + k], Rest(src, w)[..k];
    forall i | 0 <= i < k ensures l[i] == r[i] {
      assert l[i] == w.buf[w.current + i] && r[i] == Unread(w)[i];
    }
  }

  /** The buffer was not cached, and compacting it reaches the place the pointer points to. */
  predicate Overwrites(w: Window) {
    !w.cached && 0 < w.current <= w.used - w.current
  }

  /** From w, whose unread part is an unfinished line, to w' after an attempt to read on. */
  ghost predicate ReadsOn(src: Source, w: Window, w': Window)
    requires Sound(src, w)
  {
    && Sound(src, w') && Rest(src, w') == Rest(src, w) && |Unread(w')| >= |Unread(w)| && (w.cached ==> w'.cached)
    && (Unread(w') == [] ==> Rest(src, w') == [])
    && (w'.cached ==> w.cached || Rest(src, w') == src.bytes)
    && (|Unread(w')| == |Unread(w)| && Unread(w) != [] ==>
          && HasPiece(src, w') && Unread(w') == Unread(w)
          && (w'.buf[w.current..w.used] == Unread(w) <==> !Overwrites(w))
          && (Overwrites(w) ==> LineLen(Rest(src, w)) == |Rest(src, w)| < BUFFER_SIZE && !w'.cached))
  }

  lemma ReadsOnCached(src: Source, w: Window)
    requires Sound(src, w) && LineLen(Unread(w)) == w.used - w.current && w.cached
    ensures ReadsOn(src, w, w)
  {
  }

  /** A read that caches the file has all of it still to deliver; it cannot be one that overwrites the pointer's place. */
  lemma RereadCaches(src: Source, w: Window, n: nat)
    requires Sound(src, w) && !w.cached && MayRead(src, w, n)
    ensures var w' := Reread(src, w, n);
      && Sound(src, w') && (w'.cached ==> Rest(src, w') == src.bytes) && (n == 0 && w.current > 0 ==> !w'.cached)
  {
    RereadSound(src, w, n);
    var w' := Reread(src, w, n);
    if w'.cached {
      assert w'.buf[0..w'.used] == src.bytes && src.bytes[w'.pos..] == [];
    }
  }

  lemma NothingUnread(src: Source, w: Window)
    requires Sound(src, w) && !w.cached && MayRead(src, w, 0)
    ensures Sound(src, Reread(src, w, 0)) && Unread(Reread(src, w, 0)) == Unread(w)
    ensures Rest(src, Reread(src, w, 0)) == Rest(src, w)
    ensures w.pos == |src.bytes| || w.used - w.current == BUFFER_SIZE
    ensures Unread(w) == [] ==> Rest(src, w) == []
  {
    RereadSound(src, w, 0);
    assert Unread(w) + src.bytes[w.pos..w.pos + 0] == Unread(w);
  }

  lemma ReadsOnNothing(src: Source, w: Window)
    requires Sound(src, w) && LineLen(Unread(w)) == w.used - w.current && !w.cached && MayRead(src, w, 0)
    ensures ReadsOn(src, w, Reread(src, w, 0))
  {
    NothingUnread(src, w);
    RereadCaches(src, w, 0);
    StaleReread(src, w);
    if Overwrites(w) {
      assert Rest(src, w) == Unread(w);
    }
  }

  lemma ReadsOnMore(src: Source, w: Window, n: nat)
    requires Sound(src, w) && LineLen(Unread(w)) == w.used - w.current && !w.cached && MayRead(src, w, n)
    ensures ReadsOn(src, w, Reread(src, w, n))
  {
    if n == 0 {
      ReadsOnNothing(src, w);
    } else {
      RereadSound(src, w, n);
      RereadCaches(src, w, n);
    }
  }

  /**
   From w to w' the next piece was passed over; `cur` and `curlen` say where the reader believes it is in the
   buffer, and it is there exactly if the pointer is not stale.
   */
  ghost predicate Takes(src: Source, w: Window, w': Window, cur: nat, curlen: nat, stale: bool)
    requires Sound(src, w)
  {
    var s := Rest(src, w);
    && s != [] && Sound(src, w') && Rest(src, w') == AfterPiece(s) && (w.cached ==> w'.cached)
    && curlen == PieceLen(s) && cur + curlen <= BUFFER_SIZE
    && (w'.buf[cur..cur + curlen] == s[..curlen] <==> !stale)
    && (stale ==> !w.cached && !w'.cached && LineLen(s) == |s| < BUFFER_SIZE && Rest(src, w') == [])
  }

  lemma TakesEnded(src: Source, w: Window)
    requires Sound(src, w) && LineLen(Unread(w)) < w.used - w.current
    ensures Takes(src, w, Advanced(w, LineLen(Unread(w))), w.current, LineLen(Unread(w)), false)
  {
    AdvanceEnded(src, w);
    PieceInBuffer(src, w, LineLen(Unread(w)));
  }

  lemma TakesUnended(src: Source, w: Window, v: Window)
    requires Sound(src, w) && LineLen(Unread(w)) == w.used - w.current > 0
    requires ReadsOn(src, w, v) && |Unread(v)| == |Unread(w)|
    ensures Takes(src, w, Advanced(v, LineLen(Unread(w))), w.current, LineLen(Unread(w)), Overwrites(w))
  {
    AdvanceUnended(src, v);
    PieceInBuffer(src, w, LineLen(Unread(w)));
    assert Unread(w) == w.buf[w.current..w.current + LineLen(Unread(w))];
  }

  datatype ReadResult = Ok | Canceled | Failure | Fatal

  datatype Round = Taken | Again | AtEnd | Halted(why: ReadResult)

  datatype LineResult = Got(text: seq<byte>) | EndOfFile | Stopped(why: ReadResult)

  /** A line as it is put into a buffer with `avail` bytes free: cut to leave room for the NUL that ends it. */
  function Fit(text: seq<byte>, avail: nat): (r: seq<byte>)
    requires avail >= 1
    ensures |r| <= avail
  {
    (if |text| > avail - 1 then text[..avail - 1] else text) + [0]
  }

  /** The length of what follows the last separator. */
  function LastLen(s: seq<byte>): nat {
    if s == [] || IsSep(s[|s| - 1]) then 0 else 1 + LastLen(s[..|s| - 1])
  }

  /** There is room for an unfinished last line: it is shorter than the room, or than the reader's buffer. */
  predicate Roomy(bytes: seq<byte>, avail: nat) {
    avail > LastLen(bytes) || avail >= BUFFER_SIZE
  }

  lemma {:induction false} LastLenAtLeast(s: seq<byte>, k: nat)
    requires k <= |s| && forall i :: |s| - k <= i < |s| ==> !IsSep(s[i])
    ensures LastLen(s) >= k
    decreases k
  {
    if k > 0 {
      LastLenAtLeast(s[..|s| - 1], k - 1);
    }
  }

  /** What is left of an input, if it has no separator, is no longer than what follows the last one. */
  lemma UnendedFits(src: Source, w: Window, avail: nat)
    requires Sound(src, w) && LineLen(Rest(src, w)) == |Rest(src, w)| < BUFFER_SIZE && Roomy(src.bytes, avail)
    ensures |Rest(src, w)| < avail
  {
    var s, b := Rest(src, w), src.bytes;
    LineLenMeans(s);
    forall i | |b| - |s| <= i < |b| ensures !IsSep(b[i]) {
      var j := i - (|b| - |s|);
      assert s[j] == b[i] by {
        if j < w.used - w.current {
          assert s[j] == w.buf[w.current + j];
        }
      }
    }
    LastLenAtLeast(b, |s|);
  }

  lemma UnendedIsUnterminated(s: seq<byte>)
    requires s != [] && LineLen(s) == |s|
    ensures !Terminated(s)
  {
    LineLenMeans(s);
  }

  lemma TerminatedAfter(s: seq<byte>)
    requires Terminated(s)
    ensures Terminated(AfterPiece(s))
  {
  }

  /** What a call of read_one_line from `rest` must leave behind, if it returns a line or the end of file. */
  ghost predicate Delivers(rest: seq<byte>, rest': seq<byte>, r: LineResult, avail: nat)
    requires avail >= 1
  {
    var d := Deliver(rest);
    match r
    case Got(text) => d != [] && text == Fit(d[..PieceLen(d)], avail) && rest' == AfterPiece(d)
    case EndOfFile => d == [] && rest' == []
    case Stopped(why) => why == Canceled ==> Deliver(rest') == d
  }

  /** Any number of bytes that read(2) may return for a buffer of `size` when `left` are left to read. */
  method SomeBytes(size: nat, left: nat) returns (n: nat)
    ensures n <= size && n <= left && (n == 0 ==> size == 0 || left == 0)
  {
    if size == 0 || left == 0 {
      return 0;
    }
    n :| 1 <= n <= size && n <= left;
  }

  /** One round of the loop of read_one_line, from w to w'. */
  ghost predicate RoundOk(src: Source, w: Window, w': Window, round: Round, cur: nat, curlen: nat, stale: bool)
    requires Sound(src, w)
  {
    match round
    case Taken => Takes(src, w, w', cur, curlen, stale)
    case Again => ReadsOn(src, w, w') && |Unread(w')| > |Unread(w)|
    case AtEnd => ReadsOn(src, w, w') && Unread(w') == []
    case Halted(why) => why == Failure || (why == Canceled && w' == w)
  }

  /** What holds between rounds: nothing wanted has been passed over, unless a stale pointer hid the last line. */
  ghost predicate Searching(src: Source, w0: Window, w: Window, stale: bool)
    requires Sound(src, w0)
  {
    && Sound(src, w) && (w0.cached ==> w.cached)
    && (!stale ==> Deliver(Rest(src, w)) == Deliver(Rest(src, w0)))
    && (stale ==> Deliver(Rest(src, w0)) != [] && Rest(src, w) == [] && !w.cached && src.bytes != [])
    && (Terminated(Rest(src, w0)) ==> Terminated(Rest(src, w)))
    && (stale ==> !w0.cached && !Terminated(Rest(src, w0)))
  }

  lemma SearchGoesOn(src: Source, w0: Window, w: Window, stale: bool, w': Window)
    requires Sound(src, w0) && Searching(src, w0, w, stale) && ReadsOn(src, w, w')
    ensures Searching(src, w0, w', stale)
  {
  }

  /** The reader's test of the piece it has taken. */
  predicate Accepts(w: Window, cur: nat, curlen: nat)
    requires cur + curlen <= |w.buf|
  {
    curlen > 0 && w.buf[cur] != SEMICOLON
  }

  lemma AcceptsIsWanted(src: Source, w: Window, w': Window, cur: nat, curlen: nat)
    requires Sound(src, w) && Takes(src, w, w', cur, curlen, false)
    ensures Accepts(w', cur, curlen) <==> Wanted(Rest(src, w))
  {
    if curlen > 0 {
      assert w'.buf[cur] == w'.buf[cur..cur + curlen][0] == Rest(src, w)[..curlen][0];
    }
  }

  /**
   What read_one_line promises, from w0 to w'.  If it was misled by a stale pointer, then what it delivers is wrong,
   as far as there is room to see it, and the input is unterminated, uncached, and still uncached afterwards.
   */
  ghost predicate LineOk(src: Source, w0: Window, w': Window, r: LineResult, avail: nat, stale: bool)
    requires Sound(src, w0) && avail >= 1
  {
    && (stale ==> !w0.cached && !Terminated(Rest(src, w0)))
    && if r == Stopped(Failure) then true
       else
         && Sound(src, w') && (w0.cached ==> w'.cached) && (stale ==> !w'.cached)
         && (r.EndOfFile? ==> Rest(src, w') == [])
         && (!stale ==> Delivers(Rest(src, w0), Rest(src, w'), r, avail))
         && (stale && Roomy(src.bytes, avail) ==> !Delivers(Rest(src, w0), Rest(src, w'), r, avail))
  }

  /** A round that does not end the search leaves less to read, or as much with more of it in the buffer. */
  ghost predicate GoesOn(src: Source, w: Window, w': Window)
    requires Sound(src, w) && Sound(src, w')
  {
    |Rest(src, w')| < |Rest(src, w)| || (|Rest(src, w')| == |Rest(src, w)| && |Unread(w')| > |Unread(w)|)
  }

  lemma SearchEnds(src: Source, w0: Window, w: Window, stale: bool, w': Window, avail: nat)
    requires Sound(src, w0) && Searching(src, w0, w, stale) && ReadsOn(src, w, w') && Unread(w') == [] && avail >= 1
    ensures LineOk(src, w0, w', EndOfFile, avail, stale)
  {
  }

  /** An unfinished last line that is not wanted leaves nothing to deliver. */
  lemma LastUnwanted(s: seq<byte>)
    requires s != [] && AfterPiece(s) == []
    ensures Deliver(s) == if Wanted(s) then s else []
  {
  }

  /** A piece that the reader passes over: if the pointer is stale, it may have been wanted. */
  lemma SearchTakes(src: Source, w0: Window, w: Window, stale: bool, w': Window, cur: nat, curlen: nat, lost: bool)
    requires Sound(src, w0) && Searching(src, w0, w, stale) && Takes(src, w, w', cur, curlen, lost)
    ensures !stale && (lost ==> !w0.cached && !Terminated(Rest(src, w0)))
    ensures !Accepts(w', cur, curlen) ==> Searching(src, w0, w', lost && Wanted(Rest(src, w)))
    ensures |Rest(src, w')| < |Rest(src, w)|
  {
    var s := Rest(src, w);
    if lost {
      UnendedIsUnterminated(s);
      LastUnwanted(s);
    } else {
      AcceptsIsWanted(src, w, w', cur, curlen);
    }
    if Terminated(s) {
      TerminatedAfter(s);
    }
  }

  /** Two texts that fit with their NUL are told apart by it. */
  lemma FitTells(a: seq<byte>, b: seq<byte>, avail: nat)
    requires |a| < avail && |b| < avail && a != b
    ensures Fit(a, avail) != Fit(b, avail)
  {
    assert Fit(a, avail)[..|a|] == a && Fit(b, avail)[..|b|] == b;
  }

  lemma SearchFinds(src: Source, w0: Window, w: Window, stale: bool, w': Window, cur: nat, curlen: nat, lost: bool, avail: nat)
    requires Sound(src, w0) && Searching(src, w0, w, stale) && Takes(src, w, w', cur, curlen, lost)
    requires Accepts(w', cur, curlen) && avail >= 1
    ensures LineOk(src, w0, w', Got(Fit(w'.buf[cur..cur + curlen], avail)), avail, lost)
  {
    var s := Rest(src, w);
    SearchTakes(src, w0, w, stale, w', cur, curlen, lost);
    if !lost {
      AcceptsIsWanted(src, w, w', cur, curlen);
    } else {
      LastUnwanted(s);
      if Roomy(src.bytes, avail) {
        UnendedFits(src, w, avail);
        FitTells(w'.buf[cur..cur + curlen], s[..curlen], avail);
      }
    }
  }

  /** What is left to read is the end of the input, so it ends as the input does. */
  lemma RestIsSuffix(src: Source, w: Window)
    requires Sound(src, w) && Terminated(src.bytes)
    ensures Terminated(Rest(src, w))
  {
    var from := w.pos - w.used + w.current;
    assert Unread(w) == w.buf[..w.used][w.current..];
    assert Rest(src, w) == src.bytes[from..];
  }

  datatype NextResult = Next(outcome: Outcome) | Broken(why: ReadResult)

  function Fitted(o: Outcome, avail: nat): Outcome
    requires avail >= 1
  {
    match o
    case Line(text) => Line(Fit(text, avail))
    case _ => o
  }

  /** perf_datafile_next does on the buffer what NextLine does on what is left to read. */
  ghost predicate NextOk(bytes: seq<byte>, maxruns: nat, c: Cursor, c': Cursor, r: NextResult, avail: nat)
    requires avail >= 1
  {
    r.Next? ==> r.outcome == Fitted(NextLine(bytes, maxruns, c).0, avail) && c' == NextLine(bytes, maxruns, c).1
  }

  /** The cache rewound, and the descriptor moved back to the start with the buffer cleared. */
  function Rewound(w: Window): Window {
    w.(current := 0)
  }

  function Sought(w: Window): Window
    requires |w.buf| > 0
  {
    Window(w.buf[0 := 0], 0, 0, 0, w.cached)
  }

  function Reopened(w: Window): Window
    requires |w.buf| > 0
  {
    if w.cached then Rewound(w) else Sought(w)
  }

  /** Both ways of going back leave the whole input to be read. */
  lemma ReopenedSound(src: Source, w: Window)
    requires Sound(src, w)
    ensures Sound(src, Reopened(w)) && Rest(src, Reopened(w)) == src.bytes
  {
    if w.cached {
      assert w.pos == |src.bytes| && w.buf[0..w.used] == w.buf[..w.used];
    }
  }

  /** A line read after going back to the start. */
  ghost predicate RerunOk(src: Source, w: Window, w': Window, line: LineResult, avail: nat, stale: bool)
    requires avail >= 1
  {
    && (stale ==> !w.cached && !Terminated(src.bytes))
    && (!line.Stopped? ==>
          && Sound(src, w') && (w.cached ==> w'.cached)
          && (!stale ==> Delivers(src.bytes, Rest(src, w'), line, avail))
          && (stale && Roomy(src.bytes, avail) ==> !Delivers(src.bytes, Rest(src, w'), line, avail)))
  }

  lemma RerunFromLine(src: Source, w: Window, w': Window, line: LineResult, avail: nat, stale: bool)
    requires Sound(src, w) && avail >= 1
    requires Sound(src, Reopened(w)) && LineOk(src, Reopened(w), w', line, avail, stale)
    ensures RerunOk(src, w, w', line, avail, stale)
  {
    ReopenedSound(src, w);
  }

  /** The result of perf_datafile_next for the last line it tried to read. */
  function ResultOf(line: LineResult, readAny: bool): NextResult {
    match line
    case Got(text) => Next(Line(text))
    case EndOfFile => Next(if readAny then Eof else InvalidFile)
    case Stopped(why) => Broken(why)
  }

  /** What perf_datafile_next has achieved with its last line, from cursor c on a buffer w to a buffer w' in run nruns. */
  ghost predicate NextLineOk(src: Source, maxruns: nat, c: Cursor, w: Window, w': Window, nruns: nat, line: LineResult, avail: nat, stale: bool)
    requires avail >= 1
  {
    && (stale ==> !w.cached && !Terminated(src.bytes))
    && (!line.Stopped? ==>
          && Sound(src, w') && (w.cached ==> w'.cached) && (stale && !c.readAny ==> !w'.cached)
          && var c' := Cursor(Rest(src, w'), nruns, c.readAny || line.Got?);
          && (!stale ==> NextOk(src.bytes, maxruns, c, c', ResultOf(line, c.readAny), avail))
          && (stale && Roomy(src.bytes, avail) ==> !NextOk(src.bytes, maxruns, c, c', ResultOf(line, c.readAny), avail)))
  }

  predicate RunsOn(maxruns: nat, c: Cursor, line: LineResult) {
    line.EndOfFile? && c.readAny && maxruns != c.nruns + 1
  }

  /** A call that ends with its first line is right exactly if the line is. */
  lemma NextIsLine(bytes: seq<byte>, maxruns: nat, c: Cursor, rest: seq<byte>, line: LineResult, avail: nat)
    requires avail >= 1 && !(maxruns > 0 && maxruns == c.nruns) && !line.Stopped? && !RunsOn(maxruns, c, line)
    ensures var c' := Cursor(rest, c.nruns + (if line.EndOfFile? then 1 else 0), c.readAny || line.Got?);
      NextOk(bytes, maxruns, c, c', ResultOf(line, c.readAny), avail) <==> Delivers(c.rest, rest, line, avail)
  {
  }

  /** A call that goes round is right exactly if there was nothing left before, and the line it then reads is right. */
  lemma NextIsRerun(bytes: seq<byte>, maxruns: nat, c: Cursor, rest: seq<byte>, line: LineResult, avail: nat)
    requires avail >= 1 && !(maxruns > 0 && maxruns == c.nruns) && !line.Stopped? && RunsOn(maxruns, c, EndOfFile)
    ensures var c' := Cursor(rest, c.nruns + 1 + (if line.EndOfFile? then 1 else 0), true);
      NextOk(bytes, maxruns, c, c', ResultOf(line, c.readAny), avail) <==>
        Deliver(c.rest) == [] && Delivers(bytes, rest, line, avail)
  {
  }

  lemma NextFromLine(src: Source, maxruns: nat, c: Cursor, w: Window, w': Window, line: LineResult, avail: nat, stale: bool)
    requires avail >= 1 && !(maxruns > 0 && maxruns == c.nruns) && Sound(src, w) && c.rest == Rest(src, w)
    requires LineOk(src, w, w', line, avail, stale) && !RunsOn(maxruns, c, line)
    ensures NextLineOk(src, maxruns, c, w, w', c.nruns + (if line.EndOfFile? then 1 else 0), line, avail, stale)
  {
    if Terminated(src.bytes) {
      RestIsSuffix(src, w);
    }
    if !line.Stopped? {
      NextIsLine(src.bytes, maxruns, c, Rest(src, w'), line, avail);
    }
  }

  lemma EndOfRun(src: Source, w: Window, v: Window, avail: nat, stale: bool)
    requires Sound(src, w) && avail >= 1 && LineOk(src, w, v, EndOfFile, avail, stale)
    ensures !stale ==> Deliver(Rest(src, w)) == []
    ensures stale && Roomy(src.bytes, avail) ==> Deliver(Rest(src, w)) != []
  {
  }

  lemma NextFromRerun(src: Source, maxruns: nat, c: Cursor, w: Window, v: Window, stale: bool,
                      w': Window, line: LineResult, avail: nat, again: bool)
    requires avail >= 1 && !(maxruns > 0 && maxruns == c.nruns) && Sound(src, w) && c.rest == Rest(src, w)
    requires LineOk(src, w, v, EndOfFile, avail, stale) && RunsOn(maxruns, c, EndOfFile)
    requires RerunOk(src, v, w', line, avail, again) && (w.cached ==> v.cached)
    ensures NextLineOk(src, maxruns, c, w, w', c.nruns + 1 + (if line.EndOfFile? then 1 else 0), line, avail, stale || again)
  {
    if Terminated(src.bytes) {
      RestIsSuffix(src, w);
    }
    if !line.Stopped? {
      NextIsRerun(src.bytes, maxruns, c, Rest(src, w'), line, avail);
      EndOfRun(src, w, v, avail, stale);
    }
  }

  class Reader {
    const src: Source
    const databuf: array<byte>
    var used: nat
    var current: nat
    var pos: nat
    var cached: bool
    const maxruns: nat
    var nruns: nat
    var readAny: bool

    ghost function Snap(): Window
      reads this`used, this`current, this`pos, this`cached, databuf
    {
      Window(databuf[..], used, current, pos, cached)
    }

    ghost predicate Valid()
      reads this`used, this`current, this`pos, this`cached, databuf
    {
      Sound(src, Snap())
    }

    /** perf_datafile_open and perf_datafile_setmaxruns */
    constructor (src: Source, maxruns: nat)
      ensures Valid() && fresh(databuf) && this.src == src && this.maxruns == maxruns
      ensures Rest(src, Snap()) == src.bytes && !cached && nruns == 0 && !readAny
    {
      this.src, cached, pos, used, current := src, false, 0, 0, 0;
      this.maxruns, nruns, readAny := maxruns, 0, false;
      databuf := new byte[BUFFER_SIZE + 1](_ => 0);
    }

    /** The byte-moving half of isc_buffer_compact */
    method MoveDown(from: nat, n: nat)
      requires from + n <= databuf.Length
      modifies databuf
      ensures databuf[..] == Moved(old(databuf[..]), from, n)
    {
      forall i | 0 <= i < n {
        databuf[i] := databuf[from + i];
      }
    }

    /** read(2) of n bytes into the buffer, and the NUL behind them */
    method ReadInto(at: nat, n: nat)
      requires at + n < databuf.Length && pos + n <= |src.bytes|
      modifies databuf
      ensures databuf[..] == Placed(old(databuf[..]), at, src.bytes[pos..pos + n])
    {
      forall i | 0 <= i < n {
        databuf[at + i] := src.bytes[pos + i];
      }
      databuf[at + n] := 0;
    }

    /** isc_buffer_compact, read(2) of n bytes, isc_buffer_add and nul_terminate */
    method Refill(n: nat)
      requires CanRefill(src, Snap(), n)
      modifies this`used, this`current, this`pos, databuf
      ensures Snap() == Refilled(src, old(Snap()), n)
    {
      RefilledBytes(src, Snap(), n);
      var rem := used - current;
      MoveDown(current, rem);
      ReadInto(rem, n);
      used, current, pos := rem + n, 0, pos + n;
    }

    /**
     read_more.  Waiting for a descriptor that is not a file can be cancelled.  A read error leaves the
     buffer compacted but without its terminator, so nothing is promised then.
     */
    method ReadMore() returns (r: ReadResult, ghost n: nat)
      requires Valid() && !cached
      modifies this`used, this`current, this`pos, this`cached, databuf
      ensures r != Fatal && (r == Canceled ==> !src.isFile && Snap() == old(Snap()))
      ensures r == Ok ==> MayRead(src, old(Snap()), n) && Snap() == Reread(src, old(Snap()), n)
    {
      n := 0;
      if !src.isFile {
        if * {
          return Canceled, n;
        }
      }
      if * {
        return Failure, n;
      }
      var k := SomeBytes(BUFFER_SIZE - (used - current), |src.bytes| - pos);
      n := k;
      Refill(k);
      if src.isFile && used == |src.bytes| {
        cached := true;
      }
      r := Ok;
    }

    /** strcspn from the current position */
    method LineEnd() returns (k: nat)
      requires Valid()
      ensures k == LineLen(Unread(Snap()))
    {
      var end := current;
      while !IsSep(databuf[end])
        invariant current <= end <= used
        invariant forall i :: current <= i < end ==> !IsSep(databuf[i])
        decreases used - end
      {
        end := end + 1;
      }
      k := end - current;
      LineLenIs(databuf[current..used], k);
    }

    /** read_one_line, lines 188-192, when the buffer ends in an unfinished line. */
    method ReadOn() returns (result: ReadResult)
      requires Valid() && LineLen(Unread(Snap())) == used - current
      modifies this`used, this`current, this`pos, this`cached, databuf
      ensures result == Ok ==> ReadsOn(src, old(Snap()), Snap())
      ensures result == Canceled ==> Snap() == old(Snap())
      ensures result != Fatal
    {
      ghost var w := Snap();
      if cached {
        ReadsOnCached(src, w);
        result := Ok;
      } else {
        ghost var n;
        result, n := ReadMore();
        if result == Ok {
          ReadsOnMore(src, w, n);
        }
      }
    }

    /** read_one_line, lines 201-204 */
    method Advance(curlen: nat)
      requires Valid() && current + curlen <= used
      modifies this`current
      ensures Snap() == Advanced(old(Snap()), curlen)
    {
      current := current + curlen;
      if used - current > 0 {
        current := current + 1;
      }
    }

    /** read_one_line, lines 187-199: the buffer ends in an unfinished line.  A piece is there if the result is Taken. */
    method TakeUnended(nrem: nat) returns (round: Round)
      requires Valid() && LineLen(Unread(Snap())) == used - current == nrem
      modifies this`used, this`current, this`pos, this`cached, databuf
      ensures round == Taken ==>
        nrem > 0 && ReadsOn(src, old(Snap()), Snap()) && used - current == nrem
      ensures round != Taken ==> RoundOk(src, old(Snap()), Snap(), round, old(current), nrem, false)
    {
      var result := ReadOn();
      if result != Ok {
        return Halted(result);
      }
      if used - current == 0 {
        return AtEnd;
      }
      if used - current > nrem {
        return Again;
      }
      return Taken;
    }

    /**
     One round of the loop of read_one_line: either nothing is passed over yet, or the next piece is, and then
     `cur` is the pointer to it that was taken at the start of the round.
     */
    method TakePiece() returns (round: Round, cur: nat, curlen: nat, ghost stale: bool)
      requires Valid()
      modifies this`used, this`current, this`pos, this`cached, databuf
      ensures RoundOk(src, old(Snap()), Snap(), round, cur, curlen, stale)
    {
      ghost var w := Snap();
      cur := current;
      stale := false;
      curlen := LineEnd();
      if curlen == used - current {
        round := TakeUnended(curlen);
        if round != Taken {
          return;
        }
        stale := Overwrites(w);
        TakesUnended(src, w, Snap());
      } else {
        round := Taken;
        TakesEnded(src, w);
      }
      Advance(curlen);
    }

    /** One round, with the test of the piece it takes: a result, or the search goes on. */
    method SearchOnce(avail: nat, ghost w0: Window, ghost was: bool) returns (done: bool, r: LineResult, ghost stale: bool)
      requires avail >= 1 && Sound(src, w0) && Valid() && Searching(src, w0, Snap(), was)
      modifies this`used, this`current, this`pos, this`cached, databuf
      ensures done ==> LineOk(src, w0, Snap(), r, avail, stale)
      ensures done && r.Stopped? ==> r.why == Canceled || r.why == Failure
      ensures !done ==> Valid() && Searching(src, w0, Snap(), stale) && GoesOn(src, old(Snap()), Snap())
    {
      ghost var w := Snap();
      var round, cur, curlen; ghost var lost;
      round, cur, curlen, lost := TakePiece();
      done, r, stale := true, EndOfFile, was;
      match round {
        case Halted(why) =>
          r := Stopped(why);
        case AtEnd =>
          SearchEnds(src, w0, w, was, Snap(), avail);
        case Again =>
          SearchGoesOn(src, w0, w, was, Snap());
          done := false;
        case Taken =>
          if curlen > 0 && databuf[cur] != SEMICOLON {
            SearchFinds(src, w0, w, was, Snap(), cur, curlen, lost, avail);
            r, stale := Got(Fit(databuf[cur..cur + curlen], avail)), lost;
          } else {
            SearchTakes(src, w0, w, was, Snap(), cur, curlen, lost);
            done, stale := false, lost && Wanted(Rest(src, w));
          }
      }
    }

    /** The loop of read_one_line and the copying of the line it finds. */
    method FindLine(avail: nat) returns (r: LineResult, ghost stale: bool)
      requires Valid() && avail >= 1
      modifies this`used, this`current, this`pos, this`cached, databuf
      ensures LineOk(src, old(Snap()), Snap(), r, avail, stale)
      ensures r.Stopped? ==> r.why == Canceled || r.why == Failure
    {
      ghost var w0 := Snap();
      stale := false;
      while true
        invariant Valid() && Searching(src, w0, Snap(), stale)
        decreases |Rest(src, Snap())|, BUFFER_SIZE - |Unread(Snap())|
      {
        var done;
        done, r, stale := SearchOnce(avail, w0, stale);
        if done {
          return;
        }
      }
    }

    /** read_one_line.  `stale` can only come of an input that does not end in a separator and is not cached. */
    method ReadOneLine(avail: nat) returns (r: LineResult, ghost stale: bool)
      requires Valid() && avail >= 1
      modifies this`used, this`current, this`pos, this`cached, this`nruns, databuf
      ensures LineOk(src, old(Snap()), Snap(), r, avail, stale)
      ensures r.Stopped? ==> r.why == Canceled || r.why == Failure
      ensures nruns == old(nruns) + if r.EndOfFile? then 1 else 0
    {
      r, stale := FindLine(avail);
      if r.EndOfFile? {
        nruns := nruns + 1;
      }
    }

    /** reopen_file; a failing seek ends the program. */
    method Reopen() returns (ok: bool)
      requires databuf.Length > 0
      modifies this`used, this`current, this`pos, databuf
      ensures ok <==> cached || src.seekable
      ensures ok ==> Snap() == Reopened(old(Snap()))
    {
      if cached {
        current := 0;
        return true;
      }
      if !src.seekable {
        return false;
      }
      pos, used, current := 0, 0, 0;
      databuf[0] := 0;
      assert databuf[..] == old(databuf[..])[0 := 0];
      return true;
    }

    ghost function CursorNow(): Cursor
      requires Valid()
      reads this`used, this`current, this`pos, this`cached, this`nruns, this`readAny, databuf
    {
      Cursor(Rest(src, Snap()), nruns, readAny)
    }

    /** perf_datafile_next, lines 240-243: the end of a run that is not the last. */
    method Rerun(avail: nat) returns (line: LineResult, ghost stale: bool)
      requires Valid() && avail >= 1
      modifies this`used, this`current, this`pos, this`cached, this`nruns, databuf
      ensures line.Stopped? ==> line.why != Ok && (line.why == Fatal ==> !src.seekable)
      ensures nruns == old(nruns) + if line.EndOfFile? then 1 else 0
      ensures RerunOk(src, old(Snap()), Snap(), line, avail, stale)
    {
      ghost var w := Snap();
      var ok := Reopen();
      if !ok {
        return Stopped(Fatal), false;
      }
      assert Valid() by { ReopenedSound(src, w); }
      line, stale := ReadOneLine(avail);
      RerunFromLine(src, w, Snap(), line, avail, stale);
    }

    /** perf_datafile_next in query mode, lines 234-245, with the line it read last */
    method NextLineOf(avail: nat, ghost c: Cursor) returns (line: LineResult, ghost stale: bool)
      requires Valid() && avail >= 1 && c == CursorNow() && !(maxruns > 0 && maxruns == nruns)
      modifies this`used, this`current, this`pos, this`cached, this`nruns, databuf
      ensures line.Stopped? ==> line.why != Ok && (line.why == Fatal ==> !src.seekable)
      ensures NextLineOk(src, maxruns, c, old(Snap()), Snap(), nruns, line, avail, stale)
    {
      ghost var w := Snap();
      line, stale := ReadOneLine(avail);
      if line.EndOfFile? && readAny && maxruns != nruns {
        ghost var v, again := Snap(), false;
        line, again := Rerun(avail);
        NextFromRerun(src, maxruns, c, w, v, stale, Snap(), line, avail, again);
        stale := stale || again;
      } else {
        NextFromLine(src, maxruns, c, w, Snap(), line, avail, stale);
      }
    }

    /** perf_datafile_next in query mode */
    method NextQuery(avail: nat) returns (r: NextResult, ghost stale: bool)
      requires Valid() && avail >= 1
      modifies this`used, this`current, this`pos, this`cached, this`nruns, this`readAny, databuf
      ensures r.Next? ==> Valid() && (old(cached) ==> cached) && (stale && !old(readAny) ==> !cached)
      ensures r.Next? && !stale ==> NextOk(src.bytes, maxruns, old(CursorNow()), CursorNow(), r, avail)
      ensures r.Next? && stale && Roomy(src.bytes, avail) ==>
        !NextOk(src.bytes, maxruns, old(CursorNow()), CursorNow(), r, avail)
      ensures stale ==> !old(cached) && !Terminated(src.bytes)
      ensures r.Broken? ==> r.why != Ok && (r.why == Fatal ==> !src.seekable)
    {
      ghost var c := CursorNow();
      if maxruns > 0 && maxruns == nruns {
        return Next(Eof), false;
      }
      var line;
      line, stale := NextLineOf(avail, c);
      r := ResultOf(line, readAny);
      if line.Got? {
        readAny := true;
      }
    }

    /**
     The call after k others, if the input ends in a newline, or is cached, or is cached by the first call: it gives
     what RunsInOrder says, and leads on to the next call.
     */
    method NthQuery(avail: nat, ghost k: nat) returns (r: NextResult)
      requires Valid() && avail >= 1 && CursorNow() == After(src.bytes, maxruns, k)
      modifies this`used, this`current, this`pos, this`cached, this`nruns, this`readAny, databuf
      ensures r.Next? ==> Valid() && (old(cached) ==> cached)
      ensures r.Next? && (Terminated(src.bytes) || old(cached) || (k == 0 && cached)) ==>
        && CursorNow() == After(src.bytes, maxruns, k + 1)
        && r.outcome == Fitted(Nth(src.bytes, maxruns, k), avail)
    {
      ghost var stale;
      r, stale := NextQuery(avail);
    }
  }
}
