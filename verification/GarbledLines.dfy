/**
 The inputs whose last line the reader of `DataFile` can garble, for some way in which read(2) cuts the input up.

 A run of the reader is told by its moves on the buffer: a read that brings some bytes, and the taking of the next
 piece.  The last line is garbled when the reader comes to it, already in the buffer whole, behind something that is
 not longer than it.
 */
module GarbledLines {
  import opened Bytes
  import opened DataFile

  /** A reader before its first read. */
  function Fresh(): Window {
    Window(seq(BUFFER_SIZE + 1, _ => 0), 0, 0, 0, false)
  }

  /** The buffer after an input that is not a file has been read whole and its first line has been taken. */
  function FirstTaken(src: Source, k: nat): Window
    requires CanRefill(src, Fresh(), |src.bytes|)
  {
    Advanced(Reread(src, Fresh(), |src.bytes|), k)
  }

  lemma FirstTakenIs(src: Source, x: seq<byte>, y: seq<byte>)
    requires src.bytes == x + [10] + y && |src.bytes| <= BUFFER_SIZE && !src.isFile
    requires forall i :: 0 <= i < |x| ==> !IsSep(x[i])
    ensures Sound(src, Fresh()) && MayRead(src, Fresh(), |src.bytes|)
    ensures var w := FirstTaken(src, |x|);
      Sound(src, w) && w.current == |x| + 1 && w.used == w.pos == |src.bytes| && !w.cached && Unread(w) == y
  {
    RereadSound(src, Fresh(), |src.bytes|);
    var w := Reread(src, Fresh(), |src.bytes|);
    assert Unread(Fresh()) + src.bytes[0..|src.bytes|] == src.bytes;
    assert Unread(w) == src.bytes;
    AdvancedUnread(src, w, |x|);
  }

  /**
   Inputs on which the reader goes wrong: a short first line, a longer last line without a newline, and not a file.
   The line to deliver is y, and the pointer shows something else.
   */
  lemma GarbledLastLine(src: Source, x: seq<byte>, y: seq<byte>)
    requires src.bytes == x + [10] + y && |src.bytes| <= BUFFER_SIZE && !src.isFile
    requires (forall i :: 0 <= i < |x| ==> !IsSep(x[i])) && (forall i :: 0 <= i < |y| ==> !IsSep(y[i]))
    requires |x| < |y|
    ensures Sound(src, Fresh()) && MayRead(src, Fresh(), |src.bytes|)
    ensures var w := FirstTaken(src, |x|);
      && Rest(src, w) == y && MayRead(src, w, 0)
      && Takes(src, w, Advanced(Reread(src, w, 0), |y|), w.current, |y|, true)
      && Reread(src, w, 0).buf[w.current..w.current + |y|] != y
  {
    FirstTakenIs(src, x, y);
    var w := FirstTaken(src, |x|);
    assert Rest(src, w) == y + [] == y;
    LineLenIs(y, |y|);
    ReadsOnNothing(src, w);
    TakesUnended(src, w, Reread(src, w, 0));
    StaleReread(src, w);
  }

  lemma GarbledText(src: Source, w: Window)
    requires Sound(src, w) && w.current == 2 && w.used == w.pos == |src.bytes| == 5 && Unread(w) == [98, 99, 100]
    ensures Reread(src, w, 0).buf[2..5] == [100, 0, 100]
  {
    var buf := Reread(src, w, 0).buf;
    assert buf[2] == ByteAfter(src, w, 0, 2) && buf[3] == ByteAfter(src, w, 0, 3) && buf[4] == ByteAfter(src, w, 0, 4);
    assert w.buf[4] == Unread(w)[2];
  }

  lemma SecondLine(bytes: seq<byte>, y: seq<byte>)
    requires bytes == [97, 10, 98, 99, 100] && y == [98, 99, 100]
    ensures Nth(bytes, 1, 1) == Line(y)
  {
    LineLenIs(bytes, 1);
    LineLenIs(y, 3);
    assert AfterPiece(bytes) == y;
    assert After(bytes, 1, 1) == Cursor(y, 0, true);
  }

  /** The shortest such input that shows it: of a, newline, b, c, d the last line comes out as d, NUL, d. */
  lemma GarbledExample()
    ensures var src := Source([97, 10, 98, 99, 100], false, false);
      && CanRefill(src, Fresh(), 5) && Nth(src.bytes, 1, 1) == Line([98, 99, 100])
      && var w := FirstTaken(src, 1);
         CanRefill(src, w, 0) && Reread(src, w, 0).buf[w.current..w.current + 3] == [100, 0, 100]
  {
    var src := Source([97, 10, 98, 99, 100], false, false);
    var x: seq<byte>, y: seq<byte> := [97], [98, 99, 100];
    assert src.bytes == x + [10] + y;
    FirstTakenIs(src, x, y);
    GarbledText(src, FirstTaken(src, 1));
    SecondLine(src.bytes, y);
  }

  datatype Move = Read(n: nat) | Take

  /** A buffer, and the size of the piece taken last, with its separator. */
  datatype Place = Place(w: Window, last: nat)

  /** A read when the buffer ends in an unfinished line; a piece when it has its separator, or fills the buffer. */
  ghost predicate CanMove(src: Source, w: Window, m: Move) {
    && Sound(src, w)
    && match m
       case Read(n) => !w.cached && LineLen(Unread(w)) == w.used - w.current && n > 0 && MayRead(src, w, n)
       case Take => LineLen(Unread(w)) < w.used - w.current || w.used - w.current == BUFFER_SIZE
  }

  ghost function TakenFrom(src: Source, w: Window): Window
    requires CanMove(src, w, Take)
  {
    if LineLen(Unread(w)) < w.used - w.current then Advanced(w, LineLen(Unread(w)))
    else Advanced(if w.cached then w else Reread(src, w, 0), BUFFER_SIZE)
  }

  lemma TakenPiece(src: Source, w: Window)
    requires CanMove(src, w, Take)
    ensures var w' := TakenFrom(src, w);
      && Sound(src, w') && Rest(src, w) != [] && Rest(src, w') == AfterPiece(Rest(src, w))
      && w'.used == w.used && w'.pos == w.pos
      && w'.current == w.current + (if LineLen(Unread(w)) < w.used - w.current then LineLen(Unread(w)) + 1 else BUFFER_SIZE)
      && (w.cached ==> w'.cached) && (w'.cached ==> w.cached || w.used == |src.bytes|)
  {
    if LineLen(Unread(w)) < w.used - w.current {
      AdvanceEnded(src, w);
    } else if w.cached {
      AdvanceUnended(src, w);
    } else {
      NothingUnread(src, w);
      AdvanceUnended(src, Reread(src, w, 0));
    }
  }

  ghost function Moves(src: Source, p: Place, m: Move): Place
    requires CanMove(src, p.w, m)
  {
    match m
    case Read(n) => p.(w := Reread(src, p.w, n))
    case Take =>
      TakenPiece(src, p.w);
      Place(TakenFrom(src, p.w), |Rest(src, p.w)| - |Rest(src, TakenFrom(src, p.w))|)
  }

  ghost predicate Legal(src: Source, p: Place, moves: seq<Move>)
    decreases |moves|
  {
    moves == [] || (CanMove(src, p.w, moves[0]) && Legal(src, Moves(src, p, moves[0]), moves[1..]))
  }

  ghost function End(src: Source, p: Place, moves: seq<Move>): Place
    requires Legal(src, p, moves)
    decreases |moves|
  {
    if moves == [] then p else End(src, Moves(src, p, moves[0]), moves[1..])
  }

  /** At the unfinished last line, with nothing more to read, and its place about to be overwritten. */
  ghost predicate Misled(src: Source, w: Window) {
    && Sound(src, w) && LineLen(Unread(w)) == w.used - w.current > 0
    && MayRead(src, w, 0) && Overwrites(w)
  }

  /** What the reader then takes for the line is not the line. */
  lemma MisledShows(src: Source, w: Window)
    requires Misled(src, w)
    ensures var len := w.used - w.current;
      && Rest(src, w) == Unread(w)
      && Takes(src, w, Advanced(Reread(src, w, 0), len), w.current, len, true)
      && Reread(src, w, 0).buf[w.current..w.used] != Rest(src, w)
  {
    NothingUnread(src, w);
    ReadsOnNothing(src, w);
    TakesUnended(src, w, Reread(src, w, 0));
  }

  /** The size, with its separator, of the piece before the last one, if c is the size of the one before s. */
  function Before(s: seq<byte>, c: nat): nat
    decreases |s|
  {
    if s == [] || AfterPiece(s) == [] then c else Before(AfterPiece(s), |s| - |AfterPiece(s)|)
  }

  function LastPiece(s: seq<byte>): seq<byte>
    decreases |s|
  {
    if s == [] || AfterPiece(s) == [] then s else LastPiece(AfterPiece(s))
  }

  /**
   The condition on the input: it does not end in a separator, the piece before the last is, with its separator, not longer
   than the last, both fit into the buffer, and they are not the whole of a regular file.
   */
  predicate Garbles(src: Source) {
    !Terminated(src.bytes) && Fits(src, Before(src.bytes, 0), |LastPiece(src.bytes)|)
  }

  predicate Fits(src: Source, c: nat, y: nat) {
    0 < c <= y && c + y <= BUFFER_SIZE && (src.isFile ==> c + y < |src.bytes|)
  }

  /** What every run keeps: the pieces to come, and that the buffer never starts within the piece taken last. */
  ghost predicate Kept(src: Source, p: Place) {
    && Sound(src, p.w)
    && (Rest(src, p.w) != [] ==>
          Before(Rest(src, p.w), p.last) == Before(src.bytes, 0) && LastPiece(Rest(src, p.w)) == LastPiece(src.bytes))
    && (p.w.current > 0 ==> 0 < p.last <= p.w.current)
    && (src.isFile && !p.w.cached && p.w.pos == |src.bytes| && src.bytes != [] ==> p.w.used < |src.bytes|)
  }

  lemma TakeKeeps(src: Source, p: Place)
    requires Kept(src, p) && CanMove(src, p.w, Take)
    ensures Kept(src, Moves(src, p, Take))
  {
    TakenPiece(src, p.w);
    var s, w' := Rest(src, p.w), TakenFrom(src, p.w);
    PieceSize(src, p.w);
  }

  /** The piece taken is what the buffer has moved on by. */
  lemma PieceSize(src: Source, w: Window)
    requires CanMove(src, w, Take)
    ensures Sound(src, TakenFrom(src, w))
    ensures |Rest(src, w)| - |Rest(src, TakenFrom(src, w))| == TakenFrom(src, w).current - w.current > 0
  {
    TakenPiece(src, w);
  }

  lemma ReadKeeps(src: Source, p: Place, n: nat)
    requires Kept(src, p) && CanMove(src, p.w, Read(n))
    ensures Kept(src, Moves(src, p, Read(n)))
  {
    RereadSound(src, p.w, n);
  }

  lemma {:induction false} RunKeeps(src: Source, p: Place, moves: seq<Move>)
    requires Kept(src, p) && Legal(src, p, moves)
    ensures Kept(src, End(src, p, moves))
    decreases |moves|
  {
    if moves != [] {
      match moves[0]
      case Read(n) =>
        ReadKeeps(src, p, n);
        RunKeeps(src, Moves(src, p, moves[0]), moves[1..]);
      case Take =>
        TakeKeeps(src, p);
        RunKeeps(src, Moves(src, p, moves[0]), moves[1..]);
    }
  }

  lemma MisledNeeds(src: Source, p: Place)
    requires Kept(src, p) && Misled(src, p.w)
    ensures Garbles(src)
  {
    var s := Rest(src, p.w);
    MisledShows(src, p.w);
    UnendedIsUnterminated(s);
    if Terminated(src.bytes) {
      RestIsSuffix(src, p.w);
    }
  }

  /** A reader that has read nothing yet, at the start of any run over the input. */
  ghost predicate Begins(src: Source, w: Window) {
    Sound(src, w) && w.used == 0 && w.pos == 0 && !w.cached
  }

  lemma BeginsKept(src: Source, w: Window)
    requires Begins(src, w)
    ensures Kept(src, Place(w, 0)) && Rest(src, w) == src.bytes
  {
    assert Unread(w) == [] && [] + src.bytes[0..] == src.bytes;
  }

  /** The first of several pieces: it fits into the buffer, and ends in its separator or fills the buffer. */
  lemma FirstPiece(s: seq<byte>)
    requires s != [] && AfterPiece(s) != []
    ensures var d := |s| - |AfterPiece(s)|;
      && 0 < d <= BUFFER_SIZE && d < |s|
      && (LineLen(s[..d]) == d - 1 || (LineLen(s[..d]) == d == BUFFER_SIZE))
  {
    var d := |s| - |AfterPiece(s)|;
    LineLenMeans(s);
    LineLenIs(s[..d], if LineLen(s) < BUFFER_SIZE then LineLen(s) else d);
  }

  /** A read into an empty buffer. */
  lemma ReadEmpty(src: Source, w: Window, n: nat)
    requires Sound(src, w) && w.current == w.used && !w.cached && 0 < n <= |Rest(src, w)| && n <= BUFFER_SIZE
    ensures CanMove(src, w, Read(n))
    ensures var w' := Reread(src, w, n);
      && Sound(src, w') && w'.current == 0 && w'.used == n && Unread(w') == Rest(src, w)[..n]
      && Rest(src, w') == Rest(src, w) && (w'.cached ==> src.isFile && n == |src.bytes|)
      && (n == |Rest(src, w)| ==> w'.pos == |src.bytes|)
  {
    assert Unread(w) == [] && Rest(src, w) == src.bytes[w.pos..];
    RereadSound(src, w, n);
  }

  /** One piece read to itself and taken. */
  lemma OnePiece(src: Source, p: Place)
    requires Kept(src, p) && p.w.current == p.w.used && !p.w.cached
    requires Rest(src, p.w) != [] && AfterPiece(Rest(src, p.w)) != []
    ensures var d := |Rest(src, p.w)| - |AfterPiece(Rest(src, p.w))|;
      && CanMove(src, p.w, Read(d)) && CanMove(src, Reread(src, p.w, d), Take)
      && var p' := Moves(src, Moves(src, p, Read(d)), Take);
         && Kept(src, p') && p'.w.current == p'.w.used && !p'.w.cached
         && Rest(src, p'.w) == AfterPiece(Rest(src, p.w))
  {
    var d := |Rest(src, p.w)| - |AfterPiece(Rest(src, p.w))|;
    FirstPiece(Rest(src, p.w));
    ReadEmpty(src, p.w, d);
    ReadKeeps(src, p, d);
    TakeKeeps(src, Moves(src, p, Read(d)));
    TakenPiece(src, Reread(src, p.w, d));
    RestWithin(src, p.w);
  }

  lemma RestWithin(src: Source, w: Window)
    requires Sound(src, w)
    ensures |Rest(src, w)| <= |src.bytes|
  {
  }

  /** The last two pieces as the input has them. */
  lemma LastTwoSizes(src: Source, p: Place)
    requires Kept(src, p) && Garbles(src)
    requires Rest(src, p.w) != [] && AfterPiece(Rest(src, p.w)) != [] && AfterPiece(AfterPiece(Rest(src, p.w))) == []
    ensures var s := Rest(src, p.w);
      var y := AfterPiece(s);
      && |s| <= BUFFER_SIZE && |y| < BUFFER_SIZE && LineLen(s) < |s| && LineLen(s) + 1 == |s| - |y| <= |y|
      && (src.isFile ==> |s| < |src.bytes|)
  {
    var s := Rest(src, p.w);
    assert Before(s, p.last) == |s| - |AfterPiece(s)| && LastPiece(s) == AfterPiece(s);
    EndedPiece(s);
  }

  /** The last two pieces read together, and the first of them taken. */
  lemma LastTwo(src: Source, p: Place)
    requires Kept(src, p) && p.w.current == p.w.used && !p.w.cached && Garbles(src)
    requires Rest(src, p.w) != [] && AfterPiece(Rest(src, p.w)) != [] && AfterPiece(AfterPiece(Rest(src, p.w))) == []
    ensures var n := |Rest(src, p.w)|;
      && CanMove(src, p.w, Read(n)) && CanMove(src, Reread(src, p.w, n), Take)
      && Misled(src, TakenFrom(src, Reread(src, p.w, n)))
  {
    var s := Rest(src, p.w);
    LastTwoSizes(src, p);
    ReadEmpty(src, p.w, |s|);
    var w1 := Reread(src, p.w, |s|);
    assert s[..|s|] == s;
    TakenPiece(src, w1);
    UnendedLast(src, TakenFrom(src, w1));
  }

  /** In what fits into the buffer, a piece with something behind it has its separator. */
  lemma EndedPiece(s: seq<byte>)
    requires s != [] && AfterPiece(s) != [] && |s| <= BUFFER_SIZE
    ensures LineLen(s) < |s| && LineLen(s) + 1 == |s| - |AfterPiece(s)|
  {
  }

  /** The last piece of an input without a separator at its end has none. */
  lemma UnendedLast(src: Source, w: Window)
    requires Sound(src, w) && w.pos == |src.bytes| && Rest(src, w) != [] && AfterPiece(Rest(src, w)) == []
    requires !Terminated(src.bytes) && |Rest(src, w)| < BUFFER_SIZE
    ensures LineLen(Unread(w)) == w.used - w.current > 0
  {
    var s := Rest(src, w);
    assert s == Unread(w);
    LineLenMeans(s);
    assert s[|s| - 1] == src.bytes[|src.bytes| - 1];
  }

  lemma Two(src: Source, p: Place, a: Move, b: Move, rest: seq<Move>)
    requires CanMove(src, p.w, a) && CanMove(src, Moves(src, p, a).w, b)
    requires Legal(src, Moves(src, Moves(src, p, a), b), rest)
    ensures Legal(src, p, [a, b] + rest) && End(src, p, [a, b] + rest) == End(src, Moves(src, Moves(src, p, a), b), rest)
  {
    var moves := [a, b] + rest;
    assert moves[1..] == [b] + rest && moves[1..][1..] == rest;
  }

  /** Reading piece by piece up to the last two, and those two together. */
  lemma {:induction false} GarblingRun(src: Source, p: Place) returns (moves: seq<Move>)
    requires Kept(src, p) && p.w.current == p.w.used && !p.w.cached && Garbles(src)
    requires Rest(src, p.w) != [] && AfterPiece(Rest(src, p.w)) != []
    ensures Legal(src, p, moves) && Misled(src, End(src, p, moves).w)
    decreases |Rest(src, p.w)|
  {
    var s := Rest(src, p.w);
    if AfterPiece(AfterPiece(s)) == [] {
      LastTwo(src, p);
      Two(src, p, Read(|s|), Take, []);
      moves := [Read(|s|), Take] + [];
    } else {
      var d := |s| - |AfterPiece(s)|;
      OnePiece(src, p);
      var rest := GarblingRun(src, Moves(src, Moves(src, p, Read(d)), Take));
      Two(src, p, Read(d), Take, rest);
      moves := [Read(d), Take] + rest;
    }
  }

  ghost predicate GarblesBy(src: Source, w: Window, moves: seq<Move>) {
    Legal(src, Place(w, 0), moves) && Misled(src, End(src, Place(w, 0), moves).w)
  }

  /** Some way of cutting the input up garbles its last line if and only if the condition on the input holds. */
  lemma GarbleIff(src: Source, w: Window)
    requires Begins(src, w)
    ensures (exists moves :: GarblesBy(src, w, moves)) <==> Garbles(src)
  {
    var p := Place(w, 0);
    BeginsKept(src, w);
    forall moves | GarblesBy(src, w, moves) ensures Garbles(src) {
      RunKeeps(src, p, moves);
      MisledNeeds(src, End(src, p, moves));
    }
    if Garbles(src) {
      var moves := GarblingRun(src, p);
      assert GarblesBy(src, w, moves);
    }
  }

  lemma AfterPieceConcat(a: seq<byte>, b: seq<byte>)
    requires a != [] && Terminated(a)
    ensures AfterPiece(a + b) == AfterPiece(a) + b && Terminated(AfterPiece(a))
  {
    LineLenMeans(a);
    assert LineLen(a) < |a|;
    LineLenIs(a + b, LineLen(a));
    TerminatedAfter(a);
  }

  lemma {:induction false} PastLines(pre: seq<byte>, t: seq<byte>, c: nat)
    requires Terminated(pre) && t != [] && AfterPiece(t) != []
    ensures Before(pre + t, c) == Before(t, 0) && LastPiece(pre + t) == LastPiece(t)
    decreases |pre|
  {
    if pre == [] {
      assert pre + t == t;
    } else {
      AfterPieceConcat(pre, t);
      PastLines(AfterPiece(pre), t, |pre| - |AfterPiece(pre)|);
    }
  }

  lemma TwoLines(x: seq<byte>, y: seq<byte>)
    requires |x| + |y| < BUFFER_SIZE && y != []
    requires (forall i :: 0 <= i < |x| ==> !IsSep(x[i])) && (forall i :: 0 <= i < |y| ==> !IsSep(y[i]))
    ensures var t := x + [10] + y; AfterPiece(t) == y && Before(t, 0) == |x| + 1 && LastPiece(t) == y
  {
    LineLenIs(x + [10] + y, |x|);
    LineLenIs(y, |y|);
    assert AfterPiece(y) == [];
  }

  lemma EndsAlike(pre: seq<byte>, t: seq<byte>)
    requires t != []
    ensures Terminated(pre + t) <==> Terminated(t)
  {
    assert (pre + t)[|pre + t| - 1] == t[|t| - 1];
  }

  lemma GarblesTail(src: Source, pre: seq<byte>, t: seq<byte>, y: seq<byte>)
    requires src.bytes == pre + t && Terminated(pre) && 0 < |y| < |t| <= BUFFER_SIZE
    requires AfterPiece(t) == y && Before(t, 0) == |t| - |y| && LastPiece(t) == y && !Terminated(t)
    ensures Garbles(src) <==> |t| - |y| <= |y| && (src.isFile ==> pre != [])
  {
    PastLines(pre, t, 0);
    EndsAlike(pre, t);
    assert Garbles(src) <==> Fits(src, |t| - |y|, |y|);
  }

  /** For two short lines at the end of an input: the one before the last is shorter than the last. */
  lemma GarblesShortLines(src: Source, pre: seq<byte>, x: seq<byte>, y: seq<byte>)
    requires src.bytes == pre + (x + [10] + y) && Terminated(pre) && |x| + |y| < BUFFER_SIZE && y != []
    requires (forall i :: 0 <= i < |x| ==> !IsSep(x[i])) && (forall i :: 0 <= i < |y| ==> !IsSep(y[i]))
    ensures Garbles(src) <==> |x| < |y| && (src.isFile ==> pre != [])
  {
    var t := x + [10] + y;
    TwoLines(x, y);
    assert t[|t| - 1] == y[|y| - 1];
    GarblesTail(src, pre, t, y);
  }
}
