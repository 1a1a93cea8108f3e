/** Files laid end to end and cut into pieces: file_storage.cpp. */
module FileLayout {

  datatype Storage = Storage(sizes: seq<nat>, pads: seq<bool>, pieceLength: nat) {
    predicate Valid() { pieceLength > 0 && |pads| == |sizes| }

    /** Where file `i` begins. */
    function Offset(i: nat): nat
      requires i <= |sizes|
    {
      if i == 0 then 0 else Offset(i - 1) + sizes[i - 1]
    }

    function Total(): nat { Offset(|sizes|) }

    /** As many pieces as it takes. */
    function NumPieces(): nat
      requires Valid()
    {
      (Total() + pieceLength - 1) / pieceLength
    }

    function PieceStart(piece: nat): nat { piece * pieceLength }

    function PieceEnd(piece: nat): nat { Min(piece * pieceLength + pieceLength, Total()) }
  }

  function Min(a: int, b: int): int { if a < b then a else b }

  function Max(a: int, b: int): int { if a < b then b else a }

  /** How many bytes two ranges have in common. */
  function Overlap(a: int, b: int, c: int, d: int): nat { Max(0, Min(b, d) - Max(a, c)) }

  /** The bytes of a file that lie in a piece. */
  function Share(fs: Storage, piece: nat, file: nat): nat
    requires file < |fs.sizes|
  {
    Overlap(fs.PieceStart(piece), fs.PieceEnd(piece), fs.Offset(file), fs.Offset(file + 1))
  }

  /** The bytes of a file that lie in the completed pieces among the first `n`. */
  function Done(fs: Storage, have: seq<bool>, file: nat, n: nat): nat
    requires n <= |have| && file < |fs.sizes|
  {
    if n == 0 then 0
    else Done(fs, have, file, n - 1) + if have[n - 1] then Share(fs, n - 1, file) else 0
  }

  lemma {:induction false} OffsetsMonotone(fs: Storage, i: nat, j: nat)
    requires i <= j <= |fs.sizes|
    ensures fs.Offset(i) <= fs.Offset(j)
    decreases j
  {
    if i < j { OffsetsMonotone(fs, i, j - 1); }
  }

  /** Where a piece lies. */
  lemma PieceRange(fs: Storage, piece: nat)
    requires fs.Valid() && piece < fs.NumPieces()
    ensures fs.PieceStart(piece) < fs.PieceEnd(piece) <= fs.Total()
    ensures fs.PieceEnd(piece) == fs.Total() <==> piece == fs.NumPieces() - 1
    ensures piece < fs.NumPieces() - 1 ==> fs.PieceEnd(piece) == fs.PieceStart(piece + 1)
  {
    var n := fs.NumPieces();
    var t := fs.Total();
    assert n * fs.pieceLength <= t + fs.pieceLength - 1 < n * fs.pieceLength + fs.pieceLength by {
      DivRange(t + fs.pieceLength - 1, fs.pieceLength);
    }
    MulMonotone(piece, n - 1, fs.pieceLength);
    assert (n - 1) * fs.pieceLength == n * fs.pieceLength - fs.pieceLength;
    if piece < n - 1 {
      MulMonotone(piece + 1, n - 1, fs.pieceLength);
      assert (piece + 1) * fs.pieceLength == piece * fs.pieceLength + fs.pieceLength;
    }
  }

  lemma DivRange(a: nat, b: nat)
    requires b > 0
    ensures a == a / b * b + a % b && 0 <= a % b < b
  {}

  lemma MulMonotone(a: nat, b: nat, c: nat)
    requires a <= b
    ensures a * c <= b * c
  {}

  /** All pieces together hold every byte of a file once. */
  lemma {:induction false} SharesAddUp(fs: Storage, have: seq<bool>, file: nat, n: nat)
    requires fs.Valid() && n <= |have| == fs.NumPieces() && file < |fs.sizes|
    ensures Done(fs, have, file, n) <= Overlap(0, if n == 0 then 0 else fs.PieceEnd(n - 1), fs.Offset(file), fs.Offset(file + 1))
    ensures (forall p: nat :: p < n ==> have[p]) ==>
      Done(fs, have, file, n) == Overlap(0, if n == 0 then 0 else fs.PieceEnd(n - 1), fs.Offset(file), fs.Offset(file + 1))
  {
    hide Overlap, fs.PieceEnd, fs.NumPieces, fs.Offset;
    var from, to := fs.Offset(file), fs.Offset(file + 1);
    if n > 0 {
      SharesAddUp(fs, have, file, n - 1);
      PieceRange(fs, n - 1);
      if n > 1 { PieceRange(fs, n - 2); }
      OverlapSplit(0, fs.PieceStart(n - 1), fs.PieceEnd(n - 1), from, to);
    } else {
      NoOverlap(from, to);
    }
  }

  lemma OverlapSplit(a: int, m: int, b: int, c: int, d: int)
    requires a <= m <= b
    ensures Overlap(a, b, c, d) == Overlap(a, m, c, d) + Overlap(m, b, c, d)
  {}

  lemma NoOverlap(c: nat, d: nat)
    ensures Overlap(0, 0, c, d) == 0
  {}

  /** No file is ever more than complete, and it is complete if all pieces are. */
  lemma NeverAbove(fs: Storage, have: seq<bool>, file: nat)
    requires fs.Valid() && |have| == fs.NumPieces() && file < |fs.sizes|
    ensures Done(fs, have, file, |have|) <= fs.sizes[file]
    ensures (forall p: nat :: p < |have| ==> have[p]) ==> Done(fs, have, file, |have|) == fs.sizes[file]
  {
    SharesAddUp(fs, have, file, |have|);
    OffsetsMonotone(fs, file + 1, |fs.sizes|);
    if |have| > 0 {
      PieceRange(fs, |have| - 1);
    } else {
      DivRange(fs.Total() + fs.pieceLength - 1, fs.pieceLength);
    }
  }

  /** One more piece adds its share. */
  lemma {:induction false} OneMore(fs: Storage, have: seq<bool>, file: nat, n: nat, piece: nat)
    requires n <= |have| && file < |fs.sizes| && piece < |have| && !have[piece]
    ensures Done(fs, have[piece := true], file, n) == Done(fs, have, file, n) + if piece < n then Share(fs, piece, file) else 0
  {
    if n > 0 { OneMore(fs, have, file, n - 1, piece); }
  }

  /** A file that lacks a piece with a share in it is not complete. */
  lemma NotYet(fs: Storage, have: seq<bool>, file: nat, piece: nat)
    requires fs.Valid() && |have| == fs.NumPieces() && file < |fs.sizes| && piece < |have| && !have[piece]
    ensures Done(fs, have, file, |have|) + Share(fs, piece, file) <= fs.sizes[file]
  {
    OneMore(fs, have, file, |have|, piece);
    NeverAbove(fs, have[piece := true], file);
  }

  // ------------------------------------------------------------ completion alerts

  /** Whether completing a piece touches a file: the two have a byte in common, or the
      file is empty and lies inside the piece. */
  predicate Touches(fs: Storage, piece: nat, file: nat)
    requires file < |fs.sizes|
  {
    Share(fs, piece, file) > 0 || (fs.sizes[file] == 0 && fs.PieceStart(piece) < fs.Offset(file) < fs.PieceEnd(piece))
  }

  /** Whether completing a piece, after those in `have`, reports a file as completed. */
  predicate Reports(fs: Storage, have: seq<bool>, piece: nat, file: nat)
    requires file < |fs.sizes| == |fs.pads| && piece < |have|
  {
    && Touches(fs, piece, file) && !fs.pads[file]
    && Done(fs, have[piece := true], file, |have|) >= fs.sizes[file]
  }

  predicate Known(have: seq<bool>, order: seq<nat>) { forall k :: 0 <= k < |order| ==> order[k] < |have| }

  /** How often a file is reported while pieces are completed in the given order. */
  function Reported(fs: Storage, have: seq<bool>, order: seq<nat>, file: nat): nat
    requires file < |fs.sizes| == |fs.pads| && Known(have, order)
    decreases |order|
  {
    if order == [] then 0
    else (if Reports(fs, have, order[0], file) then 1 else 0) + Reported(fs, have[order[0] := true], order[1..], file)
  }

  function Finished(have: seq<bool>, order: seq<nat>): (done: seq<bool>)
    requires Known(have, order)
    ensures |done| == |have|
    decreases |order|
  {
    if order == [] then have else Finished(have[order[0] := true], order[1..])
  }

  predicate Complete(fs: Storage, have: seq<bool>, file: nat)
    requires file < |fs.sizes|
  {
    Done(fs, have, file, |have|) == fs.sizes[file]
  }

  predicate NewPieces(have: seq<bool>, order: seq<nat>) {
    && Known(have, order)
    && (forall k :: 0 <= k < |order| ==> !have[order[k]])
    && (forall j, k :: 0 <= j < k < |order| ==> order[j] != order[k])
  }

  lemma RestNew(have: seq<bool>, order: seq<nat>)
    requires NewPieces(have, order) && order != []
    ensures NewPieces(have[order[0] := true], order[1..])
  {}

  /** A file that is not padding and not empty is reported once if the pieces complete it,
      and not at all if they do not or if it was complete before, in whatever order. */
  lemma {:induction false} ReportedOnce(fs: Storage, have: seq<bool>, order: seq<nat>, file: nat)
    requires fs.Valid() && |have| == fs.NumPieces() && NewPieces(have, order)
    requires file < |fs.sizes| && fs.sizes[file] > 0 && !fs.pads[file]
    ensures Reported(fs, have, order, file) == if Complete(fs, Finished(have, order), file) && !Complete(fs, have, file) then 1 else 0
    ensures Complete(fs, have, file) ==> Complete(fs, Finished(have, order), file)
    decreases |order|
  {
    hide Share;
    if order != [] {
      var next := have[order[0] := true];
      RestNew(have, order);
      ReportedOnce(fs, next, order[1..], file);
      OneMore(fs, have, file, |have|, order[0]);
      NotYet(fs, have, file, order[0]);
      NeverAbove(fs, have, file);
    }
  }

  /** The completed pieces do not depend on the order. */
  lemma {:induction false} FinishedHas(have: seq<bool>, order: seq<nat>, piece: nat)
    requires Known(have, order) && piece < |have|
    ensures Finished(have, order)[piece] <==> have[piece] || piece in order
    decreases |order|
  {
    if order != [] {
      FinishedHas(have[order[0] := true], order[1..], piece);
      assert order == [order[0]] + order[1..];
    }
  }

  /** A download from nothing to all: every file ends up complete, and each that is not
      empty or padding has been reported exactly once. */
  lemma WholeDownload(fs: Storage, have: seq<bool>, order: seq<nat>, file: nat)
    requires fs.Valid() && |have| == fs.NumPieces() && NewPieces(have, order) && file < |fs.sizes|
    requires forall p: nat :: p < |have| ==> !have[p] && p in order
    ensures Complete(fs, Finished(have, order), file)
    ensures fs.sizes[file] > 0 && !fs.pads[file] ==> Reported(fs, have, order, file) == 1
  {
    hide Reported, Done;
    forall p: nat | p < |have|
      ensures Finished(have, order)[p]
    {
      FinishedHas(have, order, p);
    }
    NeverAbove(fs, Finished(have, order), file);
    if fs.sizes[file] > 0 && !fs.pads[file] {
      ReportedOnce(fs, have, order, file);
      NothingYet(fs, have, file, |have|);
    }
  }

  lemma {:induction false} NothingYet(fs: Storage, have: seq<bool>, file: nat, n: nat)
    requires n <= |have| && file < |fs.sizes| && forall p: nat :: p < |have| ==> !have[p]
    ensures Done(fs, have, file, n) == 0
  {
    if n > 0 { NothingYet(fs, have, file, n - 1); }
  }

  /** An empty file that is not padding is reported once if it lies inside one of the
      pieces, and never if it lies between two pieces or at either end. */
  lemma {:induction false} EmptyReported(fs: Storage, have: seq<bool>, order: seq<nat>, file: nat)
    requires fs.Valid() && |have| == fs.NumPieces() && NewPieces(have, order)
    requires file < |fs.sizes| && fs.sizes[file] == 0 && !fs.pads[file]
    ensures Reported(fs, have, order, file) == if exists p :: p in order && Touches(fs, p, file) then 1 else 0
    decreases |order|
  {
    hide Reports, Touches, Done;
    if order != [] {
      var next := have[order[0] := true];
      RestNew(have, order);
      EmptyReported(fs, next, order[1..], file);
      EmptyReports(fs, have, order[0], file);
      assert order == [order[0]] + order[1..];
      forall p | p in order[1..]
        ensures !(Touches(fs, p, file) && Touches(fs, order[0], file))
      {
        TouchedOnce(fs, p, order[0], file);
      }
    }
  }

  lemma EmptyReports(fs: Storage, have: seq<bool>, piece: nat, file: nat)
    requires piece < |have| && file < |fs.sizes| == |fs.pads| && fs.sizes[file] == 0 && !fs.pads[file]
    ensures Reports(fs, have, piece, file) <==> Touches(fs, piece, file)
  {}

  lemma TouchedOnce(fs: Storage, p: nat, q: nat, file: nat)
    requires p != q && file < |fs.sizes| && fs.sizes[file] == 0
    ensures !(Touches(fs, p, file) && Touches(fs, q, file))
  {
    if p < q { MulMonotone(p + 1, q, fs.pieceLength); } else { MulMonotone(q + 1, p, fs.pieceLength); }
    assert (p + 1) * fs.pieceLength == p * fs.pieceLength + fs.pieceLength;
    assert (q + 1) * fs.pieceLength == q * fs.pieceLength + fs.pieceLength;
  }

  lemma InsidePiece(fs: Storage, p: nat, off: nat, q: nat, r: nat)
    requires fs.Valid() && off == q * fs.pieceLength + r && r < fs.pieceLength
    ensures fs.PieceStart(p) < off < fs.PieceEnd(p) <==> p == q && r != 0 && off < fs.Total()
  {
    var n := fs.pieceLength;
    assert (p + 1) * n == p * n + n && (q + 1) * n == q * n + n;
    if p < q { MulMonotone(p + 1, q, n); }
    if q < p { MulMonotone(q + 1, p, n); }
  }

  lemma LastPiece(fs: Storage, q: nat)
    requires fs.Valid() && q * fs.pieceLength < fs.Total()
    ensures q < fs.NumPieces()
  {
    DivRange(fs.Total() + fs.pieceLength - 1, fs.pieceLength);
    if fs.NumPieces() <= q { MulMonotone(fs.NumPieces(), q, fs.pieceLength); }
  }

  /** Which empty files are reported at all: those that begin `r` bytes into a piece, with
      `r` not zero, and not at the end of all files. */
  lemma EmptyInside(fs: Storage, file: nat, q: nat, r: nat)
    requires fs.Valid() && file < |fs.sizes| && fs.sizes[file] == 0
    requires fs.Offset(file) == q * fs.pieceLength + r && r < fs.pieceLength
    ensures (exists p: nat :: p < fs.NumPieces() && Touches(fs, p, file)) <==> r != 0 && fs.Offset(file) < fs.Total()
  {
    var off := fs.Offset(file);
    if p: nat :| p < fs.NumPieces() && Touches(fs, p, file) {
      EmptyTouches(fs, p, file);
      InsidePiece(fs, p, off, q, r);
    }
    if r != 0 && off < fs.Total() {
      EmptyTouches(fs, q, file);
      InsidePiece(fs, q, off, q, r);
      LastPiece(fs, q);
    }
  }

  lemma EmptyTouches(fs: Storage, p: nat, file: nat)
    requires file < |fs.sizes| && fs.sizes[file] == 0
    ensures Touches(fs, p, file) <==> fs.PieceStart(p) < fs.Offset(file) < fs.PieceEnd(p)
  {}
}
