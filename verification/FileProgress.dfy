/** file_progress.cpp: how much of each file has been downloaded. */
module FileProgresses {
  import opened FileLayout

  /** The bytes of a file that lie before `at` in the range that begins at `start`. */
  function Before(fs: Storage, start: nat, at: nat, file: nat): nat
    requires file < |fs.sizes|
  {
    Overlap(start, at, fs.Offset(file), fs.Offset(file + 1))
  }

  /** Going on by what is left of a file adds to that file only. */
  lemma OnByOneFile(fs: Storage, start: nat, at: nat, add: nat, index: nat, file: nat)
    requires index < |fs.sizes| && file < |fs.sizes|
    requires start <= at && fs.Offset(index) <= at && at + add <= fs.Offset(index + 1)
    ensures Before(fs, start, at + add, file) == Before(fs, start, at, file) + if file == index then add else 0
  {
    if file < index { OffsetsMonotone(fs, file + 1, index); }
    if file > index { OffsetsMonotone(fs, index + 1, file); }
  }

  lemma NotAtEnd(fs: Storage, index: nat, at: nat)
    requires index <= |fs.sizes| && fs.Offset(index) <= at < fs.Total()
    ensures index < |fs.sizes|
  {}

  /** The progress vector agrees with the completed pieces. */
  ghost predicate Exact(fs: Storage, have: seq<bool>, progress: seq<nat>) {
    |progress| == |fs.sizes| && forall f: nat :: f < |progress| ==> progress[f] == Done(fs, have, f, |have|)
  }

  /** The progress vector agrees with the completed pieces among the first `n`. */
  ghost predicate ExactUpTo(fs: Storage, have: seq<bool>, progress: seq<nat>, n: nat) {
    |progress| == |fs.sizes| && n <= |have| && forall f: nat :: f < |progress| ==> progress[f] == Done(fs, have, f, n)
  }

  lemma NothingDone(fs: Storage, have: seq<bool>, progress: seq<nat>)
    requires |progress| == |fs.sizes| && forall f :: 0 <= f < |progress| ==> progress[f] == 0
    ensures ExactUpTo(fs, have, progress, 0)
  {}

  lemma MoreDone(fs: Storage, have: seq<bool>, before: seq<nat>, after: seq<nat>, piece: nat)
    requires ExactUpTo(fs, have, before, piece) && piece < |have| && |after| == |before|
    requires forall f: nat :: f < |fs.sizes| ==> after[f] == before[f] + if have[piece] then Share(fs, piece, f) else 0
    ensures ExactUpTo(fs, have, after, piece + 1)
  {
    hide Share;
  }

  lemma AllDone(fs: Storage, have: seq<bool>, progress: seq<nat>)
    requires ExactUpTo(fs, have, progress, |have|)
    ensures Exact(fs, have, progress)
  {}

  lemma FirstOffset(fs: Storage)
    ensures fs.Offset(0) == 0
  {}

  lemma PieceEnds(fs: Storage, piece: nat)
    ensures fs.PieceEnd(piece) <= fs.PieceStart(piece) + fs.pieceLength
  {}

  /** file_storage::file_index_at_offset: the upper bound of the offset, less one. */
  method FileIndexAtOffset(fs: Storage, offset: nat) returns (index: nat)
    requires fs.Valid() && offset < fs.Total()
    ensures index < |fs.sizes| && fs.Offset(index) <= offset < fs.Offset(index + 1)
  {
    var lo, hi := 0, |fs.sizes|;
    while hi - lo > 1
      invariant 0 <= lo < hi <= |fs.sizes| && fs.Offset(lo) <= offset < fs.Offset(hi)
    {
      var mid := (lo + hi) / 2;
      if fs.Offset(mid) <= offset { lo := mid; } else { hi := mid; }
    }
    return lo;
  }

  /** file_storage::piece_size. */
  function PieceSize(fs: Storage, index: nat): int
    requires fs.Valid()
  {
    if index == fs.NumPieces() - 1 then fs.Total() - (fs.NumPieces() - 1) * fs.pieceLength else fs.pieceLength
  }

  /** The files from `first` on up to `end` that an update reports. */
  function Completed(fs: Storage, before: seq<nat>, piece: nat, first: nat, end: nat): seq<nat>
    requires |before| == |fs.sizes| == |fs.pads| && end <= |fs.sizes|
    decreases end
  {
    if end <= first then [] else
      Completed(fs, before, piece, first, end - 1) +
      if before[end - 1] + Share(fs, piece, end - 1) >= fs.sizes[end - 1] && !fs.pads[end - 1] then [end - 1] else []
  }

  /** The files reported, each once. */
  ghost predicate IsReport(fs: Storage, have: seq<bool>, piece: nat, posted: seq<nat>) {
    && |fs.sizes| == |fs.pads| && piece < |have|
    && (forall f: nat :: f in posted <==> f < |fs.sizes| && Reports(fs, have, piece, f))
    && (forall j, k :: 0 <= j < k < |posted| ==> posted[j] < posted[k])
  }

  ghost predicate Partly(fs: Storage, before: seq<nat>, now: seq<nat>, start: nat, at: nat) {
    |before| == |now| == |fs.sizes| && forall f: nat :: f < |now| ==> now[f] == before[f] + Before(fs, start, at, f)
  }

  /** Where the loop of Update stands: all of the files before `index` is behind it. */
  ghost predicate Placed(fs: Storage, start: nat, first: nat, index: nat, at: nat, size: int) {
    && first <= index <= |fs.sizes| && first < |fs.sizes|
    && fs.Offset(first) <= start < fs.Offset(first + 1)
    && if index == first then at == start && size > 0
       else at <= fs.Offset(index) && if size > 0 then at == fs.Offset(index) else fs.Offset(index - 1) < at
  }

  lemma InBounds(fs: Storage, start: nat, first: nat, index: nat, at: nat, size: int)
    requires Placed(fs, start, first, index, at, size) && size > 0 && at + size <= fs.Total()
    ensures index < |fs.sizes| && fs.Offset(index) <= at <= fs.Offset(index + 1) == fs.Offset(index) + fs.sizes[index]
  {
    NotAtEnd(fs, index, at);
    OffsetNext(fs, index);
    hide fs.Offset;
  }

  lemma PlacedNext(fs: Storage, start: nat, first: nat, index: nat, at: nat, size: int, add: nat)
    requires Placed(fs, start, first, index, at, size) && size > 0 && at + size <= fs.Total()
    requires index < |fs.sizes| && fs.Offset(index) <= at && add == Min(fs.sizes[index] - (at - fs.Offset(index)), size)
    ensures Placed(fs, start, first, index + 1, at + add, size - add)
  {
    OffsetNext(fs, index);
    hide fs.Offset;
  }

  /** A round of the loop adds all that the piece has of a file. */
  lemma AllOfFile(fs: Storage, piece: nat, index: nat, at: nat, size: nat, add: nat)
    requires index < |fs.sizes| && fs.Offset(index) <= at && fs.PieceStart(piece) <= at && at + size == fs.PieceEnd(piece)
    requires add == Min(fs.sizes[index] - (at - fs.Offset(index)), size) && at <= fs.Offset(index + 1)
    ensures Before(fs, fs.PieceStart(piece), at + add, index) == Share(fs, piece, index)
  {}

  lemma PartlyMore(fs: Storage, before: seq<nat>, middle: seq<nat>, start: nat, at: nat, add: nat, index: nat)
    requires Partly(fs, before, middle, start, at) && index < |fs.sizes|
    requires start <= at && fs.Offset(index) <= at && at + add <= fs.Offset(index + 1)
    ensures Partly(fs, before, middle[index := middle[index] + add], start, at + add)
  {
    forall f: nat | f < |fs.sizes|
      ensures Before(fs, start, at + add, f) == Before(fs, start, at, f) + if f == index then add else 0
    {
      OnByOneFile(fs, start, at, add, index, f);
    }
    hide Before;
  }

  lemma PartlyNone(fs: Storage, before: seq<nat>, start: nat)
    requires |before| == |fs.sizes|
    ensures Partly(fs, before, before, start, start)
  {}

  lemma PartlyShare(fs: Storage, before: seq<nat>, now: seq<nat>, piece: nat)
    requires Partly(fs, before, now, fs.PieceStart(piece), fs.PieceEnd(piece))
    ensures forall f: nat :: f < |fs.sizes| ==> now[f] == before[f] + Share(fs, piece, f)
  {}

  lemma OffsetNext(fs: Storage, index: nat)
    requires index < |fs.sizes|
    ensures fs.Offset(index + 1) == fs.Offset(index) + fs.sizes[index]
  {}

  lemma PartlyAll(fs: Storage, have: seq<bool>, before: seq<nat>, now: seq<nat>, piece: nat)
    requires piece < |have| && !have[piece] && Exact(fs, have, before)
    requires Partly(fs, before, now, fs.PieceStart(piece), fs.PieceEnd(piece))
    ensures Exact(fs, have[piece := true], now)
  {
    forall f: nat | f < |now|
      ensures now[f] == Done(fs, have[piece := true], f, |have|)
    {
      OneMore(fs, have, f, |have|, piece);
    }
  }

  lemma TouchedByLoop(fs: Storage, piece: nat, first: nat, end: nat, f: nat)
    requires fs.PieceStart(piece) < fs.PieceEnd(piece)
    requires Placed(fs, fs.PieceStart(piece), first, end, fs.PieceEnd(piece), 0) && f < |fs.sizes|
    ensures Touches(fs, piece, f) <==> first <= f < end
  {
    hide fs.PieceStart, fs.PieceEnd;
    if f < first {
      OffsetsMonotone(fs, f + 1, first);
      assert fs.Offset(f + 1) <= fs.PieceStart(piece);
    } else if f < end {
      if f > first { OffsetsMonotone(fs, first + 1, f); }
      OffsetsMonotone(fs, f, end - 1);
      assert fs.PieceStart(piece) < fs.Offset(f + 1) && fs.Offset(f) < fs.PieceEnd(piece);
      assert fs.Offset(f + 1) == fs.Offset(f) + fs.sizes[f];
    } else {
      OffsetsMonotone(fs, end, f);
      assert fs.PieceEnd(piece) <= fs.Offset(f);
    }
  }

  lemma {:induction false} CompletedOnce(fs: Storage, before: seq<nat>, piece: nat, first: nat, end: nat)
    requires |before| == |fs.sizes| == |fs.pads| && first <= end <= |fs.sizes|
    ensures var posted := Completed(fs, before, piece, first, end);
      && (forall f: nat :: f in posted <==> first <= f < end && before[f] + Share(fs, piece, f) >= fs.sizes[f] && !fs.pads[f])
      && (forall j, k :: 0 <= j < k < |posted| ==> posted[j] < posted[k])
    decreases end
  {
    hide Share;
    if end > first {
      CompletedOnce(fs, before, piece, first, end - 1);
      var posted := Completed(fs, before, piece, first, end - 1);
      assert forall k :: 0 <= k < |posted| ==> posted[k] in posted;
    }
  }

  lemma CompletedReports(fs: Storage, have: seq<bool>, before: seq<nat>, piece: nat, first: nat, end: nat)
    requires fs.Valid() && piece < |have| && !have[piece] && Exact(fs, have, before)
    requires fs.PieceStart(piece) < fs.PieceEnd(piece)
    requires Placed(fs, fs.PieceStart(piece), first, end, fs.PieceEnd(piece), 0)
    ensures IsReport(fs, have, piece, Completed(fs, before, piece, first, end))
  {
    CompletedOnce(fs, before, piece, first, end);
    forall f: nat | f < |fs.sizes|
      ensures Reports(fs, have, piece, f) <==> first <= f < end && !fs.pads[f] && before[f] + Share(fs, piece, f) >= fs.sizes[f]
    {
      TouchedByLoop(fs, piece, first, end, f);
      OneMore(fs, have, f, |have|, piece);
    }
    hide Reports, Completed, Placed;
  }

  class FileProgress {
    var fileProgress: seq<nat>
    ghost var havePieces: seq<bool>

    ghost predicate Valid(fs: Storage)
      reads this
    {
      fs.Valid() && (fileProgress == [] || (|havePieces| == fs.NumPieces() && Exact(fs, havePieces, fileProgress)))
    }

    constructor ()
      ensures fileProgress == []
    {
      fileProgress := [];
      havePieces := [];
    }

    method Init(have: seq<bool>, fs: Storage)
      requires Valid(fs) && |have| == fs.NumPieces()
      modifies this
      ensures Valid(fs)
      ensures old(fileProgress) != [] ==> fileProgress == old(fileProgress) && havePieces == old(havePieces)
      ensures old(fileProgress) == [] ==> havePieces == have && Exact(fs, have, fileProgress)
    {
      hide Exact, fs.NumPieces, fs.Offset, Done, Share;
      if fileProgress != [] { return; }
      var numFiles := |fs.sizes|;
      fileProgress := seq(numFiles, _ => 0);
      havePieces := have;
      var off := 0;
      var fileIndex: nat := 0;
      NothingDone(fs, have, fileProgress);
      FirstOffset(fs);
      for piece := 0 to |have|
        invariant off == fs.PieceStart(piece)
        invariant fileIndex <= numFiles && fs.Offset(fileIndex) <= off
        invariant |fileProgress| == numFiles && havePieces == have
        invariant ExactUpTo(fs, have, fileProgress, piece)
      {
        PieceRange(fs, piece);
        fileIndex := Advance(fs, off, fileIndex);
        if have[piece] {
          ghost var before := fileProgress;
          fileIndex := Fill(fs, piece, fileIndex);
          MoreDone(fs, have, before, fileProgress, piece);
          PieceEnds(fs, piece);
        } else {
          MoreDone(fs, have, fileProgress, fileProgress, piece);
        }
        off := off + fs.pieceLength;
      }
      AllDone(fs, have, fileProgress);
    }

    /** Moves on to the file a piece begins in. */
    method Advance(fs: Storage, off: nat, first: nat) returns (fileIndex: nat)
      requires fs.Valid() && first <= |fs.sizes| && fs.Offset(first) <= off < fs.Total()
      ensures first <= fileIndex < |fs.sizes| && fs.Offset(fileIndex) <= off < fs.Offset(fileIndex + 1)
    {
      fileIndex := first;
      NotAtEnd(fs, fileIndex, off);
      var fileOffset := off - fs.Offset(fileIndex);
      while fileOffset >= fs.sizes[fileIndex]
        invariant first <= fileIndex < |fs.sizes| && fs.Offset(fileIndex) <= off && fileOffset == off - fs.Offset(fileIndex)
        decreases |fs.sizes| - fileIndex
      {
        NotAtEnd(fs, fileIndex + 1, off);
        fileIndex := fileIndex + 1;
        fileOffset := off - fs.Offset(fileIndex);
      }
    }

    /** The inner loop of Init. */
    method Fill(fs: Storage, piece: nat, first: nat) returns (fileIndex: nat)
      requires fs.Valid() && piece < fs.NumPieces() && |fileProgress| == |fs.sizes|
      requires first < |fs.sizes| && fs.Offset(first) <= fs.PieceStart(piece) < fs.Offset(first + 1)
      modifies this`fileProgress
      ensures first <= fileIndex < |fs.sizes| && fs.Offset(fileIndex) <= fs.PieceEnd(piece)
      ensures |fileProgress| == |fs.sizes|
      ensures forall f: nat :: f < |fs.sizes| ==> fileProgress[f] == old(fileProgress)[f] + Share(fs, piece, f)
    {
      hide fs.Offset, fs.NumPieces, Before, Share, Partly;
      fileIndex := first;
      PieceRange(fs, piece);
      var fileOffset := fs.PieceStart(piece) - fs.Offset(fileIndex);
      var size := Min(fs.pieceLength, fs.Total() - fs.PieceStart(piece));
      ghost var at := fs.PieceStart(piece);
      PartlyNone(fs, fileProgress, at);
      OffsetNext(fs, fileIndex);
      while size > 0
        invariant 0 <= size && at + size == fs.PieceEnd(piece) && fs.PieceStart(piece) <= at
        invariant first <= fileIndex < |fs.sizes| && fs.Offset(fileIndex) <= at <= fs.Offset(fileIndex + 1)
        invariant size > 0 ==> fileOffset == at - fs.Offset(fileIndex)
        invariant |fileProgress| == |fs.sizes| && Partly(fs, old(fileProgress), fileProgress, fs.PieceStart(piece), at)
        decreases size, |fs.sizes| - fileIndex
      {
        OffsetNext(fs, fileIndex);
        var add := Min(size, fs.sizes[fileIndex] - fileOffset);
        PartlyMore(fs, old(fileProgress), fileProgress, fs.PieceStart(piece), at, add, fileIndex);
        fileProgress := fileProgress[fileIndex := fileProgress[fileIndex] + add];
        size := size - add;
        at := at + add;
        if size > 0 {
          NotAtEnd(fs, fileIndex + 1, at);
          fileIndex := fileIndex + 1;
          OffsetNext(fs, fileIndex);
          fileOffset := 0;
        }
      }
      PartlyShare(fs, old(fileProgress), fileProgress, piece);
    }

    /** Accounts for a piece that has just been completed; `posted` are the files an alert
        is posted for, if anyone listens. */
    method Update(fs: Storage, index: nat, alerts: bool) returns (posted: seq<nat>)
      requires Valid(fs) && index < fs.NumPieces()
      requires fileProgress != [] ==> !havePieces[index]
      modifies this
      ensures Valid(fs)
      ensures fileProgress == [] <==> old(fileProgress) == []
      ensures old(fileProgress) != [] ==> havePieces == old(havePieces)[index := true] && Exact(fs, havePieces, fileProgress)
      ensures old(fileProgress) != [] && alerts ==> IsReport(fs, old(havePieces), index, posted)
      ensures old(fileProgress) == [] || !alerts ==> posted == []
    {
      hide fs.NumPieces, fs.Offset, Done, Share, Reports, Before, IsReport, Exact, Partly;
      posted := [];
      if fileProgress == [] { return; }
      ghost var before := fileProgress;
      ghost var have := havePieces;
      SizeOfPiece(fs, index);
      var off := fs.PieceStart(index);
      var fileIndex: nat := FileIndexAtOffset(fs, off);
      ghost var first: nat := fileIndex;
      var size := PieceSize(fs, index);
      ExactLength(fs, have, before);
      PartlyNone(fs, before, off);
      while size > 0
        invariant 0 <= size && off + size == fs.PieceEnd(index) <= fs.Total() && fs.PieceStart(index) <= off
        invariant Placed(fs, fs.PieceStart(index), first, fileIndex, off, size)
        invariant |fileProgress| == |before| && Partly(fs, before, fileProgress, fs.PieceStart(index), off)
        invariant posted == if alerts then Completed(fs, before, index, first, fileIndex) else []
        invariant havePieces == have
        decreases size, |fs.sizes| - fileIndex
      {
        InBounds(fs, fs.PieceStart(index), first, fileIndex, off, size);
        var fileOffset := off - fs.Offset(fileIndex);
        var add := Min(fs.sizes[fileIndex] - fileOffset, size);
        PartlyMore(fs, before, fileProgress, fs.PieceStart(index), off, add, fileIndex);
        fileProgress := fileProgress[fileIndex := fileProgress[fileIndex] + add];
        AllOfFile(fs, index, fileIndex, off, size, add);
        PartlyAt(fs, before, fileProgress, fs.PieceStart(index), off + add, fileIndex);
        if fileProgress[fileIndex] >= fs.sizes[fileIndex] && alerts {
          if !fs.pads[fileIndex] {
            posted := posted + [fileIndex];
          }
        }
        PlacedNext(fs, fs.PieceStart(index), first, fileIndex, off, size, add);
        size := size - add;
        off := off + add;
        fileIndex := fileIndex + 1;
      }
      havePieces := have[index := true];
      PartlyAll(fs, have, before, fileProgress, index);
      CompletedReports(fs, have, before, index, first, fileIndex);
    }
  }

  lemma ExactLength(fs: Storage, have: seq<bool>, progress: seq<nat>)
    requires Exact(fs, have, progress)
    ensures |progress| == |fs.sizes|
  {}

  lemma PartlyAt(fs: Storage, before: seq<nat>, now: seq<nat>, start: nat, at: nat, f: nat)
    requires Partly(fs, before, now, start, at) && f < |fs.sizes|
    ensures now[f] == before[f] + Before(fs, start, at, f)
  {}

  lemma SizeOfPiece(fs: Storage, index: nat)
    requires fs.Valid() && index < fs.NumPieces()
    ensures fs.PieceStart(index) < fs.PieceEnd(index) <= fs.Total()
    ensures PieceSize(fs, index) == fs.PieceEnd(index) - fs.PieceStart(index)
  {
    PieceRange(fs, index);
    if index < fs.NumPieces() - 1 { assert (index + 1) * fs.pieceLength == index * fs.pieceLength + fs.pieceLength; }
  }
}
