/** The piece-table byte buffer of src/tree_engine/core/buffer.py: an edit splits at most the two
    pieces at its ends and appends the replacement to an append-only store. The buffer is proved
    to behave as a byte splice of its contents. */
module SourceBuffer {
  import opened SeqLaws
  import opened Wrappers

  type Byte = b: nat | b < 256

  datatype Origin = Original | Added

  /** A run of bytes of one of the two stores. */
  datatype Piece = Piece(origin: Origin, start: nat, length: nat)

  datatype EditError = InvalidRange(start: int, end: int, length: nat)

  /** Replacing `s[start..end]` by `r`. */
  function Splice<T>(s: seq<T>, start: nat, end: nat, r: seq<T>): (t: seq<T>)
    requires start <= end <= |s|
    ensures |t| == |s| - (end - start) + |r|
  {
    s[..start] + r + s[end..]
  }

  // ----- the bytes a list of pieces stands for ---------------------------------------------

  function Store(o: Origin, source: seq<Byte>, added: seq<Byte>): seq<Byte> {
    if o.Original? then source else added
  }

  /** No piece is empty and each lies inside its store. */
  predicate PieceOk(p: Piece, source: seq<Byte>, added: seq<Byte>) {
    p.length > 0 && p.start + p.length <= |Store(p.origin, source, added)|
  }

  predicate PiecesOk(ps: seq<Piece>, source: seq<Byte>, added: seq<Byte>) {
    forall p <- ps :: PieceOk(p, source, added)
  }

  function Chunk(p: Piece, source: seq<Byte>, added: seq<Byte>): (bytes: seq<Byte>)
    requires PieceOk(p, source, added)
    ensures |bytes| == p.length
  {
    Store(p.origin, source, added)[p.start..p.start + p.length]
  }

  function Render(ps: seq<Piece>, source: seq<Byte>, added: seq<Byte>): seq<Byte>
    requires PiecesOk(ps, source, added)
  {
    if ps == [] then [] else Chunk(ps[0], source, added) + Render(ps[1..], source, added)
  }

  lemma {:induction false} RenderConcat(a: seq<Piece>, b: seq<Piece>, source: seq<Byte>, added: seq<Byte>)
    requires PiecesOk(a, source, added) && PiecesOk(b, source, added)
    ensures PiecesOk(a + b, source, added)
    ensures Render(a + b, source, added) == Render(a, source, added) + Render(b, source, added)
  {
    if a == [] {
      assert a + b == b;
    } else {
      RenderConcat(a[1..], b, source, added);
      ConcatHead(a, b);
      Assoc(Chunk(a[0], source, added), Render(a[1..], source, added), Render(b, source, added));
    }
  }

  /** Appending to the added store leaves what the pieces stand for unchanged. */
  lemma {:induction false} RenderGrown(ps: seq<Piece>, source: seq<Byte>, added: seq<Byte>, more: seq<Byte>)
    requires PiecesOk(ps, source, added)
    ensures PiecesOk(ps, source, added + more)
    ensures Render(ps, source, added + more) == Render(ps, source, added)
  {
    forall p | p in ps
      ensures PieceOk(p, source, added + more) && Chunk(p, source, added + more) == Chunk(p, source, added)
    {
      assert PieceOk(p, source, added);
    }
    if ps != [] {
      RenderGrown(ps[1..], source, added, more);
    }
  }

  lemma RenderOne(p: Piece, source: seq<Byte>, added: seq<Byte>)
    requires PieceOk(p, source, added)
    ensures Render([p], source, added) == Chunk(p, source, added)
  {
  }

  /** What survives of a piece before the edit, when the edit starts inside it. */
  function LeftPart(p: Piece, pieceStart: nat, start: nat): seq<Piece> {
    if pieceStart < start then [Piece(p.origin, p.start, start - pieceStart)] else []
  }

  /** What survives of a piece after the edit, when the edit ends inside it. */
  function RightPart(p: Piece, pieceStart: nat, end: nat): seq<Piece>
    requires pieceStart <= end
  {
    var pieceEnd := pieceStart + p.length;
    if pieceEnd > end then [Piece(p.origin, p.start + (end - pieceStart), pieceEnd - end)] else []
  }

  /** Where piece `k` starts in the document. */
  function Start(ps: seq<Piece>, k: nat): nat
    requires k <= |ps|
  {
    if k == 0 then 0 else Start(ps, k - 1) + ps[k - 1].length
  }

  lemma {:induction false} StartMonotone(ps: seq<Piece>, i: nat, j: nat)
    requires i <= j <= |ps|
    ensures Start(ps, i) <= Start(ps, j)
  {
    if i < j {
      StartMonotone(ps, i, j - 1);
    }
  }

  lemma {:induction false} StartIsRendered(ps: seq<Piece>, k: nat, source: seq<Byte>, added: seq<Byte>)
    requires k <= |ps| && PiecesOk(ps, source, added)
    ensures |Render(ps[..k], source, added)| == Start(ps, k)
    ensures Render(ps, source, added) == Render(ps[..k], source, added) + Render(ps[k..], source, added)
  {
    assert ps == ps[..k] + ps[k..];
    RenderConcat(ps[..k], ps[k..], source, added);
    if k > 0 {
      StartIsRendered(ps, k - 1, source, added);
      RenderSnoc(ps, k - 1, source, added);
    }
  }

  lemma LeftChunk(p: Piece, pieceStart: nat, start: nat, source: seq<Byte>, added: seq<Byte>)
    requires PieceOk(p, source, added) && pieceStart <= start < pieceStart + p.length
    ensures PiecesOk(LeftPart(p, pieceStart, start), source, added)
    ensures Render(LeftPart(p, pieceStart, start), source, added) == Chunk(p, source, added)[..start - pieceStart]
  {
    if pieceStart < start {
      RenderOne(Piece(p.origin, p.start, start - pieceStart), source, added);
      SliceTake(Store(p.origin, source, added), p.start, p.start + p.length, start - pieceStart);
    }
  }

  lemma RightChunk(p: Piece, pieceStart: nat, end: nat, source: seq<Byte>, added: seq<Byte>)
    requires PieceOk(p, source, added) && pieceStart < end <= pieceStart + p.length
    ensures PiecesOk(RightPart(p, pieceStart, end), source, added)
    ensures Render(RightPart(p, pieceStart, end), source, added) == Chunk(p, source, added)[end - pieceStart..]
  {
    var n := end - pieceStart;
    if n < p.length {
      RenderOne(Piece(p.origin, p.start + n, p.length - n), source, added);
      SliceDrop(Store(p.origin, source, added), p.start, p.start + p.length, n);
    }
  }

  /** The pieces before `lo` and the left part of piece `lo` are the bytes before the edit. */
  lemma LeftMeaning(ps: seq<Piece>, lo: nat, start: nat, source: seq<Byte>, added: seq<Byte>)
    requires lo < |ps| && PiecesOk(ps, source, added) && Start(ps, lo) <= start < Start(ps, lo + 1)
    ensures var left := LeftPart(ps[lo], Start(ps, lo), start);
            && PiecesOk(left, source, added) && start <= |Render(ps, source, added)|
            && Render(ps[..lo], source, added) + Render(left, source, added) == Render(ps, source, added)[..start]
  {
    StartIsRendered(ps, lo, source, added);
    RenderFrom(ps, lo, source, added);
    LeftChunk(ps[lo], Start(ps, lo), start, source, added);
    TakeInside(Render(ps[..lo], source, added), Chunk(ps[lo], source, added),
               Render(ps[lo + 1..], source, added), start);
  }

  lemma RenderFrom(ps: seq<Piece>, k: nat, source: seq<Byte>, added: seq<Byte>)
    requires k < |ps| && PiecesOk(ps, source, added)
    ensures Render(ps[k..], source, added) == Chunk(ps[k], source, added) + Render(ps[k + 1..], source, added)
  {
    assert ps[k..][1..] == ps[k + 1..];
  }

  lemma TakeInside<T>(a: seq<T>, b: seq<T>, c: seq<T>, start: nat)
    requires |a| <= start <= |a| + |b|
    ensures (a + (b + c))[..start] == a + b[..start - |a|]
  {
  }

  /** The right part of piece `k` and the pieces after it are the bytes after the edit. */
  lemma RightMeaning(ps: seq<Piece>, k: nat, end: nat, source: seq<Byte>, added: seq<Byte>)
    requires k < |ps| && PiecesOk(ps, source, added) && Start(ps, k) < end <= Start(ps, k + 1)
    ensures var right := RightPart(ps[k], Start(ps, k), end);
            && PiecesOk(right, source, added) && end <= |Render(ps, source, added)|
            && Render(right, source, added) + Render(ps[k + 1..], source, added) == Render(ps, source, added)[end..]
  {
    StartIsRendered(ps, k, source, added);
    StartIsRendered(ps, k + 1, source, added);
    RenderFrom(ps, k, source, added);
    RightChunk(ps[k], Start(ps, k), end, source, added);
    var a, b, c := Render(ps[..k], source, added), Chunk(ps[k], source, added), Render(ps[k + 1..], source, added);
    DropInside(a, b, c, end);
    assert Render(ps, source, added) == a + (b + c);
  }

  lemma DropInside<T>(a: seq<T>, b: seq<T>, c: seq<T>, end: nat)
    requires |a| <= end <= |a| + |b|
    ensures (a + (b + c))[end..] == b[end - |a|..] + c
  {
  }

  /** Pieces `lo..hi` are the ones that overlap `[start, end)`; when there are none, both ends
      lie on the boundary before piece `lo`. */
  predicate Located(ps: seq<Piece>, lo: nat, hi: nat, start: nat, end: nat) {
    && lo <= hi <= |ps| && start <= end
    && if lo == hi then Start(ps, lo) == start == end
       else Start(ps, lo) <= start < Start(ps, lo + 1) && Start(ps, hi - 1) < end <= Start(ps, hi)
  }

  function LeftOf(ps: seq<Piece>, lo: nat, hi: nat, start: nat): seq<Piece>
    requires lo <= hi <= |ps|
  {
    if lo == hi then [] else LeftPart(ps[lo], Start(ps, lo), start)
  }

  function RightOf(ps: seq<Piece>, lo: nat, hi: nat, end: nat): seq<Piece>
    requires lo <= hi <= |ps| && (lo < hi ==> Start(ps, hi - 1) <= end)
  {
    if lo == hi then [] else RightPart(ps[hi - 1], Start(ps, hi - 1), end)
  }

  /** `lo..hi` are the overlapping pieces and no others. */
  lemma LocatedOverlaps(ps: seq<Piece>, lo: nat, hi: nat, start: nat, end: nat, k: nat)
    requires Located(ps, lo, hi, start, end) && k < |ps|
    ensures lo <= k < hi <==> Start(ps, k) < end && start < Start(ps, k + 1)
  {
    if k < lo {
      StartMonotone(ps, k + 1, lo);
    } else if k >= hi {
      StartMonotone(ps, hi, k);
    } else {
      StartMonotone(ps, k, hi - 1);
      StartMonotone(ps, lo + 1, k + 1);
    }
  }

  /** The piece for the replacement, which the edit appends to the added store. */
  function MiddleOf(replacement: seq<Byte>, added: seq<Byte>): seq<Piece> {
    if replacement == [] then [] else [Piece(Added, |added|, |replacement|)]
  }

  /** Both remainders and the replacement in place of the overlapping pieces; every other piece
      is the piece it was. */
  function Edited(ps: seq<Piece>, lo: nat, hi: nat, start: nat, end: nat, middle: seq<Piece>): seq<Piece>
    requires Located(ps, lo, hi, start, end)
  {
    ps[..lo] + (LeftOf(ps, lo, hi, start) + middle + RightOf(ps, lo, hi, end)) + ps[hi..]
  }

  lemma EditedCount(ps: seq<Piece>, lo: nat, hi: nat, start: nat, end: nat, middle: seq<Piece>)
    requires Located(ps, lo, hi, start, end) && |middle| <= 1
    ensures |Edited(ps, lo, hi, start, end, middle)| <= |ps| + 2
  {
  }

  /** The kept pieces and remainders are the bytes before and after the edit. */
  lemma KeptMeaning(ps: seq<Piece>, lo: nat, hi: nat, start: nat, end: nat, source: seq<Byte>, added: seq<Byte>)
    requires PiecesOk(ps, source, added) && Located(ps, lo, hi, start, end)
    ensures var doc, left, right := Render(ps, source, added), LeftOf(ps, lo, hi, start), RightOf(ps, lo, hi, end);
            && PiecesOk(left, source, added) && PiecesOk(right, source, added) && end <= |doc|
            && Render(ps[..lo], source, added) + Render(left, source, added) == doc[..start]
            && Render(right, source, added) + Render(ps[hi..], source, added) == doc[end..]
  {
    if lo == hi {
      StartIsRendered(ps, lo, source, added);
    } else {
      LeftMeaning(ps, lo, start, source, added);
      RightMeaning(ps, hi - 1, end, source, added);
    }
  }

  lemma RenderFive(a: seq<Piece>, left: seq<Piece>, middle: seq<Piece>, right: seq<Piece>, b: seq<Piece>,
                   source: seq<Byte>, added: seq<Byte>)
    requires PiecesOk(a, source, added) && PiecesOk(left, source, added) && PiecesOk(middle, source, added)
    requires PiecesOk(right, source, added) && PiecesOk(b, source, added)
    ensures PiecesOk(a + (left + middle + right) + b, source, added)
    ensures Render(a + (left + middle + right) + b, source, added)
         == (Render(a, source, added) + Render(left, source, added)) + Render(middle, source, added)
            + (Render(right, source, added) + Render(b, source, added))
  {
    RenderConcat(left, middle, source, added);
    RenderConcat(left + middle, right, source, added);
    RenderConcat(a, left + middle + right, source, added);
    RenderConcat(a + (left + middle + right), b, source, added);
    Regroup(Render(a, source, added), Render(left, source, added), Render(middle, source, added),
            Render(right, source, added), Render(b, source, added));
  }

  /** The edited pieces render to the splice of what the pieces rendered to before. */
  lemma SplicedPieces(ps: seq<Piece>, lo: nat, hi: nat, start: nat, end: nat, replacement: seq<Byte>,
                      source: seq<Byte>, added: seq<Byte>)
    requires PiecesOk(ps, source, added) && Located(ps, lo, hi, start, end)
    ensures var now := Edited(ps, lo, hi, start, end, MiddleOf(replacement, added));
            && PiecesOk(now, source, added + replacement) && end <= |Render(ps, source, added)|
            && Render(now, source, added + replacement) == Splice(Render(ps, source, added), start, end, replacement)
            && |Render(ps, source, added)| == Start(ps, |ps|)
            && |Render(now, source, added + replacement)| == Start(now, |now|)
  {
    var left, right := LeftOf(ps, lo, hi, start), RightOf(ps, lo, hi, end);
    var middle, grown := MiddleOf(replacement, added), added + replacement;
    KeptMeaning(ps, lo, hi, start, end, source, added);
    RenderGrown(ps[..lo], source, added, replacement);
    RenderGrown(left, source, added, replacement);
    RenderGrown(right, source, added, replacement);
    RenderGrown(ps[hi..], source, added, replacement);
    MiddleMeaning(replacement, source, added);
    RenderFive(ps[..lo], left, middle, right, ps[hi..], source, grown);
    TotalLength(ps, source, added);
    TotalLength(Edited(ps, lo, hi, start, end, middle), source, grown);
  }

  lemma RenderSnoc(ps: seq<Piece>, k: nat, source: seq<Byte>, added: seq<Byte>)
    requires k < |ps| && PiecesOk(ps, source, added)
    ensures Render(ps[..k + 1], source, added) == Render(ps[..k], source, added) + Chunk(ps[k], source, added)
  {
    assert ps[..k + 1] == ps[..k] + [ps[k]];
    RenderConcat(ps[..k], [ps[k]], source, added);
    RenderOne(ps[k], source, added);
  }

  lemma TotalLength(ps: seq<Piece>, source: seq<Byte>, added: seq<Byte>)
    requires PiecesOk(ps, source, added)
    ensures |Render(ps, source, added)| == Start(ps, |ps|)
  {
    StartIsRendered(ps, |ps|, source, added);
    assert ps[..|ps|] == ps;
  }

  lemma MiddleMeaning(replacement: seq<Byte>, source: seq<Byte>, added: seq<Byte>)
    ensures PiecesOk(MiddleOf(replacement, added), source, added + replacement)
    ensures Render(MiddleOf(replacement, added), source, added + replacement) == replacement
  {
    if replacement != [] {
      RenderOne(Piece(Added, |added|, |replacement|), source, added + replacement);
    }
  }

  lemma Regroup<T>(a: seq<T>, b: seq<T>, m: seq<T>, c: seq<T>, d: seq<T>)
    ensures a + (b + m + c) + d == (a + b) + m + (c + d)
  {
  }

  class SourceBuffer {
    const source: seq<Byte>
    var added: seq<Byte>
    var pieces: seq<Piece>
    var length: nat

    ghost predicate Valid()
      reads this
    {
      PiecesOk(pieces, source, added) && length == Start(pieces, |pieces|)
    }

    ghost function Contents(): (bytes: seq<Byte>)
      requires Valid()
      reads this
      ensures |bytes| == length
    {
      TotalLength(pieces, source, added);
      Render(pieces, source, added)
    }

    constructor (source: seq<Byte>)
      ensures Valid() && Contents() == source && this.source == source
    {
      this.source := source;
      added := [];
      pieces := if |source| > 0 then [Piece(Original, 0, |source|)] else [];
      length := |source|;
      new;
      if |source| > 0 {
        RenderOne(pieces[0], source, added);
      }
    }

    /** The scan over the pieces, with the remainders of the two boundary pieces. */
    method Locate(start: nat, end: nat) returns (lo: nat, hi: nat, left: seq<Piece>, right: seq<Piece>)
      requires Valid() && start <= end <= length
      ensures Located(pieces, lo, hi, start, end)
      ensures left == LeftOf(pieces, lo, hi, start) && right == RightOf(pieces, lo, hi, end)
    {
      var offset, i, found := 0, 0, false;
      lo, hi, left, right := 0, 0, [], [];
      while i < |pieces|
        invariant 0 <= i <= |pieces| && offset == Start(pieces, i)
        invariant !found ==> left == right == [] && offset <= start
        invariant found ==> lo < hi == i
        invariant found ==> Start(pieces, lo) <= start < Start(pieces, lo + 1)
        invariant found ==> start < offset && Start(pieces, hi - 1) < end
        invariant found ==> left == LeftPart(pieces[lo], Start(pieces, lo), start)
        invariant found ==> right == RightPart(pieces[hi - 1], Start(pieces, hi - 1), end)
      {
        var piece := pieces[i];
        var pieceStart, pieceEnd := offset, offset + piece.length;
        if pieceEnd <= start {
          offset, i := pieceEnd, i + 1;
          continue;
        }
        if pieceStart >= end {
          break;
        }
        if !found {
          found, lo := true, i;
        }
        hi := i + 1;
        if pieceStart < start {
          left := [Piece(piece.origin, piece.start, start - pieceStart)];
        }
        if pieceEnd > end {
          right := [Piece(piece.origin, piece.start + (end - pieceStart), pieceEnd - end)];
        }
        offset, i := pieceEnd, i + 1;
      }
      if !found {
        lo, hi := i, i;
      }
    }

    /** Replaces the bytes `[start, end)` by `replacement`, whatever earlier edits did. Only the
        pieces that overlap the range are replaced, by at most three; a range outside the
        buffer is refused and changes nothing. */
    method ApplyEdit(start: int, end: int, replacement: seq<Byte>) returns (r: Result<(), EditError>)
      requires Valid()
      modifies this
      ensures Valid()
      ensures r.Ok? <==> 0 <= start <= end <= |old(Contents())|
      ensures r.Err? ==> unchanged(this)
      ensures r.Ok? ==> Contents() == Splice(old(Contents()), start, end, replacement)
      ensures r.Ok? ==> exists lo: nat, hi: nat ::
                && Located(old(pieces), lo, hi, start, end)
                && pieces == Edited(old(pieces), lo, hi, start, end, MiddleOf(replacement, old(added)))
      ensures |pieces| <= |old(pieces)| + 2
    {
      if !(0 <= start <= end <= length) {
        return Err(InvalidRange(start, end, length));
      }
      var lo, hi, left, right := Locate(start, end);
      SplicedPieces(pieces, lo, hi, start, end, replacement, source, added);
      EditedCount(pieces, lo, hi, start, end, MiddleOf(replacement, added));
      var middle := MiddleOf(replacement, added);
      added := added + replacement;
      pieces := pieces[..lo] + (left + middle + right) + pieces[hi..];
      length := length - (end - start) + |replacement|;
      r := Ok(());
    }
  
    /** All chunks in order. */
    method Serialize() returns (bytes: seq<Byte>)
      requires Valid()
      ensures bytes == Contents()
    {
      bytes := [];
      var i := 0;
      while i < |pieces|
        invariant 0 <= i <= |pieces|
        invariant bytes == Render(pieces[..i], source, added)
      {
        RenderSnoc(pieces, i, source, added);
        bytes := bytes + Chunk(pieces[i], source, added);
        i := i + 1;
      }
      assert pieces[..|pieces|] == pieces;
    }
  }
}
