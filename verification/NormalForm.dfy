/**
 * What the segment stack of LocalLinkGraph.php leaves behind: exactly when a normalised path is a fixed point
 * of normalisation, and when it is free of dot segments.
 */
module NormalForm {
  import opened Prelude
  import opened UrlPath

  /** The segment stack without its decoding. */
  function Surviving(stack: seq<string>, segments: seq<string>): seq<string>
    decreases |segments|
  {
    if segments == [] then stack
    else if segments[0] == "" || segments[0] == "." then Surviving(stack, segments[1..])
    else if segments[0] == ".." then Surviving(Pop(stack), segments[1..])
    else Surviving(stack + [segments[0]], segments[1..])
  }

  function Decoded(survivors: seq<string>): seq<string> {
    Mapped(survivors, Decode)
  }

  /** The segments a decoded survivor becomes: an escaped slash makes several of one. */
  function PiecesOf(survivor: string): seq<string> {
    Split(Decode(survivor))
  }

  function Pieces(survivors: seq<string>): seq<string> {
    Flattened(survivors, PiecesOf)
  }

  /** The segments of the normalised path, from its spelling alone. */
  function ResultPieces(path: string): seq<string> {
    Pieces(Surviving([], Split(path)))
  }

  predicate NoneEmpty(survivors: seq<string>) {
    "" !in survivors
  }

  lemma {:induction false} ResolveIsDecoded(stack: seq<string>, segments: seq<string>)
    requires NoneEmpty(stack)
    ensures Resolve(Decoded(stack), segments) == Decoded(Surviving(stack, segments))
            && NoneEmpty(Surviving(stack, segments))
    decreases |segments|
  {
    if segments != [] {
      var first := segments[0];
      if first == "" || first == "." {
        ResolveIsDecoded(stack, segments[1..]);
      } else if first == ".." {
        assert Decoded(Pop(stack)) == Pop(Decoded(stack));
        ResolveIsDecoded(Pop(stack), segments[1..]);
      } else {
        assert Decoded(stack + [first]) == Decoded(stack) + [Decode(first)];
        ResolveIsDecoded(stack + [first], segments[1..]);
      }
    }
  }

  lemma NormalizedIsDecoded(path: string)
    ensures NormalizedPath(path) == Rendered(Decoded(Surviving([], Split(path))))
            && NoneEmpty(Surviving([], Split(path)))
  {
    LeadingSlashes(path);
    assert Decoded([]) == [];
    ResolveIsDecoded([], Split(path));
  }

  lemma PathOfPieces(decoded: string)
    ensures Path(Split(decoded)) == "/" + decoded
  {
    PathOfSplit("", decoded);
    assert "/" + "" + decoded == "/" + decoded;
  }

  /** Joining the decoded survivors and joining their pieces gives the same path. */
  lemma {:induction false} SamePath(survivors: seq<string>)
    ensures Path(Decoded(survivors)) == Path(Pieces(survivors))
  {
    if survivors != [] {
      var before, last := survivors[..|survivors| - 1], survivors[|survivors| - 1];
      SamePath(before);
      PathOfPieces(Decode(last));
      PathOfOne(Decode(last));
      PathConcat(Decoded(before), [Decode(last)]);
      PathConcat(Pieces(before), PiecesOf(last));
      assert Decoded(survivors) == Decoded(before) + [Decode(last)];
    }
  }

  lemma {:induction false} PiecesHaveNoSlash(survivors: seq<string>)
    ensures NoSlashes(Pieces(survivors)) && (Pieces(survivors) == [] <==> survivors == [])
  {
    if survivors != [] {
      PiecesHaveNoSlash(survivors[..|survivors| - 1]);
      SplitPieces("", Decode(survivors[|survivors| - 1]));
    }
  }

  /** A path made of nothing but one empty segment is not made of survivors. */
  lemma NotOneEmptyPiece(survivors: seq<string>)
    requires NoneEmpty(survivors)
    ensures Pieces(survivors) != [""]
  {
    if survivors != [] {
      var first := survivors[0];
      assert first in survivors;
      DecodeShortens(first);
      SamePath(survivors);
      PathShape(Decoded(survivors));
      assert Decoded(survivors)[0] == Decode(first);
      assert |Path(Decoded(survivors))| >= 2;
      PathOfOne("");
    }
  }

  lemma ResultIsPieces(path: string)
    ensures var pieces := ResultPieces(path);
            && NormalizedPath(path) == (if pieces == [] then "/" else Path(pieces))
            && NoSlashes(pieces) && pieces != [""]
  {
    var survivors := Surviving([], Split(path));
    NormalizedIsDecoded(path);
    SamePath(survivors);
    PiecesHaveNoSlash(survivors);
    NotOneEmptyPiece(survivors);
  }

  /** A normalised path is a fixed point of normalisation exactly when every piece of the decoded survivors is
      stable: not empty, no dot segment, nothing left to decode. */
  lemma ResultIsFixed(path: string)
    ensures var once := NormalizedPath(path);
            NormalizedPath(once) == once <==> AllStable(ResultPieces(path))
  {
    var pieces := ResultPieces(path);
    ResultIsPieces(path);
    if pieces == [] {
      PathOfOne("");
      FixedPoints([""]);
    } else {
      FixedPoints(pieces);
    }
  }

  predicate IsDot(segment: string) {
    segment == "." || segment == ".."
  }

  predicate IsDotFree(segments: seq<string>) {
    forall n :: 0 <= n < |segments| ==> !IsDot(segments[n])
  }

  /** A normalised path has no dot segment exactly when no piece of the decoded survivors is one. */
  lemma ResultIsDotFree(path: string)
    ensures IsDotFree(Split(NormalizedPath(path))) <==> IsDotFree(ResultPieces(path))
  {
    var pieces := ResultPieces(path);
    ResultIsPieces(path);
    if pieces == [] {
      PathOfOne("");
      SplitPath([""]);
      assert IsDotFree([""] + [""]);
    } else {
      SplitPath(pieces);
      var all := [""] + pieces;
      assert forall n :: 0 <= n < |pieces| ==> all[n + 1] == pieces[n];
      assert forall n :: 1 <= n < |all| ==> all[n] == pieces[n - 1];
    }
  }
}
