/**
 * The path arithmetic of LocalLinkGraph.php: the segment stack of normalizeUrl and the base path of a
 * relative target, compared with sections 5.2.3 and 5.2.4 of RFC 3986.
 */
module UrlPath {
  import opened Prelude

  // ---------- Segments ----------

  /** explode('/', s): every piece, empty ones included; `word` is the piece being read. */
  function SplitFrom(word: string, s: string): seq<string>
    decreases |s|
  {
    if s == "" then [word]
    else if s[0] == '/' then [word] + SplitFrom("", s[1..])
    else SplitFrom(word + [s[0]], s[1..])
  }

  function Split(s: string): seq<string> {
    SplitFrom("", s)
  }

  /** Every segment behind a slash. */
  function Path(segments: seq<string>): string {
    if segments == [] then "" else "/" + segments[0] + Path(segments[1..])
  }

  /** '/' followed by the segments joined with '/'. */
  function Rendered(segments: seq<string>): string {
    if segments == [] then "/" else Path(segments)
  }

  function HexValue(c: char): int {
    if '0' <= c <= '9' then c as int - '0' as int
    else if 'a' <= c <= 'f' then c as int - 'a' as int + 10
    else if 'A' <= c <= 'F' then c as int - 'A' as int + 10
    else -1
  }

  predicate IsEscape(s: string) {
    |s| >= 3 && s[0] == '%' && HexValue(s[1]) >= 0 && HexValue(s[2]) >= 0
  }

  /** rawurldecode, with bytes as characters. */
  function Decode(s: string): string {
    if s == "" then ""
    else if IsEscape(s) then [(16 * HexValue(s[1]) + HexValue(s[2])) as char] + Decode(s[3..])
    else [s[0]] + Decode(s[1..])
  }

  function Pop(stack: seq<string>): seq<string> {
    if stack == [] then [] else stack[..|stack| - 1]
  }

  /** What one segment does to the stack. */
  function Pushed(stack: seq<string>, segment: string): seq<string> {
    if segment == "" || segment == "." then stack
    else if segment == ".." then Pop(stack)
    else stack + [Decode(segment)]
  }

  function Resolve(stack: seq<string>, segments: seq<string>): seq<string>
    decreases |segments|
  {
    if segments == [] then stack else Resolve(Pushed(stack, segments[0]), segments[1..])
  }

  function DropLeadingSlashes(s: string): string {
    if s != "" && s[0] == '/' then DropLeadingSlashes(s[1..]) else s
  }

  /** The path part of normalizeUrl. */
  function NormalizedPath(path: string): string {
    Rendered(Resolve([], Split("/" + DropLeadingSlashes(path))))
  }

  method NormalizePath(path: string) returns (normalized: string)
    ensures normalized == NormalizedPath(path)
  {
    var pieces := Split("/" + DropLeadingSlashes(path));
    var segments: seq<string> := [];
    var n := 0;
    while n < |pieces|
      invariant 0 <= n <= |pieces|
      invariant Resolve([], pieces) == Resolve(segments, pieces[n..])
    {
      var segment := pieces[n];
      assert pieces[n..][0] == segment && pieces[n..][1..] == pieces[n + 1..];
      n := n + 1;
      if segment == "" || segment == "." {
        continue;
      }
      if segment == ".." {
        segments := Pop(segments);
        continue;
      }
      segments := segments + [Decode(segment)];
    }
    normalized := Rendered(segments);
  }

  // ---------- Splitting ----------

  predicate NoSlash(s: string) {
    forall i :: 0 <= i < |s| ==> s[i] != '/'
  }

  predicate NoSlashes(segments: seq<string>) {
    forall t :: t in segments ==> NoSlash(t)
  }

  lemma {:induction false} SplitPieces(word: string, s: string)
    requires NoSlash(word)
    ensures NoSlashes(SplitFrom(word, s)) && SplitFrom(word, s) != []
    decreases |s|
  {
    if s != "" {
      if s[0] == '/' {
        SplitPieces("", s[1..]);
      } else {
        SplitPieces(word + [s[0]], s[1..]);
      }
    }
  }

  lemma {:induction false} SplitAtSlash(word: string, a: string, b: string)
    ensures SplitFrom(word, a + "/" + b) == SplitFrom(word, a) + Split(b)
    decreases |a|
  {
    var s := a + "/" + b;
    if a == "" {
      assert s[0] == '/' && s[1..] == b;
    } else {
      assert s[0] == a[0] && s[1..] == a[1..] + "/" + b;
      if a[0] == '/' {
        SplitAtSlash("", a[1..], b);
        ConcatAssociates([word], SplitFrom("", a[1..]), Split(b));
      } else {
        SplitAtSlash(word + [a[0]], a[1..], b);
      }
    }
  }

  lemma {:induction false} SplitPlain(word: string, s: string)
    requires NoSlash(s)
    ensures SplitFrom(word, s) == [word + s]
    decreases |s|
  {
    if s == "" {
      assert word + s == word;
    } else {
      SplitPlain(word + [s[0]], s[1..]);
      assert word + [s[0]] + s[1..] == word + s;
    }
  }

  /** A path built from slash-free segments splits back into them, behind an empty piece. */
  lemma {:induction false} SplitPath(segments: seq<string>)
    requires NoSlashes(segments)
    ensures Split(Path(segments)) == [""] + segments
  {
    if segments != [] {
      var first, rest := segments[0], segments[1..];
      assert first in segments && forall t :: t in rest ==> t in segments;
      SplitPath(rest);
      SplitHead(first, Path(rest), rest);
      SplitBehindSlash(first + Path(rest));
      assert Path(segments) == "/" + (first + Path(rest));
      assert [first] + rest == segments;
    }
  }

  lemma SplitBehindSlash(s: string)
    ensures Split("/" + s) == [""] + Split(s)
  {
    assert ("/" + s)[0] == '/' && ("/" + s)[1..] == s;
  }

  lemma SplitHead(first: string, tail: string, rest: seq<string>)
    requires NoSlash(first) && Split(tail) == [""] + rest && tail == Path(rest)
    ensures Split(first + tail) == [first] + rest
  {
    if rest == [] {
      SplitPlain("", first);
      assert first + tail == first && "" + first == first;
    } else {
      var inner := rest[0] + Path(rest[1..]);
      assert tail == "/" + inner;
      SplitAtSlash("", first, inner);
      SplitAtSlash("", "", inner);
      assert "" + "/" + inner == tail && first + "/" + inner == first + tail;
      SplitPlain("", first);
      assert Split(tail) == [""] + Split(inner);
      assert Split(inner) == rest by {
        assert Split(tail)[1..] == rest;
      }
      assert "" + first == first;
    }
  }

  // ---------- Fixed points ----------

  /** A segment that normalisation keeps as it is. */
  predicate Stable(segment: string) {
    segment != "" && segment != "." && segment != ".." && Decode(segment) == segment
  }

  predicate AllStable(segments: seq<string>) {
    segments == [] || (Stable(segments[0]) && AllStable(segments[1..]))
  }

  lemma {:induction false} ResolveConcat(stack: seq<string>, a: seq<string>, b: seq<string>)
    ensures Resolve(stack, a + b) == Resolve(Resolve(stack, a), b)
    decreases |a|
  {
    if a == [] {
      assert a + b == b;
    } else {
      assert (a + b)[0] == a[0] && (a + b)[1..] == a[1..] + b;
      ResolveConcat(Pushed(stack, a[0]), a[1..], b);
    }
  }

  lemma {:induction false} ResolveStable(stack: seq<string>, segments: seq<string>)
    requires AllStable(segments)
    ensures Resolve(stack, segments) == stack + segments
    decreases |segments|
  {
    if segments != [] {
      ResolveStable(stack + [segments[0]], segments[1..]);
      ConcatAssociates(stack, [segments[0]], segments[1..]);
      assert [segments[0]] + segments[1..] == segments;
    }
  }

  /** Decoding never lengthens, and keeps the length only of a segment without escapes. */
  lemma {:induction false} DecodeShortens(s: string)
    ensures |Decode(s)| <= |s| && (|Decode(s)| == |s| ==> Decode(s) == s)
    ensures s != "" ==> Decode(s) != ""
  {
    if s != "" {
      if IsEscape(s) {
        DecodeShortens(s[3..]);
      } else {
        DecodeShortens(s[1..]);
        assert [s[0]] + s[1..] == s;
      }
    }
  }

  lemma {:induction false} PathConcat(a: seq<string>, b: seq<string>)
    ensures Path(a + b) == Path(a) + Path(b)
  {
    if a == [] {
      assert a + b == b;
    } else {
      assert (a + b)[0] == a[0] && (a + b)[1..] == a[1..] + b;
      PathConcat(a[1..], b);
      ConcatAssociates("/" + a[0], Path(a[1..]), Path(b));
    }
  }

  lemma PathSnoc(stack: seq<string>, segment: string)
    ensures |Path(stack + [segment])| == |Path(stack)| + 1 + |segment|
  {
    PathConcat(stack, [segment]);
    assert Path([segment]) == "/" + segment + "";
  }

  lemma PathPop(stack: seq<string>)
    ensures |Path(Pop(stack))| <= |Path(stack)|
  {
    if stack != [] {
      PathSnoc(Pop(stack), stack[|stack| - 1]);
      assert Pop(stack) + [stack[|stack| - 1]] == stack;
    }
  }

  /** One segment adds its own weight to the path when it is stable, and less otherwise. */
  lemma PushedWeight(stack: seq<string>, segment: string)
    ensures |Path(Pushed(stack, segment))| <= |Path(stack)| + 1 + |segment|
    ensures !Stable(segment) ==> |Path(Pushed(stack, segment))| < |Path(stack)| + 1 + |segment|
  {
    DecodeShortens(segment);
    PathSnoc(stack, Decode(segment));
    PathPop(stack);
  }

  lemma {:induction false} ResolveWeight(stack: seq<string>, segments: seq<string>)
    ensures |Path(Resolve(stack, segments))| <= |Path(stack)| + |Path(segments)|
    ensures !AllStable(segments) ==> |Path(Resolve(stack, segments))| < |Path(stack)| + |Path(segments)|
    decreases |segments|
  {
    if segments != [] {
      PushedWeight(stack, segments[0]);
      ResolveWeight(Pushed(stack, segments[0]), segments[1..]);
    }
  }

  /** Leading slashes are dropped, which only drops empty segments. */
  lemma {:induction false} LeadingSlashes(path: string)
    ensures Resolve([], Split("/" + DropLeadingSlashes(path))) == Resolve([], Split(path))
  {
    var dropped := DropLeadingSlashes(path);
    SplitAtSlash("", "", dropped);
    assert "" + "/" + dropped == "/" + dropped;
    assert Split("/" + dropped) == [""] + Split(dropped);
    assert ([""] + Split(dropped))[1..] == Split(dropped);
    if path != "" && path[0] == '/' {
      LeadingSlashes(path[1..]);
      SplitAtSlash("", "", path[1..]);
      assert "" + "/" + path[1..] == path;
      assert ([""] + Split(path[1..]))[1..] == Split(path[1..]);
    }
  }

  /** The path that a list of slash-free segments stands for normalises to what they resolve to. */
  lemma NormalizedPathOf(segments: seq<string>)
    requires NoSlashes(segments)
    ensures NormalizedPath(Path(segments)) == Rendered(Resolve([], segments))
  {
    LeadingSlashes(Path(segments));
    SplitPath(segments);
    assert ([""] + segments)[1..] == segments;
  }

  /** An absolute path is a fixed point of normalisation exactly when it is "/" or all its segments are
      stable: no empty one, no dot segment, no percent escape. */
  lemma FixedPoints(segments: seq<string>)
    requires segments != [] && NoSlashes(segments)
    ensures NormalizedPath(Path(segments)) == Path(segments) <==> segments == [""] || AllStable(segments)
  {
    NormalizedPathOf(segments);
    ResolveWeight([], segments);
    if AllStable(segments) {
      ResolveStable([], segments);
      assert [] + segments == segments;
    } else if segments == [""] {
      assert Resolve([], segments) == [];
    } else {
      assert |Path(segments)| == 1 + |segments[0]| + |Path(segments[1..])|;
      if segments[0] == "" {
        assert segments[1..] != [] && |Path(segments[1..])| >= 1;
      }
    }
  }

  lemma {:induction false} PathOfSplit(word: string, s: string)
    ensures Path(SplitFrom(word, s)) == "/" + word + s
    decreases |s|
  {
    if s == "" {
      assert Path([word]) == "/" + word + "";
    } else if s[0] == '/' {
      PathOfSplit("", s[1..]);
      assert ([word] + SplitFrom("", s[1..]))[1..] == SplitFrom("", s[1..]);
      assert "/" + "" + s[1..] == s;
    } else {
      PathOfSplit(word + [s[0]], s[1..]);
      assert "/" + (word + [s[0]]) + s[1..] == "/" + word + s;
    }
  }

  // ---------- Percent-free paths ----------

  predicate PercentFree(s: string) {
    forall i :: 0 <= i < |s| ==> s[i] != '%'
  }

  predicate AllPercentFree(segments: seq<string>) {
    forall t :: t in segments ==> PercentFree(t)
  }

  lemma {:induction false} DecodePercentFree(s: string)
    requires PercentFree(s)
    ensures Decode(s) == s
  {
    if s != "" {
      DecodePercentFree(s[1..]);
      assert [s[0]] + s[1..] == s;
    }
  }

  predicate Normal(segment: string) {
    Stable(segment) && NoSlash(segment)
  }

  predicate AllNormal(segments: seq<string>) {
    forall t :: t in segments ==> Normal(t)
  }

  lemma {:induction false} ResolveNormal(stack: seq<string>, segments: seq<string>)
    requires AllNormal(stack) && NoSlashes(segments) && AllPercentFree(segments)
    ensures AllNormal(Resolve(stack, segments))
    decreases |segments|
  {
    if segments != [] {
      var first, rest := segments[0], segments[1..];
      assert first in segments && forall t :: t in rest ==> t in segments;
      DecodePercentFree(first);
      ResolveNormal(Pushed(stack, first), rest);
    }
  }

  lemma {:induction false} NormalIsStable(segments: seq<string>)
    requires AllNormal(segments)
    ensures AllStable(segments) && NoSlashes(segments)
  {
    if segments != [] {
      assert segments[0] in segments && forall t :: t in segments[1..] ==> t in segments;
      NormalIsStable(segments[1..]);
    }
  }

  /** For a percent-free path the result has no dot or empty segment and is a fixed point. */
  lemma PercentFreeIsNormal(segments: seq<string>)
    requires NoSlashes(segments) && AllPercentFree(segments)
    ensures var kept := Resolve([], segments);
            NormalizedPath(Path(segments)) == Rendered(kept) && AllNormal(kept)
            && NormalizedPath(Rendered(kept)) == Rendered(kept)
  {
    var kept := Resolve([], segments);
    NormalizedPathOf(segments);
    ResolveNormal([], segments);
    NormalIsStable(kept);
    if kept == [] {
      FixedPoints([""]);
      assert Path([""]) == "/";
    } else {
      FixedPoints(kept);
    }
  }

  /** An escaped dot segment survives the stack, here of "/%2e%2e": the result "/.." is not dot-free,
      and not a fixed point. */
  lemma EscapedDotsSurvive()
    ensures NormalizedPath(Path(["%2e%2e"])) == Path([".."]) && NormalizedPath(Path([".."])) == "/"
  {
    var escaped := "%2e%2e";
    assert Decode(escaped[3..][3..]) == "";
    assert Decode(escaped[3..]) == ".";
    assert Decode(escaped) == "..";
    NormalizedPathOf([escaped]);
    NormalizedPathOf([".."]);
    assert [escaped][1..] == [] && [".."][1..] == [];
    assert Resolve([], [escaped]) == [".."] && Resolve([], [".."]) == [];
  }

  // ---------- remove_dot_segments, section 5.2.4 of RFC 3986 ----------

  /** The length of the first path segment, with its leading slash if it has one. */
  function FirstSegment(s: string): nat
    requires s != ""
    ensures 1 <= FirstSegment(s) <= |s|
  {
    if |s| == 1 || s[1] == '/' then 1 else 1 + FirstSegment(s[1..])
  }

  /** Removes the last segment and the slash before it. */
  function DropLastSegment(output: string): string {
    if output == "" then ""
    else if output[|output| - 1] == '/' then output[..|output| - 1]
    else DropLastSegment(output[..|output| - 1])
  }

  /** The loop of the standard on its input and output buffers, steps A to E. */
  function RemoveDots(input: string, output: string): string
    decreases |input|
  {
    if input == "" then output
    else if "../" <= input then RemoveDots(input[3..], output)
    else if "./" <= input then RemoveDots(input[2..], output)
    else if "/./" <= input then RemoveDots(input[2..], output)
    else if input == "/." then RemoveDots("/", output)
    else if "/../" <= input then RemoveDots(input[3..], DropLastSegment(output))
    else if input == "/.." then RemoveDots("/", DropLastSegment(output))
    else if input == "." || input == ".." then output
    else RemoveDots(input[FirstSegment(input)..], output + input[..FirstSegment(input)])
  }

  /** The same loop on segments: a dot segment at the end leaves an empty one behind. */
  function RemoveDotSegments(segments: seq<string>, output: seq<string>): seq<string>
    decreases |segments|
  {
    if segments == [] then output
    else
      var rest := segments[1..];
      if segments[0] == "." then (if rest == [] then output + [""] else RemoveDotSegments(rest, output))
      else if segments[0] == ".." then
        (if rest == [] then Pop(output) + [""] else RemoveDotSegments(rest, Pop(output)))
      else RemoveDotSegments(rest, output + [segments[0]])
  }

  lemma {:induction false} DropLastOfPath(output: string, segment: string)
    requires NoSlash(segment)
    ensures DropLastSegment(output + "/" + segment) == output
    decreases |segment|
  {
    var s := output + "/" + segment;
    if segment == "" {
      assert s[..|s| - 1] == output;
    } else {
      var shorter := segment[..|segment| - 1];
      assert s[..|s| - 1] == output + "/" + shorter;
      DropLastOfPath(output, shorter);
    }
  }

  lemma DropLastIsPop(stack: seq<string>)
    requires NoSlashes(stack)
    ensures DropLastSegment(Path(stack)) == Path(Pop(stack))
  {
    if stack != [] {
      var before, last := Pop(stack), stack[|stack| - 1];
      assert stack == before + [last] && last in stack;
      PathConcat(before, [last]);
      assert Path([last]) == "/" + last + "";
      assert Path(stack) == Path(before) + "/" + last;
      DropLastOfPath(Path(before), last);
    }
  }

  /** A slash-free segment ends where the next slash stands. */
  lemma {:induction false} FirstSegmentOfPath(head: string, segment: string, tail: string)
    requires NoSlash(segment) && |head| == 1 && (tail == "" || tail[0] == '/')
    ensures FirstSegment(head + segment + tail) == 1 + |segment|
    decreases |segment|
  {
    var s := head + segment + tail;
    if segment != "" {
      assert s[1] == segment[0];
      assert s[1..] == [segment[0]] + segment[1..] + tail;
      FirstSegmentOfPath([segment[0]], segment[1..], tail);
    }
  }

  lemma PathShape(segments: seq<string>)
    requires segments != []
    ensures Path(segments) == "/" + segments[0] + Path(segments[1..])
    ensures Path(segments)[0] == '/' && (Path(segments[1..]) == "" <==> segments[1..] == [])
    ensures segments[1..] != [] ==> Path(segments[1..])[0] == '/'
  {
  }

  /** Which step of the standard applies to a path depends on its first segment alone. */
  lemma StepOfPath(segment: string, tail: string)
    requires NoSlash(segment) && (tail == "" || tail[0] == '/')
    ensures var input := "/" + segment + tail;
            (!("../" <= input) && !("./" <= input) && input != "." && input != "..")
            && ("/./" <= input <==> segment == "." && tail != "")
            && ("/../" <= input <==> segment == ".." && tail != "")
            && (input == "/." <==> segment == "." && tail == "")
            && (input == "/.." <==> segment == ".." && tail == "")
  {
    var input := "/" + segment + tail;
    assert input[0] == '/' && |input| == 1 + |segment| + |tail|;
    assert forall i :: 0 <= i < |segment| ==> input[1 + i] == segment[i] && input[1 + i] != '/';
    assert tail != "" ==> input[1 + |segment|] == '/';
    if segment == "" {
      assert tail != "" ==> input[1] == '/';
    } else if |segment| == 1 {
      assert input[1] == segment[0] && (tail != "" ==> input[2] == '/');
    } else {
      assert input[1] == segment[0] && input[2] == segment[1];
      if |segment| == 2 {
        assert tail != "" ==> input[3] == '/';
      } else {
        assert input[3] == segment[2];
      }
    }
  }

  lemma SlashOnly(output: string)
    ensures RemoveDots("/", output) == output + "/"
  {
    assert FirstSegment("/") == 1 && "/"[1..] == "" && "/"[..1] == "/";
    assert !("/./" <= "/") && !("/../" <= "/") && !("../" <= "/") && !("./" <= "/");
  }

  /** On absolute paths the buffers of the standard always hold whole segments. */
  lemma {:induction false} RemoveDotsIsSegmentwise(segments: seq<string>, output: seq<string>)
    requires NoSlashes(segments) && NoSlashes(output)
    ensures RemoveDots(Path(segments), Path(output)) == Path(RemoveDotSegments(segments, output))
    decreases |segments|
  {
    if segments != [] {
      var first, rest := segments[0], segments[1..];
      var input := Path(segments);
      assert first in segments && forall t :: t in rest ==> t in segments;
      PathShape(segments);
      StepOfPath(first, Path(rest));
      if first == "." {
        if rest == [] {
          SlashOnly(Path(output));
          PathConcat(output, [""]);
          assert Path([""]) == "/";
        } else {
          assert input[2..] == Path(rest);
          RemoveDotsIsSegmentwise(rest, output);
        }
      } else if first == ".." {
        DropLastIsPop(output);
        if rest == [] {
          SlashOnly(Path(Pop(output)));
          PathConcat(Pop(output), [""]);
          assert Path([""]) == "/";
        } else {
          assert input[3..] == Path(rest);
          RemoveDotsIsSegmentwise(rest, Pop(output));
        }
      } else {
        FirstSegmentOfPath("/", first, Path(rest));
        assert input[1 + |first|..] == Path(rest) && input[..1 + |first|] == "/" + first;
        PathConcat(output, [first]);
        assert Path([first]) == "/" + first + "" == input[..1 + |first|];
        assert NoSlashes(output + [first]);
        RemoveDotsIsSegmentwise(rest, output + [first]);
        assert RemoveDots(input, Path(output)) == RemoveDots(Path(rest), Path(output + [first]));
      }
    }
  }

  /** Every segment but the last is not empty. */
  predicate NoInteriorEmpty(segments: seq<string>) {
    |segments| <= 1 || (segments[0] != "" && NoInteriorEmpty(segments[1..]))
  }

  /** The path ends in a slash once its dot segments are gone. */
  predicate EndsOpen(segments: seq<string>) {
    segments != [] && (var last := segments[|segments| - 1]; last == "" || last == "." || last == "..")
  }

  lemma {:induction false} SegmentwiseAgrees(segments: seq<string>, stack: seq<string>)
    requires NoInteriorEmpty(segments) && AllPercentFree(segments)
    ensures RemoveDotSegments(segments, stack)
         == Resolve(stack, segments) + if EndsOpen(segments) then [""] else []
    decreases |segments|
  {
    if segments != [] {
      var first, rest := segments[0], segments[1..];
      assert first in segments && forall t :: t in rest ==> t in segments;
      DecodePercentFree(first);
      if rest == [] {
        assert Resolve(Pushed(stack, first), rest) == Pushed(stack, first);
      } else {
        SegmentwiseAgrees(rest, Pushed(stack, first));
      }
    }
  }

  /** For percent-free absolute paths without interior empty segments the segment stack computes
      remove_dot_segments, up to the trailing slash it always drops. */
  lemma AgreesWithStandard(segments: seq<string>)
    requires segments != [] && NoSlashes(segments) && NoInteriorEmpty(segments) && AllPercentFree(segments)
    ensures var path := Path(segments);
            RemoveDots(path, "") == if EndsOpen(segments) && NormalizedPath(path) != "/" then NormalizedPath(path) + "/"
                                    else NormalizedPath(path)
  {
    var kept := Resolve([], segments);
    RemoveDotsIsSegmentwise(segments, []);
    SegmentwiseAgrees(segments, []);
    NormalizedPathOf(segments);
    ResolveNormal([], segments);
    PathConcat(kept, [""]);
    assert Path([""]) == "/";
    if kept == [] {
      if !EndsOpen(segments) {
        KeepsLast(segments);
      }
      assert kept + [""] == [""];
    } else {
      assert kept[0] in kept && kept[0] != "";
      assert |Path(kept)| >= 2;
      assert kept + [] == kept;
    }
  }

  lemma {:induction false} ResolveSnoc(stack: seq<string>, segments: seq<string>, last: string)
    ensures Resolve(stack, segments + [last]) == Pushed(Resolve(stack, segments), last)
  {
    ResolveConcat(stack, segments, [last]);
    assert [last][1..] == [];
  }

  lemma KeepsLast(segments: seq<string>)
    requires segments != [] && !EndsOpen(segments)
    ensures Resolve([], segments) != []
  {
    var before, last := segments[..|segments| - 1], segments[|segments| - 1];
    assert segments == before + [last];
    ResolveSnoc([], before, last);
  }

  // ---------- Relative targets, section 5.2.3 of RFC 3986 ----------

  function TrimSlashes(s: string): string {
    if s != "" && s[|s| - 1] == '/' then TrimSlashes(s[..|s| - 1]) else s
  }

  /** What comes before the last slash. */
  function BeforeLastSlash(s: string): string {
    DropLastSegment(s)
  }

  function SlashForBackslash(s: string): string {
    if s == "" then "" else [if s[0] == '\\' then '/' else s[0]] + SlashForBackslash(s[1..])
  }

  /** dirname of an absolute path that does not end in a slash. */
  function Dirname(path: string): string {
    var parent := TrimSlashes(BeforeLastSlash(path));
    if parent == "" then "/" else parent
  }

  /** The base of normalizeTarget: the directory of the source path, without its trailing slashes. */
  function BasePath(sourcePath: string): string
    requires sourcePath != ""
  {
    if sourcePath[|sourcePath| - 1] == '/' then TrimSlashes(sourcePath)
    else TrimSlashes(SlashForBackslash(Dirname(sourcePath)))
  }

  /** The path a relative target gets: base path, slash, target. */
  function RelativePath(sourcePath: string, target: string): string
    requires sourcePath != ""
  {
    BasePath(sourcePath) + "/" + target
  }

  /** The merge of the standard for a base with an authority and a non-empty path. */
  function Merge(sourcePath: string, target: string): string {
    BeforeLastSlash(sourcePath) + "/" + target
  }

  predicate NoBackslash(s: string) {
    forall i :: 0 <= i < |s| ==> s[i] != '\\'
  }

  lemma {:induction false} SlashForNothing(s: string)
    requires NoBackslash(s)
    ensures SlashForBackslash(s) == s
  {
    if s != "" {
      SlashForNothing(s[1..]);
      assert [s[0]] + s[1..] == s;
    }
  }

  /** Slashes at the joint only add empty segments. */
  lemma {:induction false} TrailingSlashes(s: string, rest: seq<string>)
    ensures Resolve([], Split(TrimSlashes(s)) + rest) == Resolve([], Split(s) + rest)
    decreases |s|
  {
    if s != "" && s[|s| - 1] == '/' {
      var before := s[..|s| - 1];
      TrailingSlashes(before, rest);
      SplitAtSlash("", before, "");
      assert before + "/" + "" == s;
      assert Split("") == [""];
      ConcatAssociates(Split(before), [""], rest);
      ResolveConcat([], Split(before), [""] + rest);
      ResolveConcat([], Split(before), rest);
      assert ([""] + rest)[0] == "" && ([""] + rest)[1..] == rest;
    }
  }

  lemma JointPath(directory: string, target: string)
    ensures NormalizedPath(TrimSlashes(directory) + "/" + target) == NormalizedPath(directory + "/" + target)
  {
    LeadingSlashes(TrimSlashes(directory) + "/" + target);
    LeadingSlashes(directory + "/" + target);
    SplitAtSlash("", TrimSlashes(directory), target);
    SplitAtSlash("", directory, target);
    TrailingSlashes(directory, Split(target));
  }

  lemma {:induction false} SlashConcat(a: string, b: string)
    ensures SlashForBackslash(a + b) == SlashForBackslash(a) + SlashForBackslash(b)
  {
    if a == "" {
      assert a + b == b;
    } else {
      SlashConcat(a[1..], b);
      assert (a + b)[1..] == a[1..] + b && (a + b)[0] == a[0];
      ConcatAssociates([if a[0] == '\\' then '/' else a[0]], SlashForBackslash(a[1..]), SlashForBackslash(b));
    }
  }

  /** Trailing slashes can be dropped before or after backslashes are rewritten. */
  lemma {:induction false} TrimBeforeRewriting(s: string)
    ensures TrimSlashes(SlashForBackslash(TrimSlashes(s))) == TrimSlashes(SlashForBackslash(s))
  {
    if s != "" && s[|s| - 1] == '/' {
      var before := s[..|s| - 1];
      TrimBeforeRewriting(before);
      SlashConcat(before, "/");
      assert s == before + "/";
      assert "/"[1..] == "" && SlashForBackslash("/") == "/";
      var rewritten := SlashForBackslash(s);
      assert rewritten[..|rewritten| - 1] == SlashForBackslash(before);
    }
  }

  lemma BaseIsRewrittenDirectory(sourcePath: string)
    requires sourcePath != "" && sourcePath[|sourcePath| - 1] != '/'
    ensures BasePath(sourcePath) == TrimSlashes(SlashForBackslash(BeforeLastSlash(sourcePath)))
  {
    var directory := BeforeLastSlash(sourcePath);
    TrimBeforeRewriting(directory);
    assert "/"[1..] == "" && SlashForBackslash("/") == "/";
    assert "/"[..0] == "" && TrimSlashes("/") == "";
  }

  /** What a joined path normalises to: the target continues on the stack the directory leaves. */
  lemma JoinedPath(directory: string, target: string)
    ensures NormalizedPath(directory + "/" + target) == Rendered(Resolve(Resolve([], Split(directory)), Split(target)))
  {
    LeadingSlashes(directory + "/" + target);
    SplitAtSlash("", directory, target);
    ResolveConcat([], Split(directory), Split(target));
  }

  /** The directory of the source path as the code sees it: backslashes count as slashes, unless the source
      path ends in a slash. */
  function CodeDirectory(sourcePath: string): string
    requires sourcePath != ""
  {
    if sourcePath[|sourcePath| - 1] == '/' then BeforeLastSlash(sourcePath)
    else SlashForBackslash(BeforeLastSlash(sourcePath))
  }

  /** The directory leaves the same stack whether its backslashes are rewritten or not. */
  predicate MergesAlike(sourcePath: string)
    requires sourcePath != ""
  {
    Resolve([], Split(CodeDirectory(sourcePath))) == Resolve([], Split(BeforeLastSlash(sourcePath)))
  }

  lemma RelativeIsJoined(sourcePath: string, target: string)
    requires sourcePath != ""
    ensures NormalizedPath(RelativePath(sourcePath, target)) == NormalizedPath(CodeDirectory(sourcePath) + "/" + target)
  {
    var directory := CodeDirectory(sourcePath);
    JointPath(directory, target);
    if sourcePath[|sourcePath| - 1] == '/' {
      assert TrimSlashes(sourcePath) == TrimSlashes(directory);
    } else {
      BaseIsRewrittenDirectory(sourcePath);
    }
  }

  /** A relative target is resolved against the path the standard merges, when rewriting backslashes does not
      change the directory. */
  lemma MergesLikeStandard(sourcePath: string, target: string)
    requires sourcePath != "" && MergesAlike(sourcePath)
    ensures NormalizedPath(RelativePath(sourcePath, target)) == NormalizedPath(Merge(sourcePath, target))
  {
    RelativeIsJoined(sourcePath, target);
    JoinedPath(CodeDirectory(sourcePath), target);
    JoinedPath(BeforeLastSlash(sourcePath), target);
  }

  /** So it is for a source path that ends in a slash or has no backslash before its last segment. */
  lemma PlainDirectoryMergesAlike(sourcePath: string)
    requires sourcePath != ""
    requires sourcePath[|sourcePath| - 1] == '/' || NoBackslash(BeforeLastSlash(sourcePath))
    ensures MergesAlike(sourcePath)
  {
    if sourcePath[|sourcePath| - 1] != '/' {
      SlashForNothing(BeforeLastSlash(sourcePath));
    }
  }

  // ---------- The condition is exact ----------

  /** A target that only goes up, `n` times. */
  function Up(n: nat): string {
    if n == 0 then "." else Up(n - 1) + "/" + ".."
  }

  function Dropped(stack: seq<string>, n: nat): seq<string> {
    if n == 0 then stack else Pop(Dropped(stack, n - 1))
  }

  lemma {:induction false} UpDrops(stack: seq<string>, n: nat)
    ensures Resolve(stack, Split(Up(n))) == Dropped(stack, n)
  {
    if n == 0 {
      SplitPlain("", ".");
      assert "" + "." == "." && ["."][1..] == [];
    } else {
      UpDrops(stack, n - 1);
      SplitAtSlash("", Up(n - 1), "..");
      SplitPlain("", "..");
      assert "" + ".." == "..";
      ResolveSnoc(stack, Split(Up(n - 1)), "..");
    }
  }

  lemma {:induction false} DroppedIsPrefix(stack: seq<string>, n: nat)
    ensures Dropped(stack, n) == stack[..Max(0, |stack| - n)]
  {
    if n > 0 {
      DroppedIsPrefix(stack, n - 1);
    } else {
      assert stack[..|stack|] == stack;
    }
  }

  lemma {:induction false} ResolvedNotEmpty(stack: seq<string>, segments: seq<string>)
    requires "" !in stack
    ensures "" !in Resolve(stack, segments)
    decreases |segments|
  {
    if segments != [] {
      DecodeShortens(segments[0]);
      ResolvedNotEmpty(Pushed(stack, segments[0]), segments[1..]);
    }
  }

  lemma NotJustASlash(stack: seq<string>)
    requires "" !in stack
    ensures Rendered(stack) == "/" <==> stack == []
  {
    if stack != [] {
      assert stack[0] in stack;
      assert |Path(stack)| >= 1 + |stack[0]|;
    }
  }

  lemma {:induction false} PrefixesTell(a: seq<string>, b: seq<string>)
    requires |a| == |b| && forall n :: 0 <= n <= |a| ==> Path(a[..n]) == Path(b[..n])
    ensures a == b
  {
    if a != [] {
      var x, y := a[..|a| - 1], b[..|b| - 1];
      forall n | 0 <= n <= |x| ensures Path(x[..n]) == Path(y[..n]) {
        assert x[..n] == a[..n] && y[..n] == b[..n];
      }
      PrefixesTell(x, y);
      assert a[..|a|] == a == x + [a[|x|]] && b[..|b|] == b == y + [b[|x|]];
      PathLast(x, a[|x|]);
      PathLast(x, b[|x|]);
    }
  }

  lemma PathOfOne(segment: string)
    ensures Path([segment]) == "/" + segment
  {
    assert [segment][1..] == [];
    assert "/" + segment + "" == "/" + segment;
  }

  lemma PathLast(stack: seq<string>, last: string)
    ensures Path(stack + [last]) == Path(stack) + ("/" + last)
    ensures Path(stack + [last])[|Path(stack)| + 1..] == last
  {
    PathConcat(stack, [last]);
    PathOfOne(last);
  }

  /** A stack is determined by the paths it gives as it is taken down. */
  lemma DroppingTells(a: seq<string>, b: seq<string>)
    requires "" !in a && "" !in b && forall n: nat :: Rendered(Dropped(a, n)) == Rendered(Dropped(b, n))
    ensures a == b
  {
    SameHeight(a, b);
    SameHeight(b, a);
    forall n | 0 <= n <= |a| ensures Path(a[..n]) == Path(b[..n]) {
      DroppedIsPrefix(a, |a| - n);
      DroppedIsPrefix(b, |a| - n);
      assert Rendered(Dropped(a, |a| - n)) == Rendered(Dropped(b, |a| - n));
    }
    PrefixesTell(a, b);
  }

  lemma SameHeight(a: seq<string>, b: seq<string>)
    requires "" !in b && Rendered(Dropped(a, |a|)) == Rendered(Dropped(b, |a|))
    ensures |b| <= |a|
  {
    DroppedIsPrefix(a, |a|);
    DroppedIsPrefix(b, |a|);
    NotJustASlash(Dropped(b, |a|));
  }

  /** All targets are resolved as the standard does exactly when rewriting the backslashes of the directory
      leaves the same stack. */
  lemma AllTargetsMerge(sourcePath: string)
    requires sourcePath != ""
    ensures (forall target ::
               NormalizedPath(RelativePath(sourcePath, target)) == NormalizedPath(Merge(sourcePath, target)))
       <==> MergesAlike(sourcePath)
  {
    if MergesAlike(sourcePath) {
      forall target
        ensures NormalizedPath(RelativePath(sourcePath, target)) == NormalizedPath(Merge(sourcePath, target))
      {
        MergesLikeStandard(sourcePath, target);
      }
    } else if forall target ::
                NormalizedPath(RelativePath(sourcePath, target)) == NormalizedPath(Merge(sourcePath, target)) {
      TargetsTellDirectory(sourcePath);
    }
  }

  lemma TargetsTellDirectory(sourcePath: string)
    requires sourcePath != ""
    requires forall target ::
               NormalizedPath(RelativePath(sourcePath, target)) == NormalizedPath(Merge(sourcePath, target))
    ensures MergesAlike(sourcePath)
  {
    var a, b := Resolve([], Split(CodeDirectory(sourcePath))), Resolve([], Split(BeforeLastSlash(sourcePath)));
    ResolvedNotEmpty([], Split(CodeDirectory(sourcePath)));
    ResolvedNotEmpty([], Split(BeforeLastSlash(sourcePath)));
    forall n: nat ensures Rendered(Dropped(a, n)) == Rendered(Dropped(b, n)) {
      UpDrops(a, n);
      UpDrops(b, n);
      RelativeIsJoined(sourcePath, Up(n));
      JoinedPath(CodeDirectory(sourcePath), Up(n));
      JoinedPath(BeforeLastSlash(sourcePath), Up(n));
      assert NormalizedPath(RelativePath(sourcePath, Up(n))) == NormalizedPath(Merge(sourcePath, Up(n)));
    }
    DroppingTells(a, b);
  }

  /** A backslash before the last segment can matter: from "/a\\b/c" the standard merges "d" to "/a\\b/d", the
      code to "/a/b/d". */
  lemma BackslashIsRewritten()
    ensures RelativePath("/a\\b/c", "d") == "/a/b/d" && Merge("/a\\b/c", "d") == "/a\\b/d"
  {
    var source, directory := "/a\\b/c", "/a\\b";
    assert source == directory + "/" + "c";
    DropLastOfPath(directory, "c");
    assert Dirname(source) == directory;
    assert directory[1..][1..] == "\\b" && directory[1..][1..][1..] == "b" && "b"[1..] == "";
    assert SlashForBackslash("b") == "b";
    assert SlashForBackslash("\\b") == "/b";
    assert SlashForBackslash(directory[1..]) == "a/b";
    assert SlashForBackslash(directory) == "/a/b";
  }
}
