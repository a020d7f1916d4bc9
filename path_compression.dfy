/** Whiteboard path data on the client. A drawn path is either compressed, a list of points,
    or a list of SVG path segments: command strings such as "M ", separators " " and numbers.
    Segments are regrouped into one chunk per path instruction: a command starts a new chunk,
    the numbers and other strings that follow belong to it, separators are dropped and strings
    trimmed. The point simplification and the SVG rendering are done by drawing libraries and
    are not part of this model. */
module PathCompression {

  /** One segment of an SVG path as the drawing library produces it. */
  datatype Item = Str(text: string) | Num(value: real)

  /** One element of stored path data: a point of a compressed path, or a segment. */
  datatype PathElement = Point(x: real, y: real) | Segment(item: Item)

  /** The characters the string trim of the client removes at both ends. */
  predicate IsWhitespace(c: char)
  {
    c == ' ' || c == '\t' || c == '\n' || c == '\r' || c == '\U{0B}' || c == '\U{0C}' || c == '\U{A0}'
    || c == '\U{FEFF}' || c == '\U{2028}' || c == '\U{2029}' || c == '\U{1680}' || ('\U{2000}' <= c <= '\U{200A}')
    || c == '\U{202F}' || c == '\U{205F}' || c == '\U{3000}'
  }

  function TrimStart(s: string): string
    decreases |s|
  {
    if s != [] && IsWhitespace(s[0]) then TrimStart(s[1..]) else s
  }

  function TrimEnd(s: string): string
    decreases |s|
  {
    if s != [] && IsWhitespace(s[|s| - 1]) then TrimEnd(s[..|s| - 1]) else s
  }

  function Trim(s: string): string
  {
    TrimEnd(TrimStart(s))
  }

  /** A trimmed string is a contiguous slice of the string, everything cut off at either end
      is whitespace, and it neither starts nor ends with whitespace; in particular it is never
      the separator " ". */
  lemma {:induction false} TrimLeavesNoOuterWhitespace(s: string)
    ensures var t := Trim(s);
      t == [] || (!IsWhitespace(t[0]) && !IsWhitespace(t[|t| - 1]))
    ensures exists i, j :: && 0 <= i <= j <= |s| && Trim(s) == s[i..j]
                           && (forall k :: 0 <= k < i ==> IsWhitespace(s[k]))
                           && (forall k :: j <= k < |s| ==> IsWhitespace(s[k]))
  {
    TrimStartLeavesNoLeadingWhitespace(s);
    TrimEndKeepsStart(TrimStart(s));
    TrimEndLeavesNoTrailingWhitespace(TrimStart(s));
    TrimStartKeepsEnd(s);
    var i := |s| - |TrimStart(s)|;
    var j := i + |Trim(s)|;
    assert Trim(s) == s[i..j];
    forall k | j <= k < |s|
      ensures IsWhitespace(s[k])
    {
      assert s[k] == TrimStart(s)[k - i];
    }
  }

  /** Trimming the start keeps a suffix and cuts off only whitespace. */
  lemma {:induction false} TrimStartKeepsEnd(s: string)
    ensures |TrimStart(s)| <= |s| && TrimStart(s) == s[|s| - |TrimStart(s)|..]
    ensures forall k :: 0 <= k < |s| - |TrimStart(s)| ==> IsWhitespace(s[k])
    decreases |s|
  {
    if s != [] && IsWhitespace(s[0]) {
      TrimStartKeepsEnd(s[1..]);
      forall k | 1 <= k < |s| - |TrimStart(s)|
        ensures IsWhitespace(s[k])
      {
        assert s[k] == s[1..][k - 1];
      }
    }
  }

  lemma {:induction false} TrimStartLeavesNoLeadingWhitespace(s: string)
    ensures TrimStart(s) == [] || !IsWhitespace(TrimStart(s)[0])
    decreases |s|
  {
    if s != [] && IsWhitespace(s[0]) {
      TrimStartLeavesNoLeadingWhitespace(s[1..]);
    }
  }

  lemma {:induction false} TrimEndLeavesNoTrailingWhitespace(s: string)
    ensures TrimEnd(s) == [] || !IsWhitespace(TrimEnd(s)[|TrimEnd(s)| - 1])
    decreases |s|
  {
    if s != [] && IsWhitespace(s[|s| - 1]) {
      TrimEndLeavesNoTrailingWhitespace(s[..|s| - 1]);
    }
  }

  /** Trimming the end keeps a prefix and cuts off only whitespace, so a non-whitespace first
      character stays first. */
  lemma {:induction false} TrimEndKeepsStart(s: string)
    ensures |TrimEnd(s)| <= |s| && TrimEnd(s) == s[..|TrimEnd(s)|]
    ensures forall k :: |TrimEnd(s)| <= k < |s| ==> IsWhitespace(s[k])
    decreases |s|
  {
    if s != [] && IsWhitespace(s[|s| - 1]) {
      TrimEndKeepsStart(s[..|s| - 1]);
    }
  }

  /** Whether a string segment is a move, quadratic-curve or line command. */
  predicate StartsCommand(text: string)
  {
    |text| > 0 && (text[0] == 'M' || text[0] == 'Q' || text[0] == 'L')
  }

  /** A segment as it appears in the output: numbers unchanged, strings trimmed. */
  function Cleaned(item: Item): Item
  {
    match item
    case Num(_) => item
    case Str(text) => Str(Trim(text))
  }

  /** The segments that reach the output, in order: separators dropped, strings trimmed. */
  function Kept(segments: seq<Item>): seq<Item>
    decreases |segments|
  {
    if segments == [] then []
    else Kept(segments[..|segments| - 1])
         + (if segments[|segments| - 1] == Str(" ") then [] else [Cleaned(segments[|segments| - 1])])
  }

  /** The chunks joined back together. */
  function Concat(chunks: seq<seq<Item>>): seq<Item>
    decreases |chunks|
  {
    if chunks == [] then [] else Concat(chunks[..|chunks| - 1]) + chunks[|chunks| - 1]
  }

  /** Adds an item to the last chunk, or starts the first chunk with it. */
  function AppendToLast(chunks: seq<seq<Item>>, x: Item): seq<seq<Item>>
  {
    if chunks == [] then [[x]] else chunks[..|chunks| - 1] + [chunks[|chunks| - 1] + [x]]
  }

  /** The intended grouping, segment by segment: a command opens a new chunk, a separator is
      dropped, anything else joins the current chunk. */
  function Chunked(segments: seq<Item>): seq<seq<Item>>
    decreases |segments|
  {
    if segments == [] then []
    else
      Step(Chunked(segments[..|segments| - 1]), segments[|segments| - 1])
  }

  /** The grouping after one more segment: a command opens a new chunk, a separator is
      dropped, anything else joins the last chunk. */
  function Step(chunks: seq<seq<Item>>, s: Item): seq<seq<Item>>
  {
    if s.Str? && StartsCommand(s.text) then chunks + [[Cleaned(s)]]
    else if s == Str(" ") then chunks
    else AppendToLast(chunks, Cleaned(s))
  }

  lemma ConcatAppendToLast(chunks: seq<seq<Item>>, x: Item)
    ensures Concat(AppendToLast(chunks, x)) == Concat(chunks) + [x]
  {
    if chunks != [] {
      var init := chunks[..|chunks| - 1];
      assert AppendToLast(chunks, x)[..|chunks| - 1] == init;
      assert chunks[..|chunks| - 1] == init;
    }
  }

  /** Joining the chunks gives back the segments with separators dropped and strings trimmed,
      numbers and order preserved. */
  lemma {:induction false} ChunksJoinToKeptSegments(segments: seq<Item>)
    ensures Concat(Chunked(segments)) == Kept(segments)
    decreases |segments|
  {
    if segments != [] {
      var init := segments[..|segments| - 1];
      var s := segments[|segments| - 1];
      ChunksJoinToKeptSegments(init);
      if s.Str? && StartsCommand(s.text) {
        assert (Chunked(init) + [[Cleaned(s)]])[..|Chunked(init)|] == Chunked(init);
      } else if s != Str(" ") {
        ConcatAppendToLast(Chunked(init), Cleaned(s));
      }
    }
  }

  /** No chunk is empty, and no separator is ever copied into a chunk. */
  lemma {:induction false} ChunksAreNonEmptyWithoutSeparators(segments: seq<Item>)
    ensures forall i :: 0 <= i < |Chunked(segments)| ==> Chunked(segments)[i] != []
    ensures forall i, j :: 0 <= i < |Chunked(segments)| && 0 <= j < |Chunked(segments)[i]|
                           ==> Chunked(segments)[i][j] != Str(" ")
    decreases |segments|
  {
    if segments != [] {
      var init := segments[..|segments| - 1];
      var s := segments[|segments| - 1];
      ChunksAreNonEmptyWithoutSeparators(init);
      if s.Str? {
        TrimLeavesNoOuterWhitespace(s.text);
      }
    }
  }

  /** Each command segment starts a chunk of its own: the chunks before it are untouched and
      the new chunk begins with the trimmed command. */
  lemma CommandStartsChunk(segments: seq<Item>, command: string)
    requires StartsCommand(command)
    ensures Chunked(segments + [Str(command)]) == Chunked(segments) + [[Str(Trim(command))]]
  {
    assert (segments + [Str(command)])[..|segments|] == segments;
  }

  /** Closes the current chunk: drops a trailing separator and moves the chunk to the result,
      unless it is empty. */
  function AddCurrentChunk(result: seq<seq<Item>>, current: seq<Item>): (seq<seq<Item>>, seq<Item>)
  {
    if current == [] then (result, current)
    else (result + [if current[|current| - 1] == Str(" ") then current[..|current| - 1] else current], [])
  }

  /** The chunks the loop below has built so far: the closed ones and the open one. */
  function Built(result: seq<seq<Item>>, current: seq<Item>): seq<seq<Item>>
  {
    result + (if current == [] then [] else [current])
  }

  /** Adding an item to the open chunk extends the last chunk built so far. */
  lemma AddingExtendsLastChunk(result: seq<seq<Item>>, current: seq<Item>, x: Item)
    requires current == [] ==> result == []
    ensures Built(result, current + [x]) == AppendToLast(Built(result, current), x)
  {
    if current == [] {
      assert current + [x] == [x];
    } else {
      assert Built(result, current)[..|result|] == result;
    }
  }

  /** Closing an open chunk without separators keeps the chunks built so far, and the
      command then opens a chunk of its own. */
  lemma ClosingThenOpening(result: seq<seq<Item>>, current: seq<Item>, x: Item)
    requires forall j :: 0 <= j < |current| ==> current[j] != Str(" ")
    ensures AddCurrentChunk(result, current).0 == Built(result, current)
    ensures AddCurrentChunk(result, current).1 == []
    ensures Built(AddCurrentChunk(result, current).0, [x]) == Built(result, current) + [[x]]
  {
  }

  /** The grouping of one more segment, in terms of the grouping before it. */
  lemma ChunkedOneMore(segments: seq<Item>, i: nat)
    requires i < |segments|
    ensures Chunked(segments[..i + 1]) == Step(Chunked(segments[..i]), segments[i])
  {
    assert segments[..i + 1][..i] == segments[..i];
  }

  /** A number joins the open chunk, which is the last chunk built so far. */
  lemma NumberJoinsChunk(result: seq<seq<Item>>, current: seq<Item>, x: Item)
    requires x.Num?
    requires current == [] ==> result == []
    ensures Built(result, current + [x]) == Step(Built(result, current), x)
  {
    AddingExtendsLastChunk(result, current, x);
  }

  /** A command closes the open chunk and opens a chunk holding only its trimmed text. */
  lemma CommandOpensChunk(result: seq<seq<Item>>, current: seq<Item>, s: Item)
    requires s.Str? && StartsCommand(s.text)
    requires forall j :: 0 <= j < |current| ==> current[j] != Str(" ")
    ensures AddCurrentChunk(result, current).1 == []
    ensures Built(AddCurrentChunk(result, current).0, [Cleaned(s)]) == Step(Built(result, current), s)
    ensures Cleaned(s) != Str(" ")
  {
    ClosingThenOpening(result, current, Cleaned(s));
    TrimLeavesNoOuterWhitespace(s.text);
  }

  /** Any other string but the separator joins the open chunk trimmed. */
  lemma TextJoinsChunk(result: seq<seq<Item>>, current: seq<Item>, s: Item)
    requires s.Str? && !StartsCommand(s.text) && s.text != " "
    requires current == [] ==> result == []
    ensures Built(result, current + [Cleaned(s)]) == Step(Built(result, current), s)
    ensures Cleaned(s) != Str(" ")
  {
    AddingExtendsLastChunk(result, current, Cleaned(s));
    TrimLeavesNoOuterWhitespace(s.text);
  }

  /** One turn of the loop below: a number joins the open chunk; a command closes the open
      chunk and opens its own; a separator is skipped; any other string joins the open chunk
      trimmed. A command never is the separator, so it is always added after the close. */
  method TakeSegment(result: seq<seq<Item>>, current: seq<Item>, s: Item)
    returns (result': seq<seq<Item>>, current': seq<Item>)
    requires current == [] ==> result == []
    requires forall j :: 0 <= j < |current| ==> current[j] != Str(" ")
    ensures current' == [] ==> result' == []
    ensures forall j :: 0 <= j < |current'| ==> current'[j] != Str(" ")
    ensures Built(result', current') == Step(Built(result, current), s)
  {
    result', current' := result, current;
    if s.Num? {
      NumberJoinsChunk(result, current, s);
      current' := current + [s];
    } else if StartsCommand(s.text) {
      CommandOpensChunk(result, current, s);
      var closed := AddCurrentChunk(result, current);
      result' := closed.0;
      current' := closed.1 + [Str(Trim(s.text))];
      assert current' == [Cleaned(s)];
    } else if s.text != " " {
      TextJoinsChunk(result, current, s);
      current' := current + [Str(Trim(s.text))];
    } else {
      assert s == Str(" ");
    }
  }

  /** Regroups path segments into one chunk per instruction. */
  method FixPathInstructions(segments: seq<Item>) returns (result: seq<seq<Item>>)
    ensures result == Chunked(segments)
  {
    if |segments| == 0 {
      return [];
    }
    result := [];
    var current: seq<Item> := [];
    var i := 0;
    while i < |segments|
      invariant 0 <= i <= |segments|
      invariant Built(result, current) == Chunked(segments[..i])
      invariant current == [] ==> result == []
      invariant forall j :: 0 <= j < |current| ==> current[j] != Str(" ")
    {
      ChunkedOneMore(segments, i);
      result, current := TakeSegment(result, current, segments[i]);
      i := i + 1;
    }
    assert segments[..i] == segments;
    ClosingThenOpening(result, current, Str(""));
    result := AddCurrentChunk(result, current).0;
  }

  /** Whether stored path data is compressed: it is when it is not empty and its first
      element is a point. */
  function IsPathCompressed(path: seq<PathElement>): bool
  {
    if |path| == 0 then false else path[0].Point?
  }

  /** Path data made of segments is never taken for compressed data, and non-empty point data
      always is; empty data counts as not compressed. */
  lemma CompressedIffPoints(points: seq<(real, real)>, segments: seq<Item>)
    ensures IsPathCompressed(seq(|points|, i requires 0 <= i < |points| => Point(points[i].0, points[i].1)))
            <==> |points| > 0
    ensures !IsPathCompressed(seq(|segments|, i requires 0 <= i < |segments| => Segment(segments[i])))
  {
  }
}
