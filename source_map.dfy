/**
 * The source position model: byte spans, file identifiers, line/column
 * locations, a single source file with its line-start table, and the source
 * map that lays every loaded file out, back to back and in load order, in one
 * global byte space.
 *
 * Contents are strings in which each character stands for one byte.
 */
module SourcePositions {
  import opened Common

  // ---------------------------------------------------------------------
  // FileId, Location, Span
  // ---------------------------------------------------------------------

  /** Dense identifier of a loaded file: its index in the source map. */
  datatype FileId = FileId(id: nat)

  /** `FileId::operator<`. */
  predicate FileIdLess(a: FileId, b: FileId) { a.id < b.id }

  /** `<` on identifiers is a strict total order, the order of the indices. */
  lemma FileIdOrder(a: FileId, b: FileId, c: FileId)
    ensures !FileIdLess(a, a)
    ensures FileIdLess(a, b) && FileIdLess(b, c) ==> FileIdLess(a, c)
    ensures a != b ==> FileIdLess(a, b) || FileIdLess(b, a)
    ensures FileIdLess(a, b) <==> a.id < b.id
  {
  }

  /** A human-facing position: 1-based line, 0-based byte column. */
  datatype Location = Location(file: FileId, line: nat, column: nat)

  /** Half-open byte range `[start, end)`, stored as two `u32`. */
  datatype Span = Span(start: u32, end: u32) {

    predicate IsValid() { start <= end }

    /** `end - start` computed in `u32`, so it wraps when the span is invalid. */
    function Len(): (r: u32)
      ensures IsValid() ==> r == end - start
      ensures !IsValid() ==> r == end - start + U32_MODULUS
    {
      Wrap(end - start)
    }

    predicate Contains(pos: int) { start <= pos < end }

    /** Both ends shifted by `offset`, each addition wrapping in `u32`. */
    function WithOffset(offset: u32): (r: Span)
      ensures start + offset < U32_MODULUS ==> r.start == start + offset
      ensures start + offset >= U32_MODULUS ==> r.start == start + offset - U32_MODULUS
      ensures end + offset < U32_MODULUS ==> r.end == end + offset
      ensures end + offset >= U32_MODULUS ==> r.end == end + offset - U32_MODULUS
    {
      Span(Wrap(start + offset), Wrap(end + offset))
    }
  }

  /** The default-constructed span `(0, 0)`. */
  const EmptySpan := Span(0, 0)

  /** A span contains exactly the positions it starts at and runs up to; never its end. */
  lemma SpanContainment(s: Span, pos: int)
    ensures s.Contains(pos) <==> s.start <= pos < s.end
    ensures !s.Contains(s.end)
    ensures s.Contains(pos) ==> s.IsValid() && s.Len() > 0
    ensures s.IsValid() && s.Len() == 0 ==> !s.Contains(pos)
  {
  }

  /**
   * Shifting a span without overflow keeps its length and validity and moves
   * what it contains by the same amount.
   */
  lemma WithOffsetShifts(s: Span, offset: u32, pos: int)
    requires s.start + offset < U32_MODULUS && s.end + offset < U32_MODULUS
    ensures s.WithOffset(offset).Len() == s.Len()
    ensures s.WithOffset(offset).IsValid() == s.IsValid()
    ensures s.WithOffset(offset).Contains(pos + offset) == s.Contains(pos)
  {
  }

  // ---------------------------------------------------------------------
  // SourceFile
  // ---------------------------------------------------------------------

  /** One loaded file; `startPos` is its offset in the global byte space. */
  datatype SourceFile = SourceFile(name: string, content: string, startPos: nat, lineStarts: seq<nat>) {
    /** The line-start table is the one construction computes from the content. */
    ghost predicate Valid() { lineStarts == LineStarts(content) }
  }

  /** Positions just after each newline of `s`, in order. */
  function NewlineEnds(s: string): (r: seq<nat>)
    ensures forall k :: 0 <= k < |r| ==> 0 < r[k] <= |s|
    decreases |s|
  {
    if s == [] then []
    else NewlineEnds(s[..|s| - 1]) + (if s[|s| - 1] == '\n' then [|s|] else [])
  }

  /**
   * The line-start table of a content: 0, then one entry `i + 1` for every
   * newline at index `i`.
   */
  function LineStarts(s: string): (r: seq<nat>)
    ensures |r| >= 1 && r[0] == 0
    ensures forall k :: 0 <= k < |r| ==> r[k] <= |s|
  {
    [0] + NewlineEnds(s)
  }

  /**
   * Every entry of `NewlineEnds(s)` follows a newline, the entries strictly
   * increase, and every newline of `s` contributes one.
   */
  lemma {:induction false} NewlineEndsFacts(s: string)
    ensures forall k :: 0 <= k < |NewlineEnds(s)| ==> s[NewlineEnds(s)[k] - 1] == '\n'
    ensures forall k, l :: 0 <= k < l < |NewlineEnds(s)| ==> NewlineEnds(s)[k] < NewlineEnds(s)[l]
    ensures forall j :: 0 <= j < |s| && s[j] == '\n' ==> j + 1 in NewlineEnds(s)
    decreases |s|
  {
    if s != [] {
      var p := s[..|s| - 1];
      NewlineEndsFacts(p);
      var q := NewlineEnds(p);
      assert forall k :: 0 <= k < |q| ==> p[q[k] - 1] == '\n';
      assert forall j :: 0 <= j < |p| ==> p[j] == s[j];
      var r := NewlineEnds(s);
      assert r == q + (if s[|s| - 1] == '\n' then [|s|] else []);
      forall k | 0 <= k < |r|
        ensures s[r[k] - 1] == '\n'
      {
        if k < |q| {
          var m := q[k];
          assert r[k] == m && p[m - 1] == '\n';
        }
      }
    }
  }

  /**
   * The line-start table is strictly increasing, every entry but the first
   * follows a newline, and every newline starts an entry: exactly one entry
   * per line.
   */
  lemma LineStartsFacts(s: string)
    ensures var r := LineStarts(s);
      && (forall k, l :: 0 <= k < l < |r| ==> r[k] < r[l])
      && (forall k :: 0 < k < |r| ==> s[r[k] - 1] == '\n')
      && (forall j :: 0 <= j < |s| && s[j] == '\n' ==> j + 1 in r)
  {
    NewlineEndsFacts(s);
    var r := LineStarts(s);
    assert forall k :: 0 < k < |r| ==> r[k] == NewlineEnds(s)[k - 1];
  }

  /** `compute_line_starts`: one scan of the content pushing the start of every line. */
  method ComputeLineStarts(content: string) returns (lineStarts: seq<nat>)
    ensures lineStarts == LineStarts(content)
  {
    lineStarts := [0];
    var i := 0;
    while i < |content|
      invariant 0 <= i <= |content|
      invariant lineStarts == [0] + NewlineEnds(content[..i])
    {
      assert content[..i + 1][..i] == content[..i];
      if content[i] == '\n' {
        lineStarts := lineStarts + [i + 1];
      }
      i := i + 1;
    }
    assert content[..|content|] == content;
  }

  /** The `SourceFile` constructor: stores name, content and offset and builds the table. */
  method NewSourceFile(name: string, content: string, startPos: nat) returns (file: SourceFile)
    ensures file.Valid()
    ensures file.name == name && file.content == content && file.startPos == startPos
  {
    var lineStarts := ComputeLineStarts(content);
    file := SourceFile(name, content, startPos, lineStarts);
  }

  /**
   * Index of the greatest table entry that is at most `pos` (what
   * `upper_bound` followed by one step back finds in a sorted table).
   */
  function LastAtMost(table: seq<nat>, pos: nat): (i: nat)
    requires |table| > 0 && table[0] <= pos
    ensures i < |table| && table[i] <= pos
    ensures forall j :: i < j < |table| ==> table[j] > pos
  {
    if table[|table| - 1] <= pos then |table| - 1
    else LastAtMost(table[..|table| - 1], pos)
  }

  /**
   * `byte_pos_to_location`: line and column of a local byte position; a
   * position at or past the end of the content clamps to the end of the last
   * line.
   */
  function ByteToLocation(file: SourceFile, bytePos: nat, fileId: FileId): (loc: Location)
    requires file.Valid()
    ensures loc.file == fileId && 1 <= loc.line <= |file.lineStarts|
    ensures bytePos < |file.content| ==> file.lineStarts[loc.line - 1] + loc.column == bytePos
    ensures bytePos < |file.content| ==> loc.line == |file.lineStarts| || file.lineStarts[loc.line] > bytePos
    ensures bytePos >= |file.content| ==>
      loc.line == |file.lineStarts| && file.lineStarts[loc.line - 1] + loc.column == |file.content|
  {
    var table := file.lineStarts;
    if bytePos >= |file.content| then
      Location(fileId, |table|, |file.content| - table[|table| - 1])
    else
      var i := LastAtMost(table, bytePos);
      Location(fileId, i + 1, bytePos - table[i])
  }

  /**
   * `location_to_byte_pos`, with `line_start + column` computed without
   * overflow: the position `column` bytes into line `line`, provided it does
   * not run past the start of the next line (or the end of the content on
   * the last line).
   */
  function LocationToBytePos(file: SourceFile, line: nat, column: nat): (r: Option<nat>)
    requires file.Valid()
    ensures r.Some? <==> (1 <= line <= |file.lineStarts| &&
      file.lineStarts[line - 1] + column <= (if line < |file.lineStarts| then file.lineStarts[line] else |file.content|))
    ensures r.Some? ==> r.value <= |file.content| && r.value == file.lineStarts[line - 1] + column
  {
    var table := file.lineStarts;
    if line == 0 || line > |table| then None
    else
      var bytePos := table[line - 1] + column;
      if line < |table| then
        (if bytePos > table[line] then None else Some(bytePos))
      else
        (if bytePos > |file.content| then None else Some(bytePos))
  }

  /** `location_to_byte_pos` exactly as written: the addition wraps in `u32`. */
  function LocationToBytePosAsWritten(file: SourceFile, line: u32, column: u32): (r: Option<u32>)
    requires file.Valid()
    requires |file.content| < U32_MODULUS
    ensures r.Some? ==> 1 <= line <= |file.lineStarts| && r.value <= |file.content|
  {
    var table := file.lineStarts;
    if line == 0 || line > |table| then None
    else
      var bytePos := Wrap(table[line - 1] + column);
      if line < |table| then
        (if bytePos > table[line] then None else Some(bytePos))
      else
        (if bytePos > |file.content| then None else Some(bytePos))
  }

  /**
   * The wrap-around lets a column far past the end of line 2 of "a\nb" land
   * on byte 1, the newline that ends line 1; the overflow-free conversion
   * rejects that location.
   */
  lemma ColumnOverflowCounterexample()
    ensures var file := SourceFile("t", "a\nb", 0, [0, 2]);
      && file.Valid()
      && LocationToBytePosAsWritten(file, 2, U32_MODULUS - 1) == Some(1)
      && ByteToLocation(file, 1, FileId(0)).line == 1
      && LocationToBytePos(file, 2, U32_MODULUS - 1) == None
  {
    var s := "a\nb";
    assert s[..2] == "a\n";
    assert "a\n"[..1] == "a";
    assert "a"[..0] == "";
    assert NewlineEnds("a") == [];
    assert NewlineEnds("a\n") == [2];
    assert NewlineEnds(s) == [2];
  }

  /** Without overflow, the as-written and the overflow-free conversions agree. */
  lemma AsWrittenAgreesWithoutOverflow(file: SourceFile, line: u32, column: u32)
    requires file.Valid() && |file.content| < U32_MODULUS
    requires 1 <= line <= |file.lineStarts|
    requires file.lineStarts[line - 1] + column < U32_MODULUS
    ensures LocationToBytePos(file, line, column).None? <==> LocationToBytePosAsWritten(file, line, column).None?
    ensures LocationToBytePos(file, line, column).Some? ==>
      LocationToBytePos(file, line, column).value == LocationToBytePosAsWritten(file, line, column).value
  {
  }

  /** Every byte of the content survives the trip to a location and back. */
  lemma ByteLocationRoundTrip(file: SourceFile, bytePos: nat, fileId: FileId)
    requires file.Valid() && bytePos < |file.content|
    ensures var loc := ByteToLocation(file, bytePos, fileId);
      LocationToBytePos(file, loc.line, loc.column) == Some(bytePos)
  {
    var i := LastAtMost(file.lineStarts, bytePos);
    if i + 1 < |file.lineStarts| {
      assert file.lineStarts[i + 1] > bytePos;
    }
  }

  /** A position at or past the end of the content maps to the end of the content. */
  lemma EofLocationRoundTrip(file: SourceFile, bytePos: nat, fileId: FileId)
    requires file.Valid() && bytePos >= |file.content|
    ensures var loc := ByteToLocation(file, bytePos, fileId);
      LocationToBytePos(file, loc.line, loc.column) == Some(|file.content|)
  {
  }

  /**
   * The converse trip: a location that names a byte strictly inside its line
   * is the location that byte maps back to.
   */
  lemma LocationByteRoundTrip(file: SourceFile, line: nat, column: nat, fileId: FileId)
    requires file.Valid()
    requires LocationToBytePos(file, line, column).Some?
    requires LocationToBytePos(file, line, column).value < |file.content|
    requires line == |file.lineStarts| || LocationToBytePos(file, line, column).value < file.lineStarts[line]
    ensures ByteToLocation(file, LocationToBytePos(file, line, column).value, fileId) == Location(fileId, line, column)
  {
    LineStartsFacts(file.content);
    var table := file.lineStarts;
    var p := LocationToBytePos(file, line, column).value;
    var i := LastAtMost(table, p);
    assert table[line - 1] <= p;
    if line < |table| {
      assert table[line] > p;
    }
  }

  /**
   * `get_line`: the text of line `n` (1-based) without its newline, or
   * nothing for a line number out of range.
   */
  function GetLine(file: SourceFile, n: nat): (r: Option<string>)
    requires file.Valid()
    ensures r.Some? <==> 1 <= n <= |file.lineStarts|
  {
    var table := file.lineStarts;
    if n == 0 || n > |table| then None
    else
      LineStartsFacts(file.content);
      var start := table[n - 1];
      var end: int := if n < |table| then table[n] - 1 else |file.content|;
      var end': int := if end > start && end <= |file.content| && file.content[end - 1] == '\n' then end - 1 else end;
      Some(file.content[start..end'])
  }

  /**
   * A line runs from its line start up to the next newline or the end of the
   * content, and contains no newline.
   */
  lemma GetLineShape(file: SourceFile, n: nat)
    requires file.Valid() && 1 <= n <= |file.lineStarts|
    ensures var t := GetLine(file, n).value;
      var start := file.lineStarts[n - 1];
      && start + |t| <= |file.content|
      && t == file.content[start..start + |t|]
      && (forall k :: 0 <= k < |t| ==> t[k] != '\n')
      && (start + |t| == |file.content| || file.content[start + |t|] == '\n')
  {
    var table := file.lineStarts;
    var stop: int := if n < |table| then table[n] - 1 else |file.content|;
    LineEnd(file, n, stop);
    assert GetLine(file, n).value == file.content[table[n - 1]..stop];
    LineSliceShape(file.content, table[n - 1], stop);
  }

  /** Line `n` ends just before the next line start, or at the end of the content, on a newline or nowhere. */
  lemma LineEnd(file: SourceFile, n: nat, stop: int)
    requires file.Valid() && 1 <= n <= |file.lineStarts|
    requires stop == if n < |file.lineStarts| then file.lineStarts[n] - 1 else |file.content|
    ensures file.lineStarts[n - 1] <= stop <= |file.content|
    ensures forall j :: file.lineStarts[n - 1] <= j < stop ==> file.content[j] != '\n'
    ensures stop == |file.content| || file.content[stop] == '\n'
  {
    LineStartsFacts(file.content);
    LineBetweenEntries(file.content, file.lineStarts, n, stop);
  }

  /** A slice with no newline inside, followed by a newline or the end, has the shape of a line. */
  lemma LineSliceShape(content: string, start: nat, stop: nat)
    requires start <= stop <= |content|
    requires forall j :: start <= j < stop ==> content[j] != '\n'
    requires stop == |content| || content[stop] == '\n'
    ensures var t := content[start..stop];
      && start + |t| == stop
      && (forall k :: 0 <= k < |t| ==> t[k] != '\n')
      && (stop == |content| || content[stop] == '\n')
  {
  }

  /**
   * In a line table of `content`, the text from entry `n - 1` up to just
   * before entry `n` (or to the end on the last line) holds no newline and
   * is followed by one unless it reaches the end.
   */
  lemma LineBetweenEntries(content: string, table: seq<nat>, n: nat, stop: int)
    requires 1 <= n <= |table| && table[0] == 0
    requires forall k :: 0 <= k < |table| ==> table[k] <= |content|
    requires forall k, l :: 0 <= k < l < |table| ==> table[k] < table[l]
    requires forall k :: 0 < k < |table| ==> content[table[k] - 1] == '\n'
    requires forall j :: 0 <= j < |content| && content[j] == '\n' ==> j + 1 in table
    requires stop == if n < |table| then table[n] - 1 else |content|
    ensures table[n - 1] <= stop <= |content|
    ensures forall j :: table[n - 1] <= j < stop ==> content[j] != '\n'
    ensures stop == |content| || content[stop] == '\n'
  {
    NoEntryInside(table, n, stop);
    forall j | table[n - 1] <= j < stop
      ensures content[j] != '\n'
    {
      assert j + 1 !in table;
    }
  }

  /** In a strictly increasing table no entry lies strictly after entry `n - 1` and up to `hi`, below entry `n`. */
  lemma NoEntryInside(table: seq<nat>, n: nat, hi: int)
    requires forall k, l :: 0 <= k < l < |table| ==> table[k] < table[l]
    requires 1 <= n <= |table| && (n < |table| ==> hi < table[n])
    ensures forall m :: 0 <= m < |table| ==> table[m] <= table[n - 1] || table[m] > hi
  {
    forall m | 0 <= m < |table|
      ensures table[m] <= table[n - 1] || table[m] > hi
    {
      if m < n - 1 {
        assert table[m] < table[n - 1];
      } else if n - 1 < m {
        assert table[n] <= table[m];
      }
    }
  }

  /** `SourceFile::get_span_text`: the local slice a valid, in-range span covers. */
  function FileSpanText(file: SourceFile, span: Span): (r: Option<string>)
    ensures r.Some? <==> span.IsValid() && span.end <= |file.content|
    ensures r.Some? ==>
      |r.value| == span.Len() && forall k :: 0 <= k < |r.value| ==> r.value[k] == file.content[span.start + k]
  {
    if !span.IsValid() || span.end > |file.content| then None
    else Some(file.content[span.start..span.end])
  }

  // ---------------------------------------------------------------------
  // The global byte space
  // ---------------------------------------------------------------------

  /** All contents glued together in order: the global byte space. */
  function Concat(files: seq<SourceFile>): string {
    if files == [] then []
    else Concat(files[..|files| - 1]) + files[|files| - 1].content
  }

  /** Offset of the first byte past the last file. */
  function EndOf(files: seq<SourceFile>): nat {
    if files == [] then 0 else files[|files| - 1].startPos + |files[|files| - 1].content|
  }

  /** The first file starts at 0 and every other file where the previous one ends. */
  ghost predicate Contiguous(files: seq<SourceFile>) {
    && (|files| > 0 ==> files[0].startPos == 0)
    && (forall i :: 0 < i < |files| ==> files[i].startPos == files[i - 1].startPos + |files[i - 1].content|)
  }

  /** In a contiguous layout the files before `i` are exactly `EndOf` long. */
  lemma {:induction false} PrefixLength(files: seq<SourceFile>, i: nat)
    requires Contiguous(files) && i <= |files|
    ensures |Concat(files[..i])| == EndOf(files[..i])
    ensures i < |files| ==> files[i].startPos == |Concat(files[..i])|
  {
    if i > 0 {
      PrefixLength(files, i - 1);
      assert files[..i][..i - 1] == files[..i - 1];
    }
  }

  /** Adding file `i` to the files before it appends its content. */
  lemma PrefixStep(files: seq<SourceFile>, i: nat)
    requires i < |files|
    ensures Concat(files[..i + 1]) == Concat(files[..i]) + files[i].content
  {
    assert files[..i + 1][..i] == files[..i];
  }

  /** The whole layout is `EndOf` bytes long. */
  lemma TotalLength(files: seq<SourceFile>)
    requires Contiguous(files)
    ensures |Concat(files)| == EndOf(files)
  {
    PrefixLength(files, |files|);
    assert files[..|files|] == files;
  }

  /** The glued text of the first `i` files is a prefix of the whole. */
  lemma {:induction false} ConcatPrefix(files: seq<SourceFile>, i: nat)
    requires i <= |files|
    ensures |Concat(files[..i])| <= |Concat(files)|
    ensures Concat(files)[..|Concat(files[..i])|] == Concat(files[..i])
    decreases |files|
  {
    if i == |files| {
      assert files[..i] == files;
    } else {
      var init := files[..|files| - 1];
      ConcatPrefix(init, i);
      assert init[..i] == files[..i];
    }
  }

  /** Under contiguity a file occupies `[startPos, startPos + len)` of the glued text. */
  lemma ConcatAt(files: seq<SourceFile>, i: nat)
    requires Contiguous(files) && i < |files|
    ensures files[i].startPos + |files[i].content| <= |Concat(files)|
    ensures Concat(files)[files[i].startPos..files[i].startPos + |files[i].content|] == files[i].content
  {
    PrefixLength(files, i);
    PrefixStep(files, i);
    ConcatPrefix(files, i + 1);
    var whole := Concat(files);
    var upTo := Concat(files[..i + 1]);
    var sp := files[i].startPos;
    assert whole[sp..sp + |files[i].content|] == upTo[sp..];
  }

  /** A file ends no later than any later file starts. */
  lemma {:induction false} EndsBeforeLaterStart(files: seq<SourceFile>, i: nat, j: nat)
    requires Contiguous(files) && i < j < |files|
    ensures files[i].startPos + |files[i].content| <= files[j].startPos
    decreases j
  {
    if j > i + 1 {
      EndsBeforeLaterStart(files, i, j - 1);
    }
  }

  /** Every file ends no later than the layout does. */
  lemma EndWithinLayout(files: seq<SourceFile>, i: nat)
    requires Contiguous(files) && i < |files|
    ensures files[i].startPos + |files[i].content| <= EndOf(files)
  {
    if i < |files| - 1 {
      EndsBeforeLaterStart(files, i, |files| - 1);
    }
  }

  /** Every file carries the line table of its content. */
  ghost predicate FilesValid(files: seq<SourceFile>) {
    forall i {:trigger files[i].lineStarts} :: 0 <= i < |files| ==> files[i].Valid()
  }

  /** Does this file's range of the global space hold `pos`? */
  predicate Holds(file: SourceFile, pos: nat) {
    file.startPos <= pos < file.startPos + |file.content|
  }

  /** Index of the first file, from `from` on, whose range holds `pos`. */
  function FileContaining(files: seq<SourceFile>, pos: nat, from: nat): (r: Option<nat>)
    requires from <= |files|
    ensures r.Some? ==> from <= r.value < |files| && Holds(files[r.value], pos)
    ensures r.Some? ==> forall j :: from <= j < r.value ==> !Holds(files[j], pos)
    ensures r.None? ==> forall j :: from <= j < |files| ==> !Holds(files[j], pos)
    decreases |files| - from
  {
    if from == |files| then None
    else if Holds(files[from], pos) then Some(from)
    else FileContaining(files, pos, from + 1)
  }

  /** Two files of a contiguous layout never hold the same position. */
  lemma HoldersUnique(files: seq<SourceFile>, pos: nat, i: nat, j: nat)
    requires Contiguous(files) && i < |files| && j < |files|
    requires Holds(files[i], pos) && Holds(files[j], pos)
    ensures i == j
  {
    if i < j {
      EndsBeforeLaterStart(files, i, j);
    } else if j < i {
      EndsBeforeLaterStart(files, j, i);
    }
  }

  /** Some file of a contiguous layout holds every position before its end. */
  lemma {:induction false} SomeFileHolds(files: seq<SourceFile>, pos: nat)
    requires Contiguous(files) && pos < EndOf(files)
    ensures exists k :: 0 <= k < |files| && Holds(files[k], pos)
    decreases |files|
  {
    var n := |files|;
    if files[n - 1].startPos > pos {
      var init := files[..n - 1];
      assert Contiguous(init);
      SomeFileHolds(init, pos);
      var k :| 0 <= k < |init| && Holds(init[k], pos);
      assert Holds(files[k], pos);
    } else {
      assert Holds(files[n - 1], pos);
    }
  }

  /** In a contiguous layout a position has a file exactly when it lies before the end. */
  lemma ContainingIffInside(files: seq<SourceFile>, pos: nat)
    requires Contiguous(files)
    ensures FileContaining(files, pos, 0).Some? <==> pos < EndOf(files)
  {
    if pos < EndOf(files) {
      SomeFileHolds(files, pos);
    }
    var r := FileContaining(files, pos, 0);
    if r.Some? && r.value < |files| - 1 {
      EndsBeforeLaterStart(files, r.value, |files| - 1);
    }
  }

  /** The location a global position resolves to, as `lookup_location` computes it. */
  ghost function LocationOf(files: seq<SourceFile>, pos: nat): (r: Option<Location>)
    requires FilesValid(files)
    ensures r.Some? ==> r.value.file.id < |files| && Holds(files[r.value.file.id], pos)
  {
    match FileContaining(files, pos, 0)
    case None => None
    case Some(i) => Some(ByteToLocation(files[i], pos - files[i].startPos, FileId(i)))
  }

  /**
   * The text a global span covers: the slice of the glued contents when the
   * span ends inside them, the empty text for an empty span anywhere, and
   * nothing for an invalid span or one that runs past the last file.
   */
  ghost function SpanTextOf(files: seq<SourceFile>, span: Span): Option<string> {
    if !span.IsValid() then None
    else if span.end <= |Concat(files)| then Some(Concat(files)[span.start..span.end])
    else if span.start == span.end then Some([])
    else None
  }

  /**
   * The state of the span-text walk after the files glued into `text`: once
   * the span has started, the covered end is where the span or the text ends,
   * whichever is first, and the result is the text in between; before that,
   * nothing is covered.
   */
  ghost predicate CoveredSoFar(text: string, start: nat, end: nat, covered: int, result: string) {
    && start <= end
    && (start < |text| ==> covered == Min(end, |text|) && result == text[start..covered])
    && (start >= |text| ==> covered == start && result == [])
  }

  /** One file of the span-text walk keeps `CoveredSoFar`, whether or not it overlaps the span. */
  lemma CoverStep(before: string, content: string, start: nat, end: nat, covered: int, result: string)
    requires CoveredSoFar(before, start, end, covered, result)
    ensures var sp := |before|;
      var fe := sp + |content|;
      if covered < fe && end > sp && covered >= sp then
        var ls := Max(covered, sp) - sp;
        var le := Min(end, fe) - sp;
        && 0 <= ls <= le <= |content|
        && CoveredSoFar(before + content, start, end, sp + le, result + content[ls..le])
      else
        CoveredSoFar(before + content, start, end, covered, result)
  {
    var whole := before + content;
    var sp := |before|;
    var fe := sp + |content|;
    if covered < fe && end > sp && covered >= sp {
      var ls := Max(covered, sp) - sp;
      var le := Min(end, fe) - sp;
      if start < sp {
        assert covered == sp;
        assert whole[start..sp] == result;
        assert whole[sp..sp + le] == content[ls..le];
        assert whole[start..sp + le] == whole[start..sp] + whole[sp..sp + le];
      } else {
        assert whole[start..sp + le] == content[ls..le];
      }
    } else if start < |before| {
      assert whole[start..covered] == before[start..covered];
    }
  }

  /**
   * One file of the span-text walk: when the file continues the covered part
   * of the span, its share of the span is appended and the covered end moves
   * to where that share ends.
   */
  method CoverFile(file: SourceFile, span: Span, coveredEnd: int, result: string, ghost done: string)
    returns (coveredEnd': int, result': string)
    requires file.startPos == |done|
    requires CoveredSoFar(done, span.start, span.end, coveredEnd, result)
    ensures CoveredSoFar(done + file.content, span.start, span.end, coveredEnd', result')
  {
    CoverStep(done, file.content, span.start, span.end, coveredEnd, result);
    coveredEnd', result' := coveredEnd, result;
    var fileEnd := file.startPos + |file.content|;
    if coveredEnd < fileEnd && span.end > file.startPos && coveredEnd >= file.startPos {
      var localStart := Max(coveredEnd, file.startPos) - file.startPos;
      var localEnd := Min(span.end, fileEnd) - file.startPos;
      var spanText := FileSpanText(file, Span(localStart, localEnd));
      if spanText.None? {
        assert false;
        return;
      }
      result' := result + spanText.value;
      coveredEnd' := file.startPos + localEnd;
    }
  }

  /** At the end of the walk `CoveredSoFar` yields exactly the span text. */
  lemma CoverDone(files: seq<SourceFile>, span: Span, covered: int, result: string)
    requires CoveredSoFar(Concat(files), span.start, span.end, covered, result)
    ensures (if covered >= span.end then Some(result) else None) == SpanTextOf(files, span)
  {
    var text := Concat(files);
    if span.start >= |text| && span.end <= |text| {
      assert text[span.start..span.end] == [];
    }
  }

  /** The name-to-id index of a sequence of files: each name maps to the last file carrying it. */
  function NameIndex(files: seq<SourceFile>): map<string, FileId> {
    if files == [] then map[]
    else NameIndex(files[..|files| - 1])[files[|files| - 1].name := FileId(|files| - 1)]
  }

  /** A name is indexed exactly when some file carries it, and it maps to such a file. */
  lemma {:induction false} NameIndexCorrect(files: seq<SourceFile>, name: string)
    ensures name in NameIndex(files) <==> exists i :: 0 <= i < |files| && files[i].name == name
    ensures name in NameIndex(files) ==>
      NameIndex(files)[name].id < |files| && files[NameIndex(files)[name].id].name == name
    decreases |files|
  {
    if files != [] {
      var init := files[..|files| - 1];
      NameIndexCorrect(init, name);
      if name != files[|files| - 1].name && exists i :: 0 <= i < |files| && files[i].name == name {
        var i :| 0 <= i < |files| && files[i].name == name;
        assert init[i].name == name;
      }
    }
  }

  // ---------------------------------------------------------------------
  // SourceMap
  // ---------------------------------------------------------------------

  /** A location rendered as "name:line:column", the column printed 1-based. */
  function LocationText(name: string, loc: Location): string {
    name + ":" + DecimalString(loc.line) + ":" + DecimalString(Wrap(loc.column + 1))
  }

  class SourceMap {
    var files: seq<SourceFile>
    var fileIdMap: map<string, FileId>
    var nextStartPos: nat

    /** Files are laid out contiguously, indexed by name, and `nextStartPos` is where the next one goes. */
    ghost predicate Valid()
      reads this
    {
      && FilesValid(files)
      && Contiguous(files)
      && nextStartPos == EndOf(files)
      && fileIdMap == NameIndex(files)
    }

    /** `SourceMap() = default`: no files, offset 0. */
    constructor ()
      ensures Valid()
      ensures files == [] && fileIdMap == map[] && nextStartPos == 0
    {
      files, fileIdMap, nextStartPos := [], map[], 0;
    }

    /**
     * `add_file`: a name already present returns its id and changes nothing;
     * a new file gets the next id, starts at `nextStartPos` and moves it on
     * by the length of its content.
     */
    method AddFile(name: string, content: string) returns (fileId: FileId)
      requires Valid()
      modifies this
      ensures Valid()
      ensures name in old(fileIdMap) ==>
        fileId == old(fileIdMap)[name] && files == old(files) &&
        fileIdMap == old(fileIdMap) && nextStartPos == old(nextStartPos)
      ensures name !in old(fileIdMap) ==>
        fileId == FileId(|old(files)|) &&
        files == old(files) + [SourceFile(name, content, old(nextStartPos), LineStarts(content))] &&
        fileIdMap == old(fileIdMap)[name := fileId] &&
        nextStartPos == old(nextStartPos) + |content|
      ensures fileId.id < |files| && files[fileId.id].name == name
    {
      if name in fileIdMap {
        NameIndexCorrect(files, name);
        return fileIdMap[name];
      }
      fileId := FileId(|files|);
      var file := NewSourceFile(name, content, nextStartPos);
      ghost var before := files;
      files := files + [file];
      fileIdMap := fileIdMap[name := fileId];
      nextStartPos := nextStartPos + |content|;
      assert files[..|files| - 1] == before;
      forall i | 0 <= i < |files|
        ensures files[i].Valid()
      {
        if i < |before| {
          assert files[i] == before[i] && before[i].lineStarts == before[i].lineStarts;
        }
      }
      assert Contiguous(files) by {
        forall i | 0 < i < |files|
          ensures files[i].startPos == files[i - 1].startPos + |files[i - 1].content|
        {
          if i < |before| {
            assert files[i] == before[i] && files[i - 1] == before[i - 1];
          }
        }
      }
    }

    /** `get_file`: the file with that id, if there is one. */
    function GetFile(fileId: FileId): (r: Option<SourceFile>)
      reads this
      ensures r.Some? <==> fileId.id < |files|
      ensures r.Some? ==> r.value == files[fileId.id]
    {
      if fileId.id >= |files| then None else Some(files[fileId.id])
    }

    /** `get_file_id`: the id registered for a name. */
    function GetFileId(name: string): (r: Option<FileId>)
      reads this
      requires Valid()
      ensures r.Some? <==> exists i :: 0 <= i < |files| && files[i].name == name
      ensures r.Some? ==> r.value.id < |files| && files[r.value.id].name == name
    {
      NameIndexCorrect(files, name);
      if name in fileIdMap then Some(fileIdMap[name]) else None
    }

    /**
     * `lookup_location`: scans the files in order for the one whose range
     * holds `globalPos` and converts the local offset in it.
     */
    method LookupLocation(globalPos: nat) returns (r: Option<Location>)
      requires Valid()
      ensures r == LocationOf(files, globalPos)
      ensures r.Some? <==> globalPos < nextStartPos
    {
      ContainingIffInside(files, globalPos);
      var i := 0;
      while i < |files|
        invariant 0 <= i <= |files|
        invariant FileContaining(files, globalPos, 0) == FileContaining(files, globalPos, i)
      {
        var file := files[i];
        var fileEnd := file.startPos + |file.content|;
        if globalPos >= file.startPos && globalPos < fileEnd {
          var localPos := globalPos - file.startPos;
          return Some(ByteToLocation(file, localPos, FileId(i)));
        }
        i := i + 1;
      }
      return None;
    }

    /** `lookup_byte_pos`: the global offset of a location, when its file and position exist. */
    function LookupBytePos(loc: Location): (r: Option<nat>)
      reads this
      requires Valid()
      ensures r.Some? <==> loc.file.id < |files| && LocationToBytePos(files[loc.file.id], loc.line, loc.column).Some?
      ensures r.Some? ==> files[loc.file.id].startPos <= r.value <= EndOf(files)
      ensures r.Some? ==> r.value == files[loc.file.id].startPos + LocationToBytePos(files[loc.file.id], loc.line, loc.column).value
    {
      match GetFile(loc.file)
      case None => None
      case Some(file) =>
        match LocationToBytePos(file, loc.line, loc.column)
        case None => None
        case Some(localPos) =>
          EndWithinLayout(files, loc.file.id);
          Some(file.startPos + localPos)
    }

    /**
     * `get_span_text`: walks the files in order, appending the part of each
     * that continues the covered prefix of the span; succeeds only when the
     * whole span was covered.
     */
    method GetSpanText(span: Span) returns (r: Option<string>)
      requires Valid()
      ensures r == SpanTextOf(files, span)
    {
      if !span.IsValid() {
        return None;
      }
      var result: string := [];
      var coveredEnd: int := span.start;
      ghost var done: string := [];
      var i := 0;
      while i < |files|
        invariant 0 <= i <= |files|
        invariant done == Concat(files[..i])
        invariant CoveredSoFar(done, span.start, span.end, coveredEnd, result)
      {
        PrefixLength(files, i);
        PrefixStep(files, i);
        coveredEnd, result := CoverFile(files[i], span, coveredEnd, result, done);
        done := done + files[i].content;
        i := i + 1;
      }
      assert files[..|files|] == files;
      CoverDone(files, span, coveredEnd, result);
      if coveredEnd >= span.end {
        return Some(result);
      }
      return None;
    }

    /** `get_line_at_location`: the text of the location's line in its file. */
    function GetLineAtLocation(loc: Location): (r: Option<string>)
      reads this
      requires Valid()
      ensures r.Some? <==> loc.file.id < |files| && 1 <= loc.line <= |files[loc.file.id].lineStarts|
      ensures r.Some? ==> r == GetLine(files[loc.file.id], loc.line)
    {
      match GetFile(loc.file)
      case None => None
      case Some(file) => GetLine(file, loc.line)
    }

    /**
     * `make_span`: the global span between two line/column positions of one
     * file, or the empty span when the file or either position does not
     * exist. The sums are taken in `u32`.
     */
    function MakeSpan(fileId: FileId, startLine: nat, startCol: nat, endLine: nat, endCol: nat): (r: Span)
      reads this
      requires Valid()
      ensures fileId.id >= |files| ==> r == EmptySpan
      ensures fileId.id < |files| ==>
        var file := files[fileId.id];
        var a := LocationToBytePos(file, startLine, startCol);
        var b := LocationToBytePos(file, endLine, endCol);
        (a.None? || b.None? ==> r == EmptySpan) &&
        (a.Some? && b.Some? ==> r == Span(Wrap(file.startPos + a.value), Wrap(file.startPos + b.value))) &&
        (a.Some? && b.Some? && file.startPos + b.value < U32_MODULUS && file.startPos + a.value < U32_MODULUS ==>
          r == Span(file.startPos + a.value, file.startPos + b.value))
    {
      match GetFile(fileId)
      case None => EmptySpan
      case Some(file) =>
        var startPos := LocationToBytePos(file, startLine, startCol);
        var endPos := LocationToBytePos(file, endLine, endCol);
        if startPos.None? || endPos.None? then EmptySpan
        else Span(Wrap(file.startPos + startPos.value), Wrap(file.startPos + endPos.value))
    }

    /** `format_location`: "name:line:column" with the column printed 1-based. */
    function FormatLocation(loc: Location): (r: string)
      reads this
      ensures loc.file.id >= |files| ==> r == "<unknown>"
      ensures loc.file.id < |files| ==> r == LocationText(files[loc.file.id].name, loc)
    {
      match GetFile(loc.file)
      case None => "<unknown>"
      case Some(file) => LocationText(file.name, loc)
    }

    /**
     * The rendering of a span from its two end locations: "name:line:colA-colB"
     * when both are on one line of one file, otherwise the two formatted
     * locations joined by "-".
     */
    ghost function RenderSpan(s: Location, e: Location): string
      reads this
    {
      if s.file == e.file && s.line == e.line then FormatLocation(s) + "-" + DecimalString(Wrap(e.column + 1))
      else FormatLocation(s) + "-" + FormatLocation(e)
    }

    /** Both ends on one line: the rendering is the start location and the end column. */
    lemma SameLineRendering(s: Location, e: Location, text: string, endColumn: string)
      requires s.file == e.file && s.line == e.line && s.file.id < |files|
      requires text == LocationText(files[s.file.id].name, s) && endColumn == DecimalString(Wrap(e.column + 1))
      ensures RenderSpan(s, e) == text + "-" + endColumn
    {
    }

    /**
     * `format_span`: the rendering of the locations of the first character
     * and of the character before the end. The end is looked up at
     * `end - 1`, computed in `u32`; a span whose ends do not both resolve
     * has no rendering.
     */
    method FormatSpan(span: Span) returns (r: Option<string>)
      requires Valid()
      ensures r.Some? <==> span.start < EndOf(files) && Wrap(span.end - 1) < EndOf(files)
      ensures r.Some? ==>
        LocationOf(files, span.start).Some? && LocationOf(files, Wrap(span.end - 1)).Some? &&
        r.value == RenderSpan(LocationOf(files, span.start).value, LocationOf(files, Wrap(span.end - 1)).value)
    {
      var startLoc := LookupLocation(span.start);
      var endLoc := LookupLocation(Wrap(span.end - 1));
      if startLoc.None? || endLoc.None? {
        return None;
      }
      var s := startLoc.value;
      var e := endLoc.value;
      ghost var rendering := RenderSpan(s, e);
      if s.file == e.file && s.line == e.line {
        var file := GetFile(s.file);
        if file.None? {
          assert false;
          return None;
        }
        var text := LocationText(file.value.name, s);
        var endColumn := DecimalString(Wrap(e.column + 1));
        var whole := text + "-" + endColumn;
        SameLineRendering(s, e, text, endColumn);
        return Some(whole);
      }
      var whole := FormatLocation(s) + "-" + FormatLocation(e);
      assert whole == rendering;
      return Some(whole);
    }
  }

  // ---------------------------------------------------------------------
  // Properties of the global space
  // ---------------------------------------------------------------------

  /**
   * A position resolves exactly when it lies before the end of the last file;
   * it then resolves to the local offset inside the one file that holds it.
   */
  lemma LocationOfCharacterized(files: seq<SourceFile>, pos: nat)
    requires FilesValid(files)
    requires Contiguous(files)
    ensures LocationOf(files, pos).Some? <==> pos < EndOf(files)
    ensures LocationOf(files, pos).Some? ==>
      var loc := LocationOf(files, pos).value;
      && loc.file.id < |files| && Holds(files[loc.file.id], pos)
      && loc == ByteToLocation(files[loc.file.id], pos - files[loc.file.id].startPos, loc.file)
      && forall j :: 0 <= j < |files| && Holds(files[j], pos) ==> j == loc.file.id
  {
    ContainingIffInside(files, pos);
    if LocationOf(files, pos).Some? {
      var k := LocationOf(files, pos).value.file.id;
      forall j | 0 <= j < |files| && Holds(files[j], pos)
        ensures j == k
      {
        HoldersUnique(files, pos, j, k);
      }
    }
  }

  /**
   * The end of one file is the start of the next: it resolves to line 1,
   * column 0 of the following file when that file is not empty.
   */
  lemma FileBoundaryBelongsToNextFile(files: seq<SourceFile>, i: nat)
    requires FilesValid(files)
    requires Contiguous(files)
    requires i + 1 < |files| && |files[i + 1].content| > 0
    ensures LocationOf(files, files[i].startPos + |files[i].content|) == Some(Location(FileId(i + 1), 1, 0))
  {
    var pos := files[i].startPos + |files[i].content|;
    assert files[i + 1].startPos == pos;
    assert Holds(files[i + 1], pos);
    var r := FileContaining(files, pos, 0);
    HoldersUnique(files, pos, r.value, i + 1);
    assert LocationOf(files, pos) == Some(ByteToLocation(files[i + 1], 0, FileId(i + 1)));
    FirstByteIsLineOne(files[i + 1], FileId(i + 1));
  }

  /** The first byte of a non-empty content is line 1, column 0. */
  lemma FirstByteIsLineOne(file: SourceFile, fileId: FileId)
    requires file.Valid() && |file.content| > 0
    ensures ByteToLocation(file, 0, fileId) == Location(fileId, 1, 0)
  {
    LineStartsFacts(file.content);
  }

  /** A located byte converts back to the same local offset of its file. */
  lemma LookupRoundTrip(files: seq<SourceFile>, pos: nat)
    requires FilesValid(files)
    requires Contiguous(files)
    requires pos < EndOf(files)
    ensures LocationOf(files, pos).Some?
    ensures var loc := LocationOf(files, pos).value;
      && loc.file.id < |files|
      && LocationToBytePos(files[loc.file.id], loc.line, loc.column) == Some(pos - files[loc.file.id].startPos)
  {
    LocationOfCharacterized(files, pos);
    var loc := LocationOf(files, pos).value;
    ByteLocationRoundTrip(files[loc.file.id], pos - files[loc.file.id].startPos, loc.file);
  }

  /** Within one file, the global span text is that file's local slice. */
  lemma SpanTextInsideFile(files: seq<SourceFile>, i: nat, a: nat, b: nat)
    requires Contiguous(files) && i < |files|
    requires a <= b <= |files[i].content|
    requires files[i].startPos + b < U32_MODULUS
    ensures SpanTextOf(files, Span(files[i].startPos + a, files[i].startPos + b)) == Some(files[i].content[a..b])
  {
    ConcatAt(files, i);
    SliceOfSlice(Concat(files), files[i].startPos, files[i].startPos + |files[i].content|, a, b);
  }

  /** A slice of a slice is a slice of the whole, shifted by the outer start. */
  lemma SliceOfSlice(t: string, lo: nat, hi: nat, a: nat, b: nat)
    requires lo <= hi <= |t| && a <= b <= hi - lo
    ensures t[lo + a..lo + b] == t[lo..hi][a..b]
  {
    assert forall k :: 0 <= k < b - a ==> t[lo + a..lo + b][k] == t[lo + a + k] == t[lo..hi][a..b][k];
  }

  /** `lookup_byte_pos` undoes `lookup_location` for every position inside some file. */
  lemma LookupBytePosInvertsLocation(sm: SourceMap, pos: nat)
    requires sm.Valid() && pos < sm.nextStartPos
    ensures LocationOf(sm.files, pos).Some?
    ensures sm.LookupBytePos(LocationOf(sm.files, pos).value) == Some(pos)
  {
    LookupRoundTrip(sm.files, pos);
  }

  /**
   * `make_span` over two in-range positions of one file, in order and below
   * the `u32` limit, names exactly the text between them.
   */
  lemma MakeSpanCoversText(sm: SourceMap, fileId: FileId, startLine: nat, startCol: nat, endLine: nat, endCol: nat)
    requires sm.Valid() && fileId.id < |sm.files|
    requires LocationToBytePos(sm.files[fileId.id], startLine, startCol).Some?
    requires LocationToBytePos(sm.files[fileId.id], endLine, endCol).Some?
    requires LocationToBytePos(sm.files[fileId.id], startLine, startCol).value <=
             LocationToBytePos(sm.files[fileId.id], endLine, endCol).value
    requires sm.files[fileId.id].startPos + LocationToBytePos(sm.files[fileId.id], endLine, endCol).value < U32_MODULUS
    ensures var file := sm.files[fileId.id];
      var a := LocationToBytePos(file, startLine, startCol).value;
      var b := LocationToBytePos(file, endLine, endCol).value;
      SpanTextOf(sm.files, sm.MakeSpan(fileId, startLine, startCol, endLine, endCol)) == Some(file.content[a..b])
  {
    var file := sm.files[fileId.id];
    SpanTextInsideFile(sm.files, fileId.id,
      LocationToBytePos(file, startLine, startCol).value, LocationToBytePos(file, endLine, endCol).value);
  }

  /**
   * A formatted location reads back: the file name, a colon, the line in
   * decimal, a colon and the 1-based column in decimal.
   */
  lemma FormatLocationReadsBack(sm: SourceMap, loc: Location)
    requires loc.file.id < |sm.files|
    ensures var r := sm.FormatLocation(loc);
      var name := sm.files[loc.file.id].name;
      var n := |name| + 1 + |DecimalString(loc.line)|;
      && |r| > n + 1
      && r[..|name|] == name && r[|name|] == ':' && r[n] == ':'
      && (forall k :: |name| < k < n ==> IsDigitChar(r[k]))
      && (forall k :: n < k < |r| ==> IsDigitChar(r[k]))
      && DecimalValue(r[|name| + 1..n]) == loc.line
      && DecimalValue(r[n + 1..]) == Wrap(loc.column + 1)
      && (loc.column + 1 < U32_MODULUS ==> DecimalValue(r[n + 1..]) == loc.column + 1)
      && (loc.column == U32_MODULUS - 1 ==> r[n + 1..] == "0")
  {
    var name := sm.files[loc.file.id].name;
    var line := DecimalString(loc.line);
    var column := DecimalString(Wrap(loc.column + 1));
    assert sm.FormatLocation(loc) == name + ":" + line + ":" + column;
    ColonJoinShape(name, line, column);
    DecimalRoundTrip(loc.line);
    DecimalRoundTrip(Wrap(loc.column + 1));
    if loc.column == U32_MODULUS - 1 {
      assert Wrap(loc.column + 1) == 0;
    }
  }

  /** The pieces of `name:a:b` sit where the two colons put them. */
  lemma ColonJoinShape(name: string, a: string, b: string)
    requires |a| >= 1 && |b| >= 1
    ensures var r := name + ":" + a + ":" + b;
      var n := |name| + 1 + |a|;
      && |r| == n + 1 + |b|
      && r[..|name|] == name && r[|name|] == ':' && r[n] == ':'
      && r[|name| + 1..n] == a && r[n + 1..] == b
  {
    var r := name + ":" + a + ":" + b;
    var n := |name| + 1 + |a|;
    assert r[..|name|] == name;
    assert r[|name| + 1..n] == a;
    assert r[n + 1..] == b;
  }
}
