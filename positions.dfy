/**
 * How the editor host addresses a text document: zero-based (line, character)
 * positions, ranges whose start never comes after their end, the conversions
 * between positions and character offsets (`offsetAt`, `positionAt`), and the
 * reading (`getText`) and splicing (`replace`) of the text inside a range.
 * Positions past the end of a line or of the document are clamped, as the
 * host does before it reads or edits. Lines are separated by '\n'.
 */
module Positions {
  import opened Common

  /** A zero-based position; `character` counts from the start of the line. */
  datatype Position = Position(line: nat, character: nat)

  /** A range of a document, from `start` to `end`. */
  datatype Range = Range(start: Position, end: Position)

  /** `a` is at or before `b` in document order. */
  predicate Before(a: Position, b: Position) {
    a.line < b.line || (a.line == b.line && a.character <= b.character)
  }

  /** The host builds a range from two positions by putting the earlier one first. */
  function MakeRange(a: Position, b: Position): (r: Range)
    ensures Before(r.start, r.end)
    ensures (r.start == a && r.end == b) || (r.start == b && r.end == a)
    ensures Before(a, b) ==> r.start == a && r.end == b
  {
    if Before(a, b) then Range(a, b) else Range(b, a)
  }

  /** The offset of the first line break, or the length of the text if it has none. */
  function LineEnd(text: string): (k: nat)
    ensures k <= |text|
    ensures k < |text| ==> text[k] == '\n'
    ensures forall j :: 0 <= j < k ==> text[j] != '\n'
  {
    if text == [] || text[0] == '\n' then 0 else 1 + LineEnd(text[1..])
  }

  /**
   * `p` names a character position that exists in `text`: its line exists
   * and its character is at most that line's length.
   */
  predicate ValidPosition(text: string, p: Position)
    decreases |text|
  {
    var k := LineEnd(text);
    if p.line == 0 then p.character <= k
    else k < |text| && ValidPosition(text[k + 1..], Position(p.line - 1, p.character))
  }

  /**
   * The offset of position `p` in `text` (the host's `offsetAt`). A character
   * past the end of its line is clamped to the line end, and a line past the
   * last one is clamped to the end of the document.
   */
  function OffsetAt(text: string, p: Position): (o: nat)
    ensures o <= |text|
    decreases |text|
  {
    var k := LineEnd(text);
    if p.line == 0 then Min(p.character, k)
    else if k == |text| then |text|
    else k + 1 + OffsetAt(text[k + 1..], Position(p.line - 1, p.character))
  }

  /**
   * The position of `offset` in `text` (the host's `positionAt`); an offset
   * past the end of the document is clamped to the end.
   */
  function PositionAt(text: string, offset: nat): (p: Position)
    ensures ValidPosition(text, p)
    decreases |text|
  {
    var k := LineEnd(text);
    if offset <= k || k == |text| then Position(0, Min(offset, k))
    else
      var p := PositionAt(text[k + 1..], offset - k - 1);
      Position(p.line + 1, p.character)
  }

  /** `OffsetAt` undoes `PositionAt`, up to the clamping of the offset. */
  lemma {:induction false} OffsetAtPositionAt(text: string, offset: nat)
    ensures OffsetAt(text, PositionAt(text, offset)) == Min(offset, |text|)
    decreases |text|
  {
    var k := LineEnd(text);
    if offset > k && k < |text| {
      var rest := text[k + 1..];
      var p := PositionAt(rest, offset - k - 1);
      OffsetAtPositionAt(rest, offset - k - 1);
      assert PositionAt(text, offset) == Position(p.line + 1, p.character);
      assert OffsetAt(text, Position(p.line + 1, p.character)) == k + 1 + OffsetAt(rest, p);
    }
  }

  /** `PositionAt` undoes `OffsetAt` on every position that exists in the text. */
  lemma {:induction false} PositionAtOffsetAt(text: string, p: Position)
    requires ValidPosition(text, p)
    ensures PositionAt(text, OffsetAt(text, p)) == p
    decreases |text|
  {
    var k := LineEnd(text);
    if p.line != 0 {
      var q := Position(p.line - 1, p.character);
      PositionAtOffsetAt(text[k + 1..], q);
      assert OffsetAt(text, p) == k + 1 + OffsetAt(text[k + 1..], q);
    }
  }

  /** Up to the first line break, `PositionAt` stays on the first line. */
  lemma PositionAtFirstLine(text: string, o: nat)
    requires o <= LineEnd(text)
    ensures PositionAt(text, o) == Position(0, o)
  {
  }

  /** Past the first line break, `PositionAt` moves one line down into the rest of the text. */
  lemma PositionAtNextLine(text: string, o: nat)
    requires LineEnd(text) < |text| && LineEnd(text) < o
    ensures var r := PositionAt(text[LineEnd(text) + 1..], o - LineEnd(text) - 1);
      PositionAt(text, o) == Position(r.line + 1, r.character)
  {
  }

  /** Below the first line, `OffsetAt` counts on from the start of the second line. */
  lemma OffsetAtNextLine(text: string, p: Position)
    requires LineEnd(text) < |text| && p.line != 0
    ensures OffsetAt(text, p) ==
      LineEnd(text) + 1 + OffsetAt(text[LineEnd(text) + 1..], Position(p.line - 1, p.character))
  {
  }

  /** The position of `OffsetAt(text, p)` is at or before `p`. */
  lemma {:induction false} OffsetAtNotAfter(text: string, p: Position)
    ensures Before(PositionAt(text, OffsetAt(text, p)), p)
    decreases |text|
  {
    var k := LineEnd(text);
    if p.line == 0 {
      assert OffsetAt(text, p) == Min(p.character, k);
      PositionAtFirstLine(text, OffsetAt(text, p));
    } else if k == |text| {
      assert OffsetAt(text, p) == |text|;
      PositionAtFirstLine(text, |text|);
    } else {
      var p' := Position(p.line - 1, p.character);
      OffsetAtNotAfter(text[k + 1..], p');
      OffsetAtNextLine(text, p);
      PositionAtNextLine(text, OffsetAt(text, p));
    }
  }

  /** An offset on the first line past `OffsetAt(text, p)` has a position after `p`. */
  lemma OffsetAtIsLastOnFirstLine(text: string, p: Position, o: nat)
    requires OffsetAt(text, p) < o <= LineEnd(text)
    ensures !Before(PositionAt(text, o), p)
  {
    var k := LineEnd(text);
    if p.line == 0 {
      assert OffsetAt(text, p) == Min(p.character, k);
      PositionAtFirstLine(text, o);
    }
  }

  /** Every offset past `OffsetAt(text, p)` has a position after `p`. */
  lemma {:induction false} OffsetAtIsLast(text: string, p: Position, o: nat)
    requires OffsetAt(text, p) < o <= |text|
    ensures !Before(PositionAt(text, o), p)
    decreases |text|
  {
    var k := LineEnd(text);
    if o <= k {
      OffsetAtIsLastOnFirstLine(text, p, o);
    } else {
      var rest := text[k + 1..];
      var r := PositionAt(rest, o - k - 1);
      PositionAtNextLine(text, o);
      assert PositionAt(text, o) == Position(r.line + 1, r.character);
      if p.line != 0 {
        var p' := Position(p.line - 1, p.character);
        OffsetAtNextLine(text, p);
        OffsetAtIsLast(rest, p', o - k - 1);
        assert !Before(r, p');
      }
    }
  }

  /**
   * `OffsetAt` clamps: the offset of `p` is the last offset whose position is
   * at or before `p`, so a character past its line's end resolves to that
   * line's end and a line past the last resolves to the end of the document.
   */
  lemma OffsetAtClamps(text: string, p: Position)
    ensures Before(PositionAt(text, OffsetAt(text, p)), p)
    ensures forall o: nat :: OffsetAt(text, p) < o <= |text| ==> !Before(PositionAt(text, o), p)
  {
    OffsetAtNotAfter(text, p);
    forall o: nat | OffsetAt(text, p) < o <= |text|
      ensures !Before(PositionAt(text, o), p)
    {
      OffsetAtIsLast(text, p, o);
    }
  }

  /** Later positions have later (or equal) offsets. */
  lemma {:induction false} OffsetAtMonotone(text: string, a: Position, b: Position)
    requires Before(a, b)
    ensures OffsetAt(text, a) <= OffsetAt(text, b)
    decreases |text|
  {
    var k := LineEnd(text);
    if a.line != 0 && k < |text| {
      var a', b' := Position(a.line - 1, a.character), Position(b.line - 1, b.character);
      OffsetAtMonotone(text[k + 1..], a', b');
      assert OffsetAt(text, a) == k + 1 + OffsetAt(text[k + 1..], a');
      assert OffsetAt(text, b) == k + 1 + OffsetAt(text[k + 1..], b');
    }
  }

  /** Later offsets have later (or equal) positions. */
  lemma {:induction false} PositionAtMonotone(text: string, o1: nat, o2: nat)
    requires o1 <= o2
    ensures Before(PositionAt(text, o1), PositionAt(text, o2))
    decreases |text|
  {
    var k := LineEnd(text);
    if o1 > k && k < |text| {
      PositionAtMonotone(text[k + 1..], o1 - k - 1, o2 - k - 1);
    }
  }

  /** The text inside range `r` (the host's `getText(range)`). */
  function GetText(text: string, r: Range): (s: string)
    requires Before(r.start, r.end)
    ensures text == text[..OffsetAt(text, r.start)] + s + text[OffsetAt(text, r.end)..]
    ensures |s| == OffsetAt(text, r.end) - OffsetAt(text, r.start)
  {
    OffsetAtMonotone(text, r.start, r.end);
    text[OffsetAt(text, r.start)..OffsetAt(text, r.end)]
  }

  /**
   * `text` with the text inside `r` replaced by `newText` (the host's
   * `replace(range, newText)`): everything before the range and everything
   * after it is kept, and the range now holds exactly `newText`.
   */
  function ReplaceRange(text: string, r: Range, newText: string): (result: string)
    requires Before(r.start, r.end)
    ensures var s, e := OffsetAt(text, r.start), OffsetAt(text, r.end);
      && s <= e
      && |result| == |text| - (e - s) + |newText|
      && result[..s] == text[..s]
      && result[s..s + |newText|] == newText
      && result[s + |newText|..] == text[e..]
      && text[s..e] == GetText(text, r)
  {
    OffsetAtMonotone(text, r.start, r.end);
    var s, e := OffsetAt(text, r.start), OffsetAt(text, r.end);
    text[..s] + newText + text[e..]
  }
}
