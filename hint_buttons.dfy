/**
 Assembly of the button row shown under a displayed dataframe: the hint
 button goes first, the caller's buttons follow, and the row is the
 buttons joined by newlines.
 */
module HintButtons {
  import opened Wrappers

  /** Python's `'\n'.join(parts)`. */
  function JoinLines(parts: seq<string>): (r: string)
    ensures |parts| == 0 ==> r == ""
    ensures |parts| > 0 ==> |r| == TotalLength(parts) + |parts| - 1
  {
    if |parts| == 0 then ""
    else if |parts| == 1 then parts[0]
    else parts[0] + "\n" + JoinLines(parts[1..])
  }

  /** The sum of the lengths of the parts. */
  function TotalLength(parts: seq<string>): nat
  {
    if parts == [] then 0 else |parts[0]| + TotalLength(parts[1..])
  }

  /** Where part `i` starts in `JoinLines(parts)`: every earlier part plus its separator. */
  function Offset(parts: seq<string>, i: nat): nat
    requires i <= |parts|
  {
    if i == 0 then 0 else |parts[0]| + 1 + Offset(parts[1..], i - 1)
  }

  lemma {:induction false} OffsetBound(parts: seq<string>, i: nat)
    requires i < |parts|
    ensures Offset(parts, i) + |parts[i]| <= TotalLength(parts) + |parts| - 1
  {
    if i > 0 {
      OffsetBound(parts[1..], i - 1);
    } else {
      TotalLengthFirst(parts);
    }
  }

  lemma TotalLengthFirst(parts: seq<string>)
    requires parts != []
    ensures |parts[0]| <= TotalLength(parts)
  {
  }

  /**
   The joined text is each part, in order, with exactly one newline between
   neighbours: part `i` sits at `Offset(parts, i)` and is preceded by a
   newline when it is not the first.
   */
  lemma {:induction false} JoinLinesAt(parts: seq<string>, i: nat)
    requires i < |parts|
    ensures Offset(parts, i) + |parts[i]| <= |JoinLines(parts)|
    ensures JoinLines(parts)[Offset(parts, i)..Offset(parts, i) + |parts[i]|] == parts[i]
    ensures i > 0 ==> JoinLines(parts)[Offset(parts, i) - 1] == '\n'
  {
    OffsetBound(parts, i);
    var r := JoinLines(parts);
    if i > 0 {
      var tail := parts[1..];
      JoinLinesAt(tail, i - 1);
      var head := parts[0] + "\n";
      assert r == head + JoinLines(tail);
      var o := Offset(tail, i - 1);
      assert Offset(parts, i) == |head| + o;
      assert r[|head| + o..|head| + o + |parts[i]|] == JoinLines(tail)[o..o + |tail[i - 1]|];
      if i > 1 {
        assert r[|head| + o - 1] == JoinLines(tail)[o - 1];
      }
    } else if |parts| > 1 {
      assert r == parts[0] + ("\n" + JoinLines(parts[1..]));
    }
  }

  /** Joining two non-empty lists puts one newline between their joins. */
  lemma {:induction false} JoinLinesAppend(a: seq<string>, b: seq<string>)
    requires a != [] && b != []
    ensures JoinLines(a + b) == JoinLines(a) + "\n" + JoinLines(b)
  {
    if |a| == 1 {
      assert (a + b)[1..] == b;
    } else {
      assert (a + b)[1..] == a[1..] + b;
      JoinLinesAppend(a[1..], b);
    }
  }

  /**
   The button list the formatter renders: the hint button first, then the
   supplied buttons in their order; a missing or empty list contributes none.
   */
  function WithHint(hint: string, supplied: Option<seq<string>>): (r: seq<string>)
    ensures |r| >= 1 && r[0] == hint
    ensures supplied.Some? ==> r[1..] == supplied.value
    ensures |r| == 1 <==> supplied == None || supplied == Some([])
  {
    [hint] + Supplied(supplied)
  }

  /** The supplied buttons, with `None` read as the empty list. */
  function Supplied(supplied: Option<seq<string>>): seq<string>
  {
    if supplied.None? then [] else supplied.value
  }

  /**
   The rendered button row starts with the hint button, and the supplied
   buttons follow after one newline when there are any.
   */
  lemma ButtonRow(hint: string, supplied: Option<seq<string>>)
    ensures JoinLines(WithHint(hint, supplied)) ==
              if Supplied(supplied) == [] then hint else hint + "\n" + JoinLines(Supplied(supplied))
  {
    var bs := Supplied(supplied);
    if bs != [] {
      JoinLinesAppend([hint], bs);
    }
  }

  /**
   The filled-in page fragment for one display: the container element's id
   (the key), the frame's own HTML and the joined button row; the fixed
   markup around these three slots is not part of this model.
   */
  datatype TableHtml = TableHtml(key: string, frameHtml: string, buttonsHtml: string)

  function RenderHtml(key: string, frameHtml: string, buttons: seq<string>): (h: TableHtml)
    ensures h.key == key && h.frameHtml == frameHtml
    ensures h.buttonsHtml == JoinLines(buttons)
    ensures buttons != [] ==> |h.buttonsHtml| == TotalLength(buttons) + |buttons| - 1
  {
    TableHtml(key, frameHtml, JoinLines(buttons))
  }
}
