/** The line renderer: `textify`. */
module Render {
  import opened Options
  import opened Text
  import opened Fields

  /** An absent field renders as the empty string. */
  function Slot(f: Option<string>): string {
    if f.None? then "" else f.value
  }

  /** The four slots joined with single spaces, before stripping. */
  function SlotLine(t: Tokens): string {
    Slot(t.field1) + " " + Slot(t.field2) + " " + Slot(t.field3) + " " + Slot(t.comment)
  }

  /** `textify`: the stripped slot line behind `indent` tabs. The text after
      the tabs has no whitespace at either end and is what stripping the slot
      line leaves, so the line opens with exactly `indent` tabs. */
  function Textify(t: Tokens): (r: string)
    ensures |r| >= t.indent
    ensures forall k :: 0 <= k < t.indent ==> r[k] == '\t'
    ensures NoEdgeSpace(r[t.indent..])
    ensures exists i :: StripsTo(SlotLine(t), i, r[t.indent..])
  {
    var body := Strip(SlotLine(t));
    assert (Tabs(t.indent) + body)[t.indent..] == body;
    Tabs(t.indent) + body
  }

  /** A record with every slot absent renders as its indentation alone. */
  lemma TextifyBlank(t: Tokens)
    requires t.field1.None? && t.field2.None? && t.field3.None? && t.comment.None?
    ensures Textify(t) == Tabs(t.indent)
  {
    assert SlotLine(t) == "   ";
    StripAllSpace(SlotLine(t));
  }

  /** No clean field value is lost: field1 opens the text after the tabs,
      the comment closes the line, and field2 and field3 occur in it. */
  lemma TextifyKeepsFields(t: Tokens)
    ensures t.field1.Some? && Clean(t.field1.value) ==>
      StartsWith(Textify(t)[t.indent..], t.field1.value)
    ensures t.field2.Some? && Clean(t.field2.value) ==> IsInfix(Textify(t), t.field2.value)
    ensures t.field3.Some? && Clean(t.field3.value) ==> IsInfix(Textify(t), t.field3.value)
    ensures t.comment.Some? && Clean(t.comment.value) ==> EndsWith(Textify(t), t.comment.value)
  {
    TextifyKeepsField1(t);
    TextifyKeepsField2(t);
    TextifyKeepsField3(t);
    TextifyKeepsComment(t);
  }

  lemma TextifyKeepsField1(t: Tokens)
    ensures t.field1.Some? && Clean(t.field1.value) ==>
      StartsWith(Textify(t)[t.indent..], t.field1.value)
  {
    var a, b, c, d := Slot(t.field1), Slot(t.field2), Slot(t.field3), Slot(t.comment);
    if t.field1.Some? && Clean(a) {
      SlotOffsets(t, a, b, c, d);
      TextifyKeepsSlot(t, 0, a);
    }
  }

  lemma TextifyKeepsField2(t: Tokens)
    ensures t.field2.Some? && Clean(t.field2.value) ==> IsInfix(Textify(t), t.field2.value)
  {
    var a, b, c, d := Slot(t.field1), Slot(t.field2), Slot(t.field3), Slot(t.comment);
    if t.field2.Some? && Clean(b) {
      SlotOffsets(t, a, b, c, d);
      TextifyKeepsSlot(t, |a| + 1, b);
    }
  }

  lemma TextifyKeepsField3(t: Tokens)
    ensures t.field3.Some? && Clean(t.field3.value) ==> IsInfix(Textify(t), t.field3.value)
  {
    var a, b, c, d := Slot(t.field1), Slot(t.field2), Slot(t.field3), Slot(t.comment);
    if t.field3.Some? && Clean(c) {
      SlotOffsets(t, a, b, c, d);
      TextifyKeepsSlot(t, |a| + |b| + 2, c);
    }
  }

  lemma TextifyKeepsComment(t: Tokens)
    ensures t.comment.Some? && Clean(t.comment.value) ==> EndsWith(Textify(t), t.comment.value)
  {
    var a, b, c, d := Slot(t.field1), Slot(t.field2), Slot(t.field3), Slot(t.comment);
    if t.comment.Some? && Clean(d) {
      SlotOffsets(t, a, b, c, d);
      TextifyKeepsSlot(t, |a| + |b| + |c| + 3, d);
    }
  }

  /** Where each slot sits in the joined line. */
  lemma SlotOffsets(t: Tokens, a: string, b: string, c: string, d: string)
    requires a == Slot(t.field1) && b == Slot(t.field2) && c == Slot(t.field3) && d == Slot(t.comment)
    ensures SlotLine(t) == a + " " + b + " " + c + " " + d
    ensures InfixAt(SlotLine(t), a, 0)
    ensures InfixAt(SlotLine(t), b, |a| + 1)
    ensures InfixAt(SlotLine(t), c, |a| + |b| + 2)
    ensures InfixAt(SlotLine(t), d, |a| + |b| + |c| + 3)
    ensures |a| + |b| + |c| + 3 + |d| == |SlotLine(t)|
  {
  }

  /** A clean slice of the slot line survives rendering. */
  lemma TextifyKeepsSlot(t: Tokens, o: int, v: string)
    requires InfixAt(SlotLine(t), v, o) && Clean(v)
    ensures IsInfix(Textify(t), v)
    ensures o == 0 ==> StartsWith(Textify(t)[t.indent..], v)
    ensures o + |v| == |SlotLine(t)| ==> EndsWith(Textify(t), v)
  {
    var s := SlotLine(t);
    var tabs := Tabs(t.indent);
    var body := Strip(s);
    assert Textify(t) == tabs + body;
    assert Textify(t)[t.indent..] == body;
    StripKeepsClean(s, o, v);
    InfixAfterPrefix(tabs, body, v);
    if o + |v| == |s| {
      assert (tabs + body)[|tabs + body| - |v|..] == body[|body| - |v|..];
    }
  }

  lemma InfixAfterPrefix(prefix: string, s: string, v: string)
    requires IsInfix(s, v)
    ensures IsInfix(prefix + s, v)
  {
    var k :| 0 <= k <= |s| - |v| && InfixAt(s, v, k);
    assert (prefix + s)[|prefix| + k..|prefix| + k + |v|] == s[k..k + |v|];
    assert InfixAt(prefix + s, v, |prefix| + k);
  }

  /** With all four slots present and clean, the line is exactly the four
      values separated by single spaces, behind the tabs. */
  lemma TextifyFullLine(t: Tokens)
    requires t.field1.Some? && Clean(t.field1.value)
    requires t.field2.Some? && Clean(t.field2.value)
    requires t.field3.Some? && Clean(t.field3.value)
    requires t.comment.Some? && Clean(t.comment.value)
    ensures Textify(t) == Tabs(t.indent) + t.field1.value + " " + t.field2.value + " " +
      t.field3.value + " " + t.comment.value
  {
    var s := SlotLine(t);
    assert s[0] == t.field1.value[0];
    assert s[|s| - 1] == t.comment.value[|t.comment.value| - 1];
    StripClean(s);
  }

  /** A lone first field renders as itself behind the tabs: the separators
      of the absent slots after it are stripped away. */
  lemma TextifyFirstFieldOnly(t: Tokens)
    requires t.field1.Some? && Clean(t.field1.value)
    requires t.field2.None? && t.field3.None? && t.comment.None?
    ensures Textify(t) == Tabs(t.indent) + t.field1.value
  {
    assert SlotLine(t) == t.field1.value + "   ";
    StripTrailingSpace(t.field1.value, "   ");
  }

  /** Absent slots in the middle still contribute their separators: a label
      with a comment and nothing between renders with three spaces between
      them, since only the two ends of the joined text are stripped. */
  lemma TextifyKeepsInnerSeparators(t: Tokens)
    requires t.field1.Some? && Clean(t.field1.value)
    requires t.field2.None? && t.field3.None?
    requires t.comment.Some? && Clean(t.comment.value)
    ensures Textify(t) == Tabs(t.indent) + t.field1.value + "   " + t.comment.value
  {
    var s := SlotLine(t);
    assert s == t.field1.value + "   " + t.comment.value;
    assert s[0] == t.field1.value[0];
    assert s[|s| - 1] == t.comment.value[|t.comment.value| - 1];
    StripClean(s);
  }

  /** A comment's trailing whitespace is lost on rendering: the comment group
      of the line pattern keeps it, but `strip` removes it from the end of the
      line, so the line renders as if the comment had none. */
  lemma TextifyDropsCommentTrailingSpace(t: Tokens, c: string, spaces: string)
    requires |c| > 0 && !IsSpace(c[|c| - 1]) && AllSpace(spaces)
    ensures Textify(t.(comment := Some(c + spaces))) == Textify(t.(comment := Some(c)))
  {
    var u, v := t.(comment := Some(c + spaces)), t.(comment := Some(c));
    var s := SlotLine(v);
    assert SlotLine(u) == s + spaces;
    assert s[|s| - 1] == c[|c| - 1];
    StripDropsTrailingSpace(s, spaces);
  }
}
