/** The per-line parser: `tokenize`, the literal fixes of `parse`, and the
    label/indent resolution that ends `parse`. */
module LineParser {
  import opened Options
  import opened Text
  import opened Fields
  import opened Literals
  import opened Classify
  import opened Render

  /** Appended to a line the line pattern rejects, for manual review. */
  const ErrorMarker := "    ;#PARSE_ERROR"

  /** The marker that ends a label. */
  const LabelMarker := ':'

  /** `tokenize`: the groups of the line pattern when it matches; otherwise
      the blank record for the empty line, and for any other line a record
      whose only field is a comment holding the whole line and the marker. */
  function Tokenize(p: Parser, line: string): (t: Tokens)
    ensures t.indent == 0
    ensures p.lineRegex(line).Some? ==>
      var g := p.lineRegex(line).value;
      t.field1 == g.field1 && t.field2 == g.field2 && t.field3 == g.field3 && t.comment == g.comment
    ensures p.lineRegex(line).None? && line == "" ==> t == Blank
    ensures p.lineRegex(line).None? && line != "" ==>
      t.field1 == t.field2 == t.field3 == None && t.comment == Some(line + ErrorMarker) &&
      StartsWith(t.comment.value, line) && EndsWith(t.comment.value, ErrorMarker)
  {
    match p.lineRegex(line)
    case Some(g) => Tokens(g.field1, g.field2, g.field3, g.comment, 0)
    case None =>
      if line == "" then Blank
      else Tokens(None, None, None, Some(line + ErrorMarker), 0)
  }

  /** `parse` fixes literals only in fields that are present and non-empty. */
  function FixIfPresent(f: Option<string>): Option<string> {
    if Truthy(f) then FixLiterals(f) else f
  }

  /** The two literal fixes of `parse`: field3, then field2. */
  function FixFields(t: Tokens): (r: Tokens)
    ensures r.field1 == t.field1 && r.comment == t.comment && r.indent == t.indent
    ensures Truthy(r.field2) == Truthy(t.field2) && Truthy(r.field3) == Truthy(t.field3)
  {
    t.(field3 := FixIfPresent(t.field3)).(field2 := FixIfPresent(t.field2))
  }

  predicate EndsWithMarker(s: string) {
    |s| > 0 && s[|s| - 1] == LabelMarker
  }

  /** Field1 is present and ends in the label marker. */
  predicate LabelMarked(t: Tokens) {
    t.field1.Some? && EndsWithMarker(t.field1.value)
  }

  /** The label/indent resolution at the end of `parse`. A label gets the
      marker appended unless it already ends with it; otherwise a field1 that
      is an instruction sets the indentation to one. */
  function Resolve(p: Parser, t: Tokens): (r: Tokens)
    ensures r.field2 == t.field2 && r.field3 == t.field3 && r.comment == t.comment
    ensures HasLabel(p, t) ==>
      LabelMarked(r) && r.indent == t.indent &&
      (r.field1 == t.field1 || r.field1 == Some(t.field1.value + [LabelMarker]))
    ensures HasLabel(p, t) && EndsWithMarker(t.field1.value) ==> r == t
    ensures !HasLabel(p, t) ==> r.field1 == t.field1
    ensures !HasLabel(p, t) && IsInstruction(p, t.field1) ==> r.indent == 1
    ensures !HasLabel(p, t) && !IsInstruction(p, t.field1) ==> r == t
  {
    if HasLabel(p, t) then
      if EndsWithMarker(t.field1.value) then t
      else t.(field1 := Some(t.field1.value + [LabelMarker]))
    else if IsInstruction(p, t.field1) then t.(indent := 1)
    else t
  }

  /** `parse`: tokenize, fix the literals of field3 and field2, resolve. */
  function Parse(p: Parser, line: string): (r: Tokens)
    ensures r.indent <= 1
    ensures r.comment == Tokenize(p, line).comment
    ensures p.lineRegex(line).Some? ==> r.comment == p.lineRegex(line).value.comment
    ensures p.lineRegex(line).None? && line != "" ==> r.comment == Some(line + ErrorMarker)
  {
    Resolve(p, FixFields(Tokenize(p, line)))
  }

  /** No instruction keyword ends in the label marker. */
  predicate MarkerFreeInstructions(p: Parser) {
    forall k :: k in p.instructions ==> !EndsWithMarker(k)
  }

  lemma LowerKeepsMarker(s: string)
    requires EndsWithMarker(s)
    ensures EndsWithMarker(Lower(s))
  {
  }

  /** A field1 ending in the label marker is never an instruction. */
  lemma MarkedIsNoInstruction(p: Parser, t: Tokens)
    requires MarkerFreeInstructions(p)
    requires LabelMarked(t)
    ensures !IsInstruction(p, t.field1)
  {
    LowerKeepsMarker(t.field1.value);
  }

  /** Resolving a record that has not been indented never yields both a
      marked label and indentation one. */
  lemma ResolveExclusive(p: Parser, t: Tokens)
    requires MarkerFreeInstructions(p)
    requires t.indent == 0
    ensures var r := Resolve(p, t); !(LabelMarked(r) && r.indent == 1)
  {
    if !HasLabel(p, t) && IsInstruction(p, t.field1) && LabelMarked(t) {
      MarkedIsNoInstruction(p, t);
    }
  }

  /** Resolving a second time changes nothing. */
  lemma ResolveIdempotent(p: Parser, t: Tokens)
    requires MarkerFreeInstructions(p)
    ensures Resolve(p, Resolve(p, t)) == Resolve(p, t)
  {
    var r := Resolve(p, t);
    if HasLabel(p, t) {
      if !HasLabel(p, r) {
        MarkedIsNoInstruction(p, r);
      }
    }
  }

  /** After `parse`, a marked label and indentation one exclude each other. */
  lemma ParseLabelOrIndent(p: Parser, line: string)
    requires MarkerFreeInstructions(p)
    ensures var r := Parse(p, line); !(LabelMarked(r) && r.indent == 1)
  {
    ResolveExclusive(p, FixFields(Tokenize(p, line)));
  }

  /** How `parse` decides: indentation one exactly for an instruction in
      field1 that is not a label; a label always ends in the marker, which is
      added only when missing; field1 changes in no other way. */
  lemma ParseResolution(p: Parser, line: string)
    ensures var t, r := FixFields(Tokenize(p, line)), Parse(p, line);
      && (r.indent == 1 <==> !HasLabel(p, t) && IsInstruction(p, t.field1))
      && (HasLabel(p, t) ==> LabelMarked(r))
      && (HasLabel(p, t) && EndsWithMarker(t.field1.value) ==> r.field1 == t.field1)
      && (HasLabel(p, t) && !EndsWithMarker(t.field1.value) ==>
            r.field1 == Some(t.field1.value + [LabelMarker]))
      && (!HasLabel(p, t) ==> r.field1 == t.field1)
  {
  }

  /** `parse` rewrites field2 and field3 only through `fix_literals`, and
      passes the comment through untouched. */
  lemma ParsePassesFieldsThrough(p: Parser, line: string)
    ensures var t, r := Tokenize(p, line), Parse(p, line);
      && r.comment == t.comment
      && r.field2 == FixIfPresent(t.field2)
      && r.field3 == FixIfPresent(t.field3)
      && (Truthy(t.field2) ==> r.field2 == FixLiterals(t.field2))
      && (!Truthy(t.field2) ==> r.field2 == t.field2)
      && (Truthy(t.field3) ==> r.field3 == FixLiterals(t.field3))
      && (!Truthy(t.field3) ==> r.field3 == t.field3)
  {
  }

  /** The operands `parse` leaves behind are already in ASPIC form: a further
      `fix_literals` pass over them changes nothing. */
  lemma ParsedOperandsAreFixed(p: Parser, line: string)
    ensures var r := Parse(p, line);
      && (Truthy(r.field2) ==> FixLiterals(r.field2) == r.field2)
      && (Truthy(r.field3) ==> FixLiterals(r.field3) == r.field3)
  {
    var t := Tokenize(p, line);
    FixLiteralsIdempotent(t.field2);
    FixLiteralsIdempotent(t.field3);
  }

  /** Re-running the resolution on a parsed record changes nothing. */
  lemma ParseResolvedOnce(p: Parser, line: string)
    requires MarkerFreeInstructions(p)
    ensures Resolve(p, Parse(p, line)) == Parse(p, line)
  {
    ResolveIdempotent(p, FixFields(Tokenize(p, line)));
  }

  /** A non-empty line the line pattern rejects keeps its text: it parses to
      the error record and renders as the line, left-stripped, followed by
      the marker. */
  lemma ParseRejectedLine(p: Parser, line: string)
    requires p.lineRegex(line).None? && line != ""
    ensures Parse(p, line) == Tokens(None, None, None, Some(line + ErrorMarker), 0)
    ensures Textify(Parse(p, line)) == LStrip(line + ErrorMarker)
    ensures !AllSpace(line) ==> Textify(Parse(p, line)) == LStrip(line) + ErrorMarker
  {
    var r := Parse(p, line);
    var s := SlotLine(r);
    var c := line + ErrorMarker;
    assert s == "   " + c;
    assert s[|s| - 1] == 'R';
    StripWithoutTrailingSpace(s);
    LStripSpaces("   ", c);
    if !AllSpace(line) {
      LStripAppend(line, ErrorMarker);
    }
  }

  /** The empty line parses to the blank record and renders as nothing,
      whether the line pattern rejects it or matches it with every group
      empty (as the pattern, whose groups are all optional, does). */
  lemma ParseEmptyLine(p: Parser)
    requires p.lineRegex("") == None || p.lineRegex("") == Some(Groups(None, None, None, None))
    ensures Parse(p, "") == Blank
    ensures Textify(Parse(p, "")) == ""
  {
    TextifyBlank(Blank);
  }
}
