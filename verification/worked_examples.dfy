/** The repository's unit-test cases, restated as lemmas about the model.
    Where a case runs through the line pattern, the groups that pattern
    yields for the line are stated as a precondition. */
module WorkedExamples {
  import opened Options
  import opened Text
  import opened Fields
  import opened Literals
  import opened Classify
  import opened Render
  import opened LineParser

  lemma NumericLiterals()
    ensures FixLiterals(Some("B'01010101'")) == Some("01010101B")
    ensures FixLiterals(Some("D'32'")) == Some("32D")
    ensures FixLiterals(Some("H'32'")) == Some("32H")
    ensures FixLiterals(Some("B\"10101010\"")) == Some("10101010B")
  {
    assert IsLiteralPrefix("B'01010101'", 'B', "01010101");
    assert "01010101" + ['B'] == "01010101B";
    assert IsLiteralPrefix("D'32'", 'D', "32");
    assert "32" + ['D'] == "32D";
    assert IsLiteralPrefix("H'32'", 'H', "32");
    assert "32" + ['H'] == "32H";
    BinaryOperand();
  }

  lemma CharacterLiterals()
    ensures FixLiterals(Some("A'A'")) == Some("\"A\"")
    ensures FixLiterals(Some("A' '")) == Some("\" \"")
    ensures FixLiterals(Some("A'Hello'")) == Some("\"Hello\"")
  {
    assert IsLiteralPrefix("A'A'", 'A', "A");
    assert "\"" + "A" + "\"" == "\"A\"";
    assert IsLiteralPrefix("A' '", 'A', " ");
    assert "\"" + " " + "\"" == "\" \"";
    assert IsLiteralPrefix("A'Hello'", 'A', "Hello");
    assert "\"" + "Hello" + "\"" == "\"Hello\"";
  }

  /** The hexadecimal form is the same in both dialects and passes through. */
  lemma HexPassesThrough()
    ensures FixLiterals(Some("0x32")) == Some("0x32")
    ensures FixLiterals(None) == None && FixLiterals(Some("")) == None
  {
  }

  lemma InstructionLookup(p: Parser)
    requires "movwf" in p.instructions && "#define" !in p.instructions
    ensures IsInstruction(p, Some("movwf"))
    ensures IsInstruction(p, Some("MOVWF"))
    ensures !IsInstruction(p, Some("#define"))
    ensures !IsInstruction(p, Some("")) && !IsInstruction(p, None)
  {
    assert Lower("movwf") == "movwf";
    assert Lower("MOVWF") == "movwf";
    assert Lower("#define") == "#define";
  }

  /** A lone word that is no keyword is a label and gains the marker. */
  lemma SimpleLabel(p: Parser)
    requires p.lineRegex("LABEL") == Some(Groups(Some("LABEL"), None, None, None))
    requires "label" !in p.directives && "label" !in p.instructions
    ensures Parse(p, "LABEL") == Tokens(Some("LABEL:"), None, None, None, 0)
  {
    var t := Tokenize(p, "LABEL");
    assert FixFields(t) == t;
    assert Lower("LABEL") == "label";
    assert HasLabel(p, t);
    assert "LABEL" + [LabelMarker] == "LABEL:";
  }

  lemma CommentedLabel(p: Parser)
    requires p.lineRegex("LABEL\t\t    ; a comment") ==
      Some(Groups(Some("LABEL"), None, None, Some("; a comment")))
    requires "label" !in p.directives && "label" !in p.instructions
    ensures Parse(p, "LABEL\t\t    ; a comment") ==
      Tokens(Some("LABEL:"), None, None, Some("; a comment"), 0)
  {
    var line := "LABEL\t\t    ; a comment";
    var t := Tokenize(p, line);
    assert FixFields(t) == t;
    assert HasLabel(p, t) by {
      assert Lower("LABEL") == "label";
    }
    var r := Parse(p, line);
    assert r == Tokens(Some("LABEL:"), None, None, Some("; a comment"), 0) by {
      assert "LABEL" + [LabelMarker] == "LABEL:";
    }
  }

  /** A label, an instruction, a binary literal and a comment. */
  lemma FourFieldLabel(p: Parser)
    requires p.lineRegex("LABEL MOVLW B\"10101010\"\t;comment don't\t; #v4.1.1 style") ==
      Some(Groups(Some("LABEL"), Some("MOVLW"), Some("B\"10101010\""),
                  Some(";comment don't\t; #v4.1.1 style")))
    requires "label" !in p.directives && "label" !in p.instructions
    requires "movlw" !in p.directives
    ensures Parse(p, "LABEL MOVLW B\"10101010\"\t;comment don't\t; #v4.1.1 style") ==
      Tokens(Some("LABEL:"), Some("MOVLW"), Some("10101010B"),
             Some(";comment don't\t; #v4.1.1 style"), 0)
  {
    FourFieldResolution(p, ";comment don't\t; #v4.1.1 style");
  }

  lemma FourFieldResolution(p: Parser, c: string)
    requires "label" !in p.directives && "label" !in p.instructions
    requires "movlw" !in p.directives
    ensures var t := Tokens(Some("LABEL"), Some("MOVLW"), Some("B\"10101010\""), Some(c), 0);
      Resolve(p, FixFields(t)) == Tokens(Some("LABEL:"), Some("MOVLW"), Some("10101010B"), Some(c), 0)
  {
    var t := Tokens(Some("LABEL"), Some("MOVLW"), Some("B\"10101010\""), Some(c), 0);
    BinaryOperand();
    MnemonicOperand();
    var f := FixFields(t);
    assert f == Tokens(Some("LABEL"), Some("MOVLW"), Some("10101010B"), Some(c), 0);
    LabelBeforeMnemonic(p, f);
    assert "LABEL" + [LabelMarker] == "LABEL:";
  }

  lemma BinaryOperand()
    ensures FixLiterals(Some("B\"10101010\"")) == Some("10101010B")
  {
    assert IsLiteralPrefix("B\"10101010\"", 'B', "10101010");
    assert "10101010" + ['B'] == "10101010B";
  }

  lemma MnemonicOperand()
    ensures FixLiterals(Some("MOVLW")) == Some("MOVLW")
  {
    assert MatchLiteral("MOVLW") == None;
  }

  lemma LabelBeforeMnemonic(p: Parser, t: Tokens)
    requires "label" !in p.directives && "label" !in p.instructions
    requires "movlw" !in p.directives
    requires t.field1 == Some("LABEL") && t.field2 == Some("MOVLW")
    ensures HasLabel(p, t)
  {
    assert Lower("LABEL") == "label";
    assert Lower("MOVLW") == "movlw";
  }

  /** A label that already ends in the marker does not get a second one. */
  lemma ColonLabel(p: Parser)
    requires p.lineRegex("BEGIN:") == Some(Groups(Some("BEGIN:"), None, None, None))
    requires "begin:" !in p.directives && "begin:" !in p.instructions
    ensures Parse(p, "BEGIN:") == Tokens(Some("BEGIN:"), None, None, None, 0)
  {
    assert Lower("BEGIN:") == "begin:";
  }

  /** An instruction in field1 is indented by one tab. */
  lemma TwoFieldInstruction(p: Parser)
    requires p.lineRegex("\tmovwf TRISB") == Some(Groups(Some("movwf"), Some("TRISB"), None, None))
    requires "movwf" in p.instructions
    ensures Parse(p, "\tmovwf TRISB") == Tokens(Some("movwf"), Some("TRISB"), None, None, 1)
  {
    var line := "\tmovwf TRISB";
    var t := Tokenize(p, line);
    assert FixFields(t) == t by {
      assert MatchLiteral("TRISB") == None;
    }
    assert !HasLabel(p, t) && IsInstruction(p, t.field1) by {
      assert Lower("movwf") == "movwf";
    }
    var r := Parse(p, line);
    assert r == Tokens(Some("movwf"), Some("TRISB"), None, None, 1);
  }

  /** A directive in field1 is neither a label nor indented. */
  lemma IncludeDirective(p: Parser)
    requires p.lineRegex("#include pic16f877a.inc") ==
      Some(Groups(Some("#include"), Some("pic16f877a.inc"), None, None))
    requires "#include" in p.directives && "#include" !in p.instructions
    ensures Parse(p, "#include pic16f877a.inc") ==
      Tokens(Some("#include"), Some("pic16f877a.inc"), None, None, 0)
  {
    assert Lower("#include") == "#include";
    assert MatchLiteral("pic16f877a.inc") == None;
  }
}
