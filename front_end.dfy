/** The scanner and the parser together, on the text of one top-level
    expression. */
module FrontEnd {
  import opened Wrappers
  import opened Tokens
  import opened Ast
  import opened Scanning
  import opened ScanningFacts
  import opened Grammar
  import opened ParsingFacts

  /** The tokens of `8-3-2`: numbers and operators carry no position. */
  lemma ScanSubtraction()
    ensures Tokenize("8-3-2", []) == Success([Num("8"), Tok(MINUS), Num("3"), Tok(MINUS), Num("2")])
  {
    var src := "8-3-2";
    assert DigitEnd(src, 1) == 1;
    assert DigitEnd(src, 3) == 3;
    assert DigitEnd(src, 5) == 5;
    assert src[0..1] == "8" && src[2..3] == "3" && src[4..5] == "2";
    assert StepAt(src, 4, []) == Emit(Num("2"), 5);
    assert [Num("2")] + [] == [Num("2")];
    assert ScanFrom(src, 4, []) == Success([Num("2")]);
    assert StepAt(src, 3, []) == Emit(Tok(MINUS), 4);
    assert [Tok(MINUS)] + [Num("2")] == [Tok(MINUS), Num("2")];
    assert ScanFrom(src, 3, []) == Success([Tok(MINUS), Num("2")]);
    assert StepAt(src, 2, []) == Emit(Num("3"), 3);
    assert [Num("3")] + [Tok(MINUS), Num("2")] == [Num("3"), Tok(MINUS), Num("2")];
    assert ScanFrom(src, 2, []) == Success([Num("3"), Tok(MINUS), Num("2")]);
    assert StepAt(src, 1, []) == Emit(Tok(MINUS), 2);
    assert [Tok(MINUS)] + [Num("3"), Tok(MINUS), Num("2")] == [Tok(MINUS), Num("3"), Tok(MINUS), Num("2")];
    assert ScanFrom(src, 1, []) == Success([Tok(MINUS), Num("3"), Tok(MINUS), Num("2")]);
    assert StepAt(src, 0, []) == Emit(Num("8"), 1);
    assert [Num("8")] + [Tok(MINUS), Num("3"), Tok(MINUS), Num("2")] == [Num("8"), Tok(MINUS), Num("3"), Tok(MINUS), Num("2")];
  }

  /** `8-3-2` scans to tokens the parser accepts, and parses to the anonymous
      function whose body subtracts from the left. */
  lemma SubtractionEndToEnd()
    ensures var r := Tokenize("8-3-2", []);
      r.Success? && Payloads(r.value) &&
      ProgramAt(r.value, 0) == Parsed(Built(Function(Prototype(AnonName, []),
        Binary(Tok(MINUS), Binary(Tok(MINUS), Number("8"), Number("3")), Number("2")))), 4)
  {
    ScanSubtraction();
    var ts := [Num("8"), Tok(MINUS), Num("3"), Tok(MINUS), Num("2")];
    assert Payloads(ts);
    MinusFoldsLeft();
    assert ProgramAt(ts, 0) == TopLevelAt(ts, 0);
  }
}
