/** One small file read all the way, written out. */
module RecipeSample {
  import opened Text
  import opened Recipe
  import opened RecipeSpec
  import opened RecipeLayout
  import opened RecipeBook

  lemma Unbroken(s: string, x: char, y: char)
    requires x !in s || y !in s
    ensures Avoids(s, x, y)
  {}

  lemma TwoIs()
    ensures AllDigits("02") && Numeral("02") == 2
  {
    assert "02"[..1] == "0" && "0"[..0] == "";
    assert Numeral("0") == 0;
  }

  /** A recipe of one repeated step, with blanks around its parts. */
  function OneStep(name: string, gap: string, lead: string, action: string, before: string, digits: string)
    : RecipeLayout
  {
    RecipeLayout("", name, gap, [Piece(lead, Times(Bare(action), before, digits), "")])
  }

  lemma OneStepIs(name: string, gap: string, lead: string, action: string, before: string, digits: string)
    requires Blank(gap) && Blank(lead) && Blank(before) && AllDigits(digits) && 0 < Numeral(digits) < 10
    requires name != "" && Trimmed(name) && '=' !in name
    requires action != "" && NameShape(action) && ArrowFree(action) && action[0] != '['
    ensures var layout := OneStep(name, gap, lead, action, before, digits);
      && layout.Valid()
      && layout.Text() == name + gap + "=" + lead + action + before + "^" + digits
      && PieceMeanings(layout.pieces) == [Repeated(ActionDef(action, map[]), Numeral(digits))]
  {
    hide Trimmed, NameShape, ArrowFree, AllDigits, Numeral;
    var layout := OneStep(name, gap, lead, action, before, digits);
    var piece := layout.pieces[0];
    assert piece.Text() == lead + action + before + "^" + digits;
    assert PieceTexts([piece]) == [piece.Text()];
    assert Join([piece.Text()], "->") == piece.Text();
    assert layout.Text() == (name + gap) + "=" + piece.Text();
  }

  lemma SourceIs(name: string, a: ActionDef)
    requires a.params == map[]
    ensures ToDsl(name, [Repeated(a, 2)]) == name + " = " + a.name + "^2"
  {
    var step := Repeated(a, 2);
    assert StepToDsl(step) == a.name + "^2";
    assert StepTexts([step]) == [a.name + "^2"];
    assert Join([a.name + "^2"], " -> ") == a.name + "^2";
  }

  lemma FlatIs(a: ActionDef)
    ensures Flatten([Repeated(a, 2)]) == [a, a]
  {
    assert [Repeated(a, 2)][..0] == [];
    assert Flatten([]) == [];
  }

  lemma Alone(s: string, sep: string)
    ensures Join([s], sep) == s
  {}

  lemma BlockIs(b: Block, layout: RecipeLayout, file: string)
    requires b == Block("", layout, b.trail) && file == layout.Text() + b.trail
    ensures b.Text() == file
  {
    hide PieceTexts, Join;
    assert "" + layout.Text() + b.trail == layout.Text() + b.trail;
  }

  /** A file of that recipe alone. */
  lemma FileIs(layout: RecipeLayout, trail: string, file: string)
    requires layout.Valid() && layout.lead == "" && layout.pieces[|layout.pieces| - 1].trail == ""
    requires Blank(trail) && LineSafe(file) && file == layout.Text() + trail
    ensures ParseRecipes(file) == Ok([layout.Meaning()])
  {
    hide ParseRecipes, LineSafe, ToDsl, PieceMeanings, PieceTexts, Join, Trimmed;
    var b := Block("", layout, trail);
    BlockIs(b, layout, file);
    FileReads([b]);
    assert BlockTexts([b]) == [file];
    Alone(file, "\n\n");
    assert BlockMeanings([b]) == [layout.Meaning()];
  }

  /** A recipe over two lines with tabs, blanks and a leading zero: what is read, and the flat
      sequence that an order of it runs. */
  lemma SampleReads(dough: ActionDef)
    requires dough == ActionDef("MakeDough", map[])
    ensures ParseRecipes("P =\n\tMakeDough ^02\r") == Ok([Recipe("P", [Repeated(dough, 2)], "P = MakeDough^2")])
    ensures Flatten([Repeated(dough, 2)]) == [dough, dough]
  {
    hide ParseRecipes, ToDsl, Flatten, Numeral, AllDigits, Blank, Trimmed, NameShape, ArrowFree, PieceMeanings, Join;
    var layout := OneStep("P", " ", "\n\t", "MakeDough", " ", "02");
    TwoIs();
    SampleTokens();
    OneStepIs("P", " ", "\n\t", "MakeDough", " ", "02");
    SourceIs("P", dough);
    FlatIs(dough);
    assert "P" + " = " + "MakeDough" + "^2" == "P = MakeDough^2";
    var file := "P =\n\tMakeDough ^02\r";
    SampleText(file);
    FileIs(layout, "\r", file);
  }

  lemma SampleTokens()
    ensures Blank(" ") && Blank("\n\t") && Blank("\r")
    ensures Trimmed("P") && '=' !in "P" && NameShape("MakeDough") && ArrowFree("MakeDough")
  {
    Unbroken("MakeDough", '-', '>');
  }

  lemma SampleText(file: string)
    requires file == "P =\n\tMakeDough ^02\r"
    ensures file == "P" + " " + "=" + "\n\t" + "MakeDough" + " " + "^" + "02" + "\r"
    ensures LineSafe(file)
  {
    assert forall i :: 0 < i < |file| && file[i] == '\n' ==> i == 3;
  }
}
