/** Files on which the parser panics, and recipes that it reads once and not again. */
module OddRecipes {
  import opened Text
  import opened StringOrder
  import opened Recipe
  import opened RecipeSpec
  import opened RecipeLayout
  import opened RecipeRoundTrip
  import opened RecipeCanon
  import opened RecipeExact
  import opened RecipeBook

  // ── Texts on which the parser panics ──────────────────────────────────────────

  lemma BackwardsStepPanics(body: string, stepIdx: nat)
    requires body != "" && body[0] == ')' && '(' in body && '^' !in body
    requires forall j :: 1 <= j < |body| ==> body[j] != ')'
    ensures ParseStep(body, stepIdx).Panicked?
  {
    NoCaret(body);
    ParseActionPanicsIff(body, stepIdx);
  }

  lemma OneBody(rest: string)
    requires Avoids(rest, '-', '>') && Trim(rest) != ""
    ensures StepBodies(rest) == [Trim(rest)]
  {
    assert ['-', '>'] == "->";
    HasPair(rest, '-', '>');
    assert TrimAll([rest]) == [Trim(rest)];
    NonEmptyKeepsAll([Trim(rest)]);
  }

  /** A block with one step that closes before it opens. */
  lemma BackwardsBlockPanics(name: string, step: string)
    requires NameReadable(name) && Trimmed(step) && Avoids(step, '-', '>')
    requires step != "" && step[0] == ')' && '(' in step && '^' !in step
    requires forall j :: 1 <= j < |step| ==> step[j] != ')'
    ensures ParseRecipe((name + " ") + "=" + (" " + step)).Panicked?
  {
    hide ParseStep, Trim, StepBodies;
    var rest := " " + step;
    var block := (name + " ") + "=" + rest;
    IndexOfAt(name + " ", '=', rest);
    assert block[..|name + " "|] == name + " " && block[|name + " "| + 1..] == rest;
    TrimPadded("", name, " ");
    assert "" + name + " " == name + " ";
    TrimPadded(" ", step, "");
    assert " " + step + "" == rest;
    AvoidsGlue(" ", step, '-', '>');
    OneBody(rest);
    BackwardsStepPanics(step, 1);
    assert ParseBodies([step])[0].Panicked?;
  }

  lemma NoSuchChar(s: string, x: char, y: char)
    requires x !in s || y !in s
    ensures Avoids(s, x, y)
  {}

  /** One recipe whose only action closes before it opens: the parser panics instead of
      returning an error. */
  lemma ParserCanPanic()
    ensures ParseRecipes("X = )(").Panicked?
  {
    hide ParseRecipe, Trim;
    var text := ("X" + " ") + "=" + (" " + ")(");
    NoSuchChar(")(", '-', '>');
    BackwardsBlockPanics("X", ")(");
    NoSuchChar(text, '\n', '\n');
    NoSuchChar(text, '\r', '\n');
    assert text[0] == 'X' && text[|text| - 1] == '(';
    NormaliseClean(text);
    OneBlock(text, text);
    assert ParseBlocks([text])[0].Panicked?;
    assert text == "X = )(";
  }

  lemma OneBlock(file: string, text: string)
    requires Normalise(file) == text && Avoids(text, '\n', '\n') && Trimmed(text) && text != ""
    ensures Blocks(file) == [text]
  {
    assert ['\n', '\n'] == "\n\n";
    HasPair(text, '\n', '\n');
    TrimTrimmed(text);
    assert TrimAll([text]) == [text];
    NonEmptyKeepsAll([text]);
  }

  lemma NormaliseOnce(a: string, b: string)
    requires Avoids(a, '\r', '\n') && Avoids(b, '\r', '\n')
    ensures Normalise(a + "\r\n" + b) == a + "\n" + b
  {
    assert ['\r', '\n'] == "\r\n";
    PairCuts(a, '\r', '\n');
    PairCuts(b, '\r', '\n');
    SplitJoined([a, b], "\r\n");
    JoinTwo(a, b, "\r\n");
    JoinTwo(a, b, "\n");
  }

  lemma JoinTwo(a: string, b: string, sep: string)
    ensures Join([a, b], sep) == a + sep + b
  {
    assert [a, b][1..] == [b];
  }

  // ── A recipe that was read and cannot be read again ───────────────────────────

  /** Neither white space nor a character that the syntax uses. */
  predicate Plain(s: string) {
    s != "" && forall c :: c in s ==> !IsSpace(c) && c !in ",()=^-"
  }

  function OddAction(u: string, w: string): ActionDef {
    ActionDef(")", map["k" := u + "\n\r\n" + w])
  }

  function OddHead(u: string): string {
    ("X" + " ") + "=" + (" " + (")(k=" + u))
  }

  /** The recipe `X` with that action and its canonical text, two lines that end differently. */
  function OddRecipe(u: string, w: string): Recipe {
    Recipe("X", [Single(OddAction(u, w))], (OddHead(u) + "\n") + "\r\n" + (w + ")"))
  }

  lemma OddActionText(u: string, w: string)
    ensures ActionToDsl(OddAction(u, w)) == ")(k=" + u + "\n\r\n" + w + ")"
  {
    var a := OddAction(u, w);
    assert "k" in a.params;
    var keys := SortedSeq(a.params.Keys);
    SortedUnique(keys, ["k"]);
    assert ParamTexts(a.params, ["k"]) == ["k" + "=" + a.params["k"]];
    assert Join(["k" + "=" + a.params["k"]], ",") == "k" + "=" + a.params["k"];
  }

  lemma OddSource(u: string, w: string)
    ensures ToDsl("X", OddRecipe(u, w).steps) == OddRecipe(u, w).source
  {
    OddActionText(u, w);
    var text := ActionToDsl(OddAction(u, w));
    assert StepTexts(OddRecipe(u, w).steps) == [text];
    assert Join([text], " -> ") == text;
  }

  lemma OddValue(u: string, w: string)
    requires Plain(u) && Plain(w)
    ensures var v := u + "\n\r\n" + w; ValueShape(v) && Avoids(v, '-', '>')
  {
    var v := u + "\n\r\n" + w;
    assert v[0] == u[0] && v[|v| - 1] == w[|w| - 1] && u[0] in u && w[|w| - 1] in w;
    NoSuchChar(v, '-', '>');
  }

  lemma OddBlockReads(u: string, w: string)
    requires Plain(u) && Plain(w)
    ensures ParseRecipe(OddRecipe(u, w).source) == Ok(OddRecipe(u, w))
  {
    hide ParseRecipe, ActionToDsl;
    var r := OddRecipe(u, w);
    OddSource(u, w);
    OddActionText(u, w);
    OddValue(u, w);
    NoSuchChar(")", '-', '>');
    NoSuchChar("k", '-', '>');
    assert "k" in OddAction(u, w).params;
    assert StepKept(r.steps[0]);
    RecipeRoundTripsIff("X", r.steps);
  }

  lemma OddParts(u: string, w: string)
    requires Plain(u) && Plain(w)
    ensures var one, two := OddHead(u), w + ")";
      && '\r' !in one && '\n' !in one && '\r' !in two && '\n' !in two
      && Trimmed(one) && Trimmed(two) && one != "" && two != ""
  {
    var one, two := OddHead(u), w + ")";
    assert one[0] == 'X' && one[|one| - 1] == u[|u| - 1] && u[|u| - 1] in u;
    assert two[0] == w[0] && two[|two| - 1] == ')' && w[0] in w;
    assert forall c :: c in one ==> c in u || c in "X =)(k";
  }

  lemma OddFileReads(u: string, w: string)
    requires Plain(u) && Plain(w)
    ensures ParseRecipes((OddHead(u) + "\n\r") + "\r\n" + (w + ")")) == Ok([OddRecipe(u, w)])
  {
    hide ParseRecipe, OddHead, Plain, Normalise, Blocks;
    OddParts(u, w);
    var one, two := OddHead(u), w + ")";
    var r := OddRecipe(u, w);
    var file := (one + "\n\r") + "\r\n" + two;
    NoSuchChar(one, '\r', '\n');
    NoSuchChar(one, '\n', '\n');
    NoSuchChar(two, '\r', '\n');
    NoSuchChar(two, '\n', '\n');
    AvoidsGlue(one, "\n\r", '\r', '\n');
    NormaliseOnce(one + "\n\r", two);
    assert (one + "\n\r") + "\n" + two == r.source;
    AvoidsGlue(one, "\n", '\n', '\n');
    AvoidsGlue(one + "\n", "\r\n", '\n', '\n');
    AvoidsGlue((one + "\n") + "\r\n", two, '\n', '\n');
    assert r.source[0] == one[0] && r.source[|r.source| - 1] == two[|two| - 1];
    OneBlock(file, r.source);
    OddBlockReads(u, w);
    CollectOk(ParseBlocks([r.source]), [r]);
  }

  lemma OddSourcePanics(u: string, w: string)
    requires Plain(u) && Plain(w)
    ensures ParseRecipes(OddRecipe(u, w).source).Panicked?
  {
    hide ParseRecipe, Blocks, Normalise;
    OddParts(u, w);
    var one, two := OddHead(u), w + ")";
    var r := OddRecipe(u, w);
    NoSuchChar(one, '\r', '\n');
    NoSuchChar(one, '\n', '\n');
    NoSuchChar(two, '\r', '\n');
    NoSuchChar(two, '\n', '\n');
    AvoidsGlue(one, "\n", '\r', '\n');
    NormaliseOnce(one + "\n", two);
    var text := Join([one, two], "\n\n");
    JoinTwo(one, two, "\n\n");
    assert "\n\n" == "\n" + "\n";
    assert one + "\n\n" + two == (one + "\n") + "\n" + two;
    assert text == (one + "\n") + "\n" + two;
    BlocksNormal([one, two]);
    NormaliseClean(text);
    SameBlocks(r.source, text);
    BlocksOfFile([one, two]);
    TrimTrimmed(one);
    TrimTrimmed(two);
    assert TrimAll([one, two]) == [one, two];
    NonEmptyKeepsAll([one, two]);
    OddHeadPanics(u);
    assert ParseBlocks([one, two])[0].Panicked?;
  }

  lemma SameBlocks(a: string, b: string)
    requires Normalise(a) == Normalise(b)
    ensures Blocks(a) == Blocks(b)
  {}

  lemma OddHeadPanics(u: string)
    requires Plain(u)
    ensures ParseRecipe(OddHead(u)).Panicked?
  {
    var step := ")(k=" + u;
    assert step[0] == ')' && step[1] == '(' && step[|step| - 1] == u[|u| - 1] && u[|u| - 1] in u;
    forall j | 1 <= j < |step| ensures step[j] != ')' && step[j] != '^' && step[j] != '-' {
      if j >= 4 { assert step[j] == u[j - 4] && u[j - 4] in u; }
    }
    NoSuchChar(step, '-', '>');
    BackwardsBlockPanics("X", step);
  }

  /** A recipe can bring the parser down although it was read from a file: a CR right before a
      CRLF leaves a CRLF in a value, and that makes a blank line the second time. */
  lemma LoadedRecipeCanPanic()
    ensures ParseRecipes("X = )(k=x\n\r\r\ny)") == Ok([OddRecipe("x", "y")])
    ensures OddRecipe("x", "y").source == "X = )(k=x\n\r\ny)"
    ensures ParseRecipes(OddRecipe("x", "y").source).Panicked?
  {
    hide ParseRecipes;
    OddFileReads("x", "y");
    OddSourcePanics("x", "y");
    assert (OddHead("x") + "\n\r") + "\r\n" + ("y" + ")") == "X = )(k=x\n\r\r\ny)";
    assert OddRecipe("x", "y").source == "X = )(k=x\n\r\ny)";
  }
}
