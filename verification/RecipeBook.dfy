/** Whole recipe files and the recipes sent over the wire. */
module RecipeBook {
  import opened Text
  import opened Recipe
  import opened RecipeSpec
  import opened RecipeLayout
  import opened RecipeRoundTrip
  import opened RecipeExact

  // ── Texts that survive line-ending normalisation and the split on blank lines ──

  /** No blank line and no CRLF inside. */
  ghost predicate LineSafe(s: string) {
    Avoids(s, '\n', '\n') && Avoids(s, '\r', '\n')
  }

  predicate EndsOffLine(s: string) {
    s != "" && s[|s| - 1] != '\n' && s[|s| - 1] != '\r'
  }

  /** Tokens may hold line breaks, but neither a blank line nor a CRLF. */
  ghost predicate RecipeLineSafe(r: Recipe) {
    RecipeFree(r, '\n', '\n') && RecipeFree(r, '\r', '\n')
  }

  /** The recipe reads back from its canonical text, alone or in a file: its block does, and no
      line end in it is mistaken for another or for a blank line. RecipeWire proves that nothing
      less will do. */
  ghost predicate RecipeOnFile(r: Recipe) {
    Canonical(r) && RecipeReadable(r.name, r.steps) && RecipeLineSafe(r)
  }

  lemma ArrowInert(x: char, y: char)
    requires x == '\n' || x == '\r'
    requires y == '\n'
    ensures Inert(" -> ", x, y) && Inert(" = ", x, y) && Foreign(x, y)
  {
    var s := " -> ";
    assert s[0] == ' ' && s[1] == '-' && s[2] == '>' && s[3] == ' ';
    var e := " = ";
    assert e[0] == ' ' && e[1] == '=' && e[2] == ' ';
    var f := "=,()[]^";
    assert f[0] == '=' && f[1] == ',' && f[2] == '(' && f[3] == ')' && f[4] == '[' && f[5] == ']' && f[6] == '^';
  }

  lemma SourceAvoids(r: Recipe, x: char)
    requires Canonical(r) && RecipeFree(r, x, '\n') && (x == '\n' || x == '\r')
    ensures Avoids(r.source, x, '\n')
  {
    ArrowInert(x, '\n');
    var texts := StepTexts(r.steps);
    forall i | 0 <= i < |texts| ensures Avoids(texts[i], x, '\n') {
      StepTextAvoids(r.steps[i], x, '\n');
    }
    AvoidsJoin(texts, " -> ", x, '\n');
    AvoidsBetween(r.name, " = ", Join(texts, " -> "), x, '\n');
  }

  lemma JoinEnds(parts: seq<string>, sep: string)
    requires parts != [] && parts[|parts| - 1] != ""
    ensures Join(parts, sep) != ""
    ensures Join(parts, sep)[|Join(parts, sep)| - 1] == parts[|parts| - 1][|parts[|parts| - 1]| - 1]
  {}

  lemma FramedTrimmed(name: string, gap: string, body: string)
    requires name != "" && Trimmed(name) && body != "" && !IsSpace(body[|body| - 1])
    ensures var text := ("" + name + gap) + "=" + body; text != "" && Trimmed(text)
  {
    var text := ("" + name + gap) + "=" + body;
    assert text[0] == name[0] && text[|text| - 1] == body[|body| - 1];
  }

  /** A layout with no padding outside it starts and ends on a token. */
  lemma TightLayoutTrimmed(l: RecipeLayout)
    requires l.Valid() && l.lead == "" && l.pieces[|l.pieces| - 1].trail == ""
    ensures Trimmed(l.Text()) && l.Text() != ""
  {
    hide Join, StepLayout.Valid, StepLayout.Text;
    var last := l.pieces[|l.pieces| - 1];
    StepTextTrimmed(last.step);
    LastPieceEnds(last);
    JoinEnds(PieceTexts(l.pieces), "->");
    FramedTrimmed(l.name, l.gap, Join(PieceTexts(l.pieces), "->"));
  }

  lemma LastPieceEnds(p: Piece)
    requires p.trail == "" && p.step.Text() != "" && Trimmed(p.step.Text())
    ensures p.Text() != "" && !IsSpace(p.Text()[|p.Text()| - 1])
  {
    assert p.Text() == p.lead + p.step.Text();
  }

  lemma SourceTrimmed(r: Recipe)
    requires Canonical(r) && RecipeReadable(r.name, r.steps)
    ensures Trimmed(r.source) && EndsOffLine(r.source)
  {
    hide StepToDsl, StepReadable, StepFree;
    var texts := StepTexts(r.steps);
    var last := |texts| - 1;
    StepRoundTripsIff(r.steps[last], 0);
    StepTextAvoids(r.steps[last], '-', '>');
    ParsedStepIs(texts[last], 0, '-', '>');
    ShapedTextTrimmed(r.steps[last]);
    JoinEnds(texts, " -> ");
    CanonFramed(r.name, r.steps);
    FramedTrimmed(r.name, " ", " " + Join(texts, " -> "));
    assert "" + r.name + " " == r.name + " ";
  }

  /** Such a recipe's text is one block of a file. */
  lemma SourceIsBlock(r: Recipe)
    requires RecipeOnFile(r)
    ensures LineSafe(r.source) && EndsOffLine(r.source) && Trim(r.source) == r.source
    ensures ParseRecipe(r.source) == Ok(r)
  {
    hide RecipeReadable, RecipeFree, ToDsl;
    SourceAvoids(r, '\n');
    SourceAvoids(r, '\r');
    SourceTrimmed(r);
    TrimTrimmed(r.source);
    RecipeRoundTripsIff(r.name, r.steps);
  }

  // ── Files ─────────────────────────────────────────────────────────────────────

  lemma {:induction false} BlocksNormal(texts: seq<string>)
    requires forall i :: 0 <= i < |texts| ==> Avoids(texts[i], '\r', '\n')
    requires forall i :: 0 <= i < |texts| - 1 ==> EndsOffLine(texts[i])
    ensures Avoids(Join(texts, "\n\n"), '\r', '\n')
  {
    if |texts| > 1 {
      BlocksNormal(texts[1..]);
      var sep := "\n\n";
      assert sep[0] == '\n' && sep[1] == '\n';
      AvoidsGlue(texts[0], sep, '\r', '\n');
      AvoidsGlue(texts[0] + sep, Join(texts[1..], sep), '\r', '\n');
    }
  }

  lemma NormaliseClean(s: string)
    requires Avoids(s, '\r', '\n')
    ensures Normalise(s) == s
  {
    HasPair(s, '\r', '\n');
    assert ['\r', '\n'] == "\r\n";
  }

  /** A file is read block by block: blocks hold no blank line and no CRLF, and all but the
      last end on a character that is not a line break. */
  lemma BlocksOfFile(texts: seq<string>)
    requires texts != []
    requires forall i :: 0 <= i < |texts| ==> LineSafe(texts[i])
    requires forall i :: 0 <= i < |texts| - 1 ==> EndsOffLine(texts[i])
    ensures Blocks(Join(texts, "\n\n")) == NonEmpty(TrimAll(texts))
  {
    BlocksNormal(texts);
    NormaliseClean(Join(texts, "\n\n"));
    assert ['\n', '\n'] == "\n\n";
    forall i | 0 <= i < |texts| - 1 ensures CutsBefore(texts[i], "\n\n") {
      PairCuts(texts[i], '\n', '\n');
    }
    HasPair(texts[|texts| - 1], '\n', '\n');
    SplitJoined(texts, "\n\n");
  }

  function Sources(recipes: seq<Recipe>): seq<string> {
    seq(|recipes|, i requires 0 <= i < |recipes| => recipes[i].source)
  }

  /** The file made of the recipes' canonical texts, separated by blank lines. */
  function FileText(recipes: seq<Recipe>): string {
    Join(Sources(recipes), "\n\n")
  }

  /** Print every recipe of any list of such recipes, join with blank lines, parse: the very
      same list comes back, in order. */
  lemma FileRoundTrips(recipes: seq<Recipe>)
    requires forall i :: 0 <= i < |recipes| ==> RecipeOnFile(recipes[i])
    ensures ParseRecipes(FileText(recipes)) == Ok(recipes)
  {
    var texts := Sources(recipes);
    if recipes == [] {
      EmptyFile();
    } else {
      forall i | 0 <= i < |texts|
        ensures LineSafe(texts[i]) && EndsOffLine(texts[i]) && Trim(texts[i]) == texts[i]
        ensures ParseRecipe(texts[i]) == Ok(recipes[i])
      {
        SourceIsBlock(recipes[i]);
      }
      BlocksOfFile(texts);
      assert TrimAll(texts) == texts;
      NonEmptyKeepsAll(texts);
      CollectOk(ParseBlocks(texts), recipes);
    }
  }

  lemma EmptyFile()
    ensures Blocks("") == []
  {
    assert Split("", "\r\n") == [""];
    assert Normalise("") == "";
    assert Split("", "\n\n") == [""];
    assert TrimAll([""]) == [""];
  }

  /** What `handle_order` relies on: the text of one recipe, sent over the wire and parsed
      again, gives that recipe, hence the same flat action sequence. */
  lemma WireRoundTrips(r: Recipe)
    requires RecipeOnFile(r)
    ensures ParseRecipes(r.source) == Ok([r])
  {
    FileRoundTrips([r]);
    assert FileText([r]) == r.source;
  }

  // ── Layout independence for files ─────────────────────────────────────────────

  datatype Block = Block(lead: string, layout: RecipeLayout, trail: string)
  {
    /** The layout itself starts and ends on a token; the padding around it is separate. */
    ghost predicate Valid() {
      && Blank(lead) && Blank(trail) && layout.Valid()
      && layout.lead == "" && layout.pieces[|layout.pieces| - 1].trail == ""
      && LineSafe(Text())
    }

    function Text(): string {
      lead + layout.Text() + trail
    }
  }

  function BlockTexts(blocks: seq<Block>): seq<string> {
    seq(|blocks|, i requires 0 <= i < |blocks| => blocks[i].Text())
  }

  ghost function BlockMeanings(blocks: seq<Block>): seq<Recipe>
    requires forall i :: 0 <= i < |blocks| ==> blocks[i].Valid()
  {
    seq(|blocks|, i requires 0 <= i < |blocks| && blocks[i].Valid() => blocks[i].layout.Meaning())
  }

  lemma BlockReads(b: Block)
    requires b.Valid()
    ensures Trim(b.Text()) == b.layout.Text() != ""
    ensures ParseRecipe(b.layout.Text()) == Ok(b.layout.Meaning())
  {
    TightLayoutTrimmed(b.layout);
    TrimPadded(b.lead, b.layout.Text(), b.trail);
    RecipeReads(b.layout);
  }

  /** Any file whose blocks are layouts of recipes, multi-line or flat, parses to what they
      mean, each with its canonical one-line source. */
  lemma FileReads(blocks: seq<Block>)
    requires blocks != []
    requires forall i :: 0 <= i < |blocks| ==> blocks[i].Valid()
    requires forall i :: 0 <= i < |blocks| - 1 ==> EndsOffLine(blocks[i].Text())
    ensures ParseRecipes(Join(BlockTexts(blocks), "\n\n")) == Ok(BlockMeanings(blocks))
  {
    hide ParseRecipe, Trim, Join;
    var texts := BlockTexts(blocks);
    var cores := seq(|blocks|, i requires 0 <= i < |blocks| => blocks[i].layout.Text());
    BlocksOfFile(texts);
    forall i | 0 <= i < |blocks|
      ensures Trim(texts[i]) == cores[i] != ""
      ensures ParseRecipe(cores[i]) == Ok(BlockMeanings(blocks)[i])
    {
      BlockReads(blocks[i]);
    }
    assert TrimAll(texts) == cores;
    NonEmptyKeepsAll(cores);
    CollectOk(ParseBlocks(cores), BlockMeanings(blocks));
  }

  /** No CRLF inside, and no CR at the end that a line feed could follow. */
  ghost predicate CleanLine(s: string) {
    Avoids(s, '\r', '\n') && (s == "" || s[|s| - 1] != '\r')
  }

  /** Lines joined by line ends of either kind: CRLF where `crlf` says so, else LF. */
  function JoinLines(lines: seq<string>, crlf: seq<bool>): string
    requires |crlf| >= |lines|
  {
    if lines == [] then ""
    else if |lines| == 1 then lines[0]
    else lines[0] + (if crlf[0] then "\r\n" else "\n") + JoinLines(lines[1..], crlf[1..])
  }

  /** Joining the runs of lines between CRLFs. */
  function Runs(lines: seq<string>, crlf: seq<bool>): seq<string>
    requires |crlf| >= |lines| >= 1
  {
    if |lines| == 1 then [lines[0]]
    else
      var rest := Runs(lines[1..], crlf[1..]);
      if crlf[0] then [lines[0]] + rest else [lines[0] + "\n" + rest[0]] + rest[1..]
  }

  lemma {:induction false} RunsJoined(lines: seq<string>, crlf: seq<bool>)
    requires |crlf| >= |lines| >= 1
    ensures Runs(lines, crlf) != []
    ensures Join(Runs(lines, crlf), "\r\n") == JoinLines(lines, crlf)
    ensures Join(Runs(lines, crlf), "\n") == Join(lines, "\n")
  {
    if |lines| > 1 {
      RunsJoined(lines[1..], crlf[1..]);
      var rest := Runs(lines[1..], crlf[1..]);
      if !crlf[0] {
        var first := lines[0] + "\n" + rest[0];
        JoinHead(lines[0] + "\n", rest, "\r\n");
        JoinHead(lines[0] + "\n", rest, "\n");
        assert [first] + rest[1..] == [(lines[0] + "\n") + rest[0]] + rest[1..];
      } else {
        assert ([lines[0]] + rest)[1..] == rest;
      }
    }
  }

  lemma JoinHead(head: string, parts: seq<string>, sep: string)
    requires parts != []
    ensures Join([head + parts[0]] + parts[1..], sep) == head + Join(parts, sep)
  {
    var joined := [head + parts[0]] + parts[1..];
    assert joined[1..] == parts[1..];
    if |parts| > 1 {
      var tail := Join(parts[1..], sep);
      assert (head + parts[0]) + sep + tail == head + (parts[0] + sep + tail);
    }
  }

  lemma {:induction false} RunsClean(lines: seq<string>, crlf: seq<bool>)
    requires |crlf| >= |lines| >= 1
    requires forall i :: 0 <= i < |lines| ==> CleanLine(lines[i])
    ensures forall i :: 0 <= i < |Runs(lines, crlf)| ==> CleanLine(Runs(lines, crlf)[i])
  {
    if |lines| > 1 {
      RunsClean(lines[1..], crlf[1..]);
      var rest := Runs(lines[1..], crlf[1..]);
      if !crlf[0] {
        AvoidsGlue(lines[0], "\n", '\r', '\n');
        AvoidsGlue(lines[0] + "\n", rest[0], '\r', '\n');
      }
    }
  }

  /** Line endings of either kind, mixed in any way, change nothing: lines that do not end on a
      CR and hold no CRLF parse as they do with plain line feeds. */
  lemma LineEndsReadTheSame(lines: seq<string>, crlf: seq<bool>)
    requires |crlf| >= |lines| >= 1
    requires forall i :: 0 <= i < |lines| ==> CleanLine(lines[i])
    ensures ParseRecipes(JoinLines(lines, crlf)) == ParseRecipes(Join(lines, "\n"))
  {
    var runs := Runs(lines, crlf);
    RunsJoined(lines, crlf);
    RunsClean(lines, crlf);
    assert ['\r', '\n'] == "\r\n";
    forall i | 0 <= i < |runs| ensures CutsBefore(runs[i], "\r\n") && !Has(runs[i], "\r\n") {
      PairCuts(runs[i], '\r', '\n');
    }
    SplitJoined(runs, "\r\n");
    assert Normalise(JoinLines(lines, crlf)) == Join(lines, "\n");
    LinesJoinClean(lines);
    NormaliseClean(Join(lines, "\n"));
  }

  lemma {:induction false} LinesJoinClean(lines: seq<string>)
    requires lines != []
    requires forall i :: 0 <= i < |lines| ==> CleanLine(lines[i])
    ensures Avoids(Join(lines, "\n"), '\r', '\n')
  {
    if |lines| > 1 {
      LinesJoinClean(lines[1..]);
      AvoidsGlue(lines[0], "\n", '\r', '\n');
      AvoidsGlue(lines[0] + "\n", Join(lines[1..], "\n"), '\r', '\n');
    }
  }
}
