/** Exactly which recipes, and which lists of recipes, `parse_recipes` reads back from their
    canonical texts. That is what travels: a recipe's text is parsed again on every order. */
module RecipeWire {
  import opened Text
  import opened Counting
  import opened StringOrder
  import opened Recipe
  import opened RecipeSpec
  import opened RecipeRoundTrip
  import opened RecipeCanon
  import opened RecipeParallel
  import opened RecipeExact
  import opened RecipeBook
  import opened RecipePanics

  // ── Printing takes no character more often than it was read ───────────────────

  /** A character that canonical text never adds. */
  predicate Unwritten(c: char) {
    c !in "=,()[]^-> " && !IsDigit(c)
  }

  /** How often the character occurs in the keys and values. */
  function MapCount(c: char, m: map<string, string>): nat {
    if m == map[] then 0
    else
      assert exists k :: k in m;
      var k := Least(m.Keys);
      Count(c, k) + Count(c, m[k]) + MapCount(c, m - {k})
  }

  lemma {:induction false} MapCountWithout(c: char, m: map<string, string>, k: string)
    requires k in m
    ensures MapCount(c, m) == Count(c, k) + Count(c, m[k]) + MapCount(c, m - {k})
    decreases |m|
  {
    var l := Least(m.Keys);
    if l != k {
      var n := m - {l};
      assert k in n && n[k] == m[k];
      MapCountWithout(c, n, k);
      assert l in m - {k};
      MapCountWithout(c, m - {k}, l);
      assert n - {k} == (m - {k}) - {l};
    }
  }

  lemma MapCountInsert(c: char, m: map<string, string>, k: string, v: string)
    ensures MapCount(c, m[k := v]) <= MapCount(c, m) + Count(c, k) + Count(c, v)
  {
    var n := m[k := v];
    MapCountWithout(c, n, k);
    if k in m {
      MapCountWithout(c, m, k);
      assert n - {k} == m - {k};
    } else {
      assert n - {k} == m;
    }
  }

  lemma {:induction false} InsertedCount(c: char, tokens: seq<string>, acc: map<string, string>)
    requires Unwritten(c) && InsertParams(tokens, acc).Ok?
    ensures MapCount(c, InsertParams(tokens, acc).value) <= MapCount(c, acc) + CountSum(c, tokens)
  {
    if tokens != [] {
      hide Trim, Count, MapCount;
      var token := Trim(tokens[0]);
      var i := IndexOf(token, '=').value;
      var k, v := Trim(token[..i]), Trim(token[i + 1..]);
      CountTrim(c, tokens[0]);
      CountSlices(c, token, i, i + 1);
      CountTrim(c, token[..i]);
      CountTrim(c, token[i + 1..]);
      MapCountInsert(c, acc, k, v);
      InsertedCount(c, tokens[1..], acc[k := v]);
    }
  }

  lemma {:induction false} ParamsCount(c: char, m: map<string, string>)
    requires Unwritten(c)
    ensures CountSum(c, ParamTexts(m, SortedSeq(m.Keys))) == MapCount(c, m)
    decreases |m|
  {
    if m != map[] {
      assert exists k :: k in m;
      var k := Least(m.Keys);
      ParamsCount(c, m - {k});
      FirstParam(m, k);
      CountFramed(c, k, "=", m[k]);
    }
  }

  lemma FirstParam(m: map<string, string>, k: string)
    requires m.Keys != {} && k == Least(m.Keys)
    ensures var n := m - {k};
      ParamTexts(m, SortedSeq(m.Keys)) == [k + "=" + m[k]] + ParamTexts(n, SortedSeq(n.Keys))
  {
    hide SortedSeq, Least;
    var n := m - {k};
    assert n.Keys == m.Keys - {k};
    SortedFirst(m.Keys);
    TextsFrom(m, k, SortedSeq(n.Keys));
  }

  lemma SortedFirst(s: set<string>)
    requires s != {}
    ensures SortedSeq(s) == [Least(s)] + SortedSeq(s - {Least(s)})
  {}

  lemma TextsFrom(m: map<string, string>, k: string, keys: seq<string>)
    requires k in m && forall x :: x in keys ==> x in m && x != k
    ensures ParamTexts(m, [k] + keys) == [k + "=" + m[k]] + ParamTexts(m - {k}, keys)
  {
    var n := m - {k};
    forall i | 0 <= i < |keys| ensures keys[i] in n && n[keys[i]] == m[keys[i]] { assert keys[i] in keys; }
  }

  lemma ActionCount(c: char, a: ActionDef)
    requires Unwritten(c)
    ensures Count(c, ActionToDsl(a)) == Count(c, a.name) + MapCount(c, a.params)
  {
    if a.params != map[] {
      var texts := ParamTexts(a.params, SortedSeq(a.params.Keys));
      ParamsCount(c, a.params);
      CountJoined(c, texts, ",");
      CountFramed(c, a.name, "(", Join(texts, ","));
      CountFramed(c, a.name + "(" + Join(texts, ","), ")", "");
      var s := a.name + "(" + Join(texts, ",") + ")";
      assert s + "" == s;
      CountNone(c, "");
    }
  }

  lemma ParsedActionCount(c: char, body: string, stepIdx: nat)
    requires Unwritten(c) && ParseAction(body, stepIdx).Ok?
    ensures Count(c, ActionToDsl(ParseAction(body, stepIdx).value)) <= Count(c, body)
  {
    hide ActionToDsl, Count, Trim, MapCount, InsertParams;
    ActionCount(c, ParseAction(body, stepIdx).value);
    NoParams(c);
    match IndexOf(body, '(')
    case None => CountTrim(c, body);
    case Some(open) =>
      var close := FindLast(body, ')').value;
      var args := body[open + 1..close];
      CountTrim(c, body[..open]);
      CountInside(c, body, open, close);
      if Trim(args) != "" {
        InsertedCount(c, Split(args, ","), map[]);
        JoinSplit(args, ",");
        CountJoined(c, Split(args, ","), ",");
      }
  }

  lemma NoParams(c: char)
    ensures MapCount(c, map[]) == 0
  {}

  lemma CountInside(c: char, s: string, open: nat, close: nat)
    requires open < close < |s|
    ensures Count(c, s[..open]) + Count(c, s[open + 1..close]) <= Count(c, s)
  {
    CountSlices(c, s, open, open + 1);
    CountSlices(c, s[open + 1..], 0, close - open - 1);
    assert s[open + 1..][0..close - open - 1] == s[open + 1..close];
  }

  lemma ParsedStepCount(c: char, body: string, stepIdx: nat)
    requires Unwritten(c) && ParseStep(body, stepIdx).Ok?
    ensures Count(c, StepToDsl(ParseStep(body, stepIdx).value)) <= Count(c, body)
  {
    hide ActionToDsl, Count, Trim, ParseAction, CaretFrom, SplitFrom, NonEmpty, Collect, Decimal;
    if body != "" && body[0] == '[' {
      ParsedParallelCount(c, body, stepIdx);
    } else {
      match FindRepeatCaret(body)
      case None => ParsedActionCount(c, body, stepIdx);
      case Some(caret) =>
        var s := ParseStep(body, stepIdx).value;
        CountSlices(c, body, caret, caret);
        CountTrim(c, body[..caret]);
        ParsedActionCount(c, Trim(body[..caret]), stepIdx);
        DecimalReads(s.count);
        CountNone(c, Decimal(s.count));
        CountFramed(c, ActionToDsl(s.repeated), "^", Decimal(s.count));
    }
  }

  lemma ParsedParallelCount(c: char, body: string, stepIdx: nat)
    requires Unwritten(c) && body != "" && body[0] == '[' && ParseStep(body, stepIdx).Ok?
    ensures Count(c, StepToDsl(ParseStep(body, stepIdx).value)) <= Count(c, body)
  {
    hide ActionToDsl, Count, Trim, ParseAction, SplitFrom, NonEmpty, Collect;
    var inner := body[1..|body| - 1];
    var tokens := NonEmpty(SplitParallel(inner));
    var actions := ParseStep(body, stepIdx).value.actions;
    var texts := ActionTexts(actions);
    forall i | 0 <= i < |texts| ensures Count(c, tokens[i]) >= Count(c, texts[i]) {
      assert ParseTokens(tokens, stepIdx)[i] == Ok(actions[i]);
      CountTrim(c, tokens[i]);
      ParsedActionCount(c, Trim(tokens[i]), stepIdx);
    }
    SumOfMore(c, tokens, texts);
    SplitIsPieces(inner, "", 0);
    PiecesJoin(inner, "", 0);
    assert "" + inner == inner;
    CountKept(c, Pieces(inner, "", 0));
    CountJoined(c, Pieces(inner, "", 0), ",");
    CountSlices(c, body, 1, |body| - 1);
    CountJoined(c, texts, ", ");
    CountNone(c, "[");
    CountNone(c, "]");
    CountConcat(c, "[", Join(texts, ", "));
    CountConcat(c, "[" + Join(texts, ", "), "]");
  }

  lemma ParsedRecipeCount(c: char, block: string)
    requires Unwritten(c) && ParseRecipe(block).Ok?
    ensures Count(c, ParseRecipe(block).value.source) <= Count(c, block)
  {
    hide Count, Trim, ParseStep, NonEmpty, Collect, Split, StepToDsl, Join;
    var r := ParseRecipe(block).value;
    var i := IndexOf(block, '=').value;
    var rest := block[i + 1..];
    var bodies := StepBodies(rest);
    var texts := StepTexts(r.steps);
    forall k | 0 <= k < |texts| ensures Count(c, bodies[k]) >= Count(c, texts[k]) {
      assert ParseBodies(bodies)[k] == Ok(r.steps[k]);
      ParsedStepCount(c, bodies[k], k + 1);
    }
    SumOfMore(c, bodies, texts);
    CountKept(c, Split(rest, "->"));
    JoinSplit(rest, "->");
    CountJoined(c, Split(rest, "->"), "->");
    CountSlices(c, block, i, i + 1);
    CountTrim(c, block[..i]);
    CountJoined(c, texts, " -> ");
    CountFramed(c, r.name, " = ", Join(texts, " -> "));
  }

  // ── Reading a file back ───────────────────────────────────────────────────────

  lemma {:induction false} NormaliseLoses(text: string)
    ensures Count('\r', Normalise(text)) + |Split(text, "\r\n")| - 1 == Count('\r', text)
  {
    var parts := Split(text, "\r\n");
    JoinSplit(text, "\r\n");
    CountJoined('\r', parts, "\n");
    CountCrlf(parts);
  }

  lemma {:induction false} CountCrlf(parts: seq<string>)
    requires parts != []
    ensures Count('\r', Join(parts, "\r\n")) == CountSum('\r', parts) + |parts| - 1
  {
    if |parts| > 1 {
      CountCrlf(parts[1..]);
      var crlf := "\r\n";
      assert crlf == "\r" + "\n";
      CountConcat('\r', "\r", "\n");
      CountConcat('\r', parts[0], crlf);
      CountConcat('\r', parts[0] + crlf, Join(parts[1..], crlf));
    }
  }

  /** What is read from a file has no more CRs than the file keeps when line ends are made LF. */
  lemma ReadCount(text: string, recipes: seq<Recipe>)
    requires ParseRecipes(text) == Ok(recipes)
    ensures CountSum('\r', Sources(recipes)) <= Count('\r', Normalise(text))
  {
    hide Count, ParseRecipe, NonEmpty, Trim, Normalise, Split;
    var blocks := Blocks(text);
    var sources := Sources(recipes);
    forall i | 0 <= i < |sources| ensures Count('\r', blocks[i]) >= Count('\r', sources[i]) {
      assert ParseBlocks(blocks)[i] == Ok(recipes[i]);
      ParsedRecipeCount('\r', blocks[i]);
    }
    SumOfMore('\r', blocks, sources);
    var pieces := Split(Normalise(text), "\n\n");
    CountKept('\r', pieces);
    JoinSplit(Normalise(text), "\n\n");
    CountJoined('\r', pieces, "\n\n");
  }

  /** A file that reads back holds no CRLF: it would be read with a CR less. */
  lemma ReadBackHasNoCrlf(recipes: seq<Recipe>)
    requires ParseRecipes(FileText(recipes)) == Ok(recipes)
    ensures Avoids(FileText(recipes), '\r', '\n')
  {
    hide Count, ParseRecipes, Avoids;
    var text := FileText(recipes);
    ReadCount(text, recipes);
    NormaliseLoses(text);
    CountJoined('\r', Sources(recipes), "\n\n");
    assert ['\r', '\n'] == "\r\n";
    HasPair(text, '\r', '\n');
  }

  /** The name and the steps stand in the trimmed text as in the text. */
  lemma TrimmedReads(r: Recipe)
    requires RecipeShape(r)
    ensures ParseRecipe(Trim(r.source)) == ParseRecipe(r.source)
  {
    hide Trim, StepShape, StepFree, Split, Collect, Join, StepTexts, StepToDsl, NonEmpty;
    var rest := " " + Join(StepTexts(r.steps), " -> ");
    CanonFramed(r.name, r.steps);
    var kept, trail := TrimmedSource(r.name, rest);
    TrailIsDropped(kept, trail);
    var before := r.name + " ";
    IndexOfAt(before, '=', kept);
    IndexOfAt(before, '=', rest);
    assert (before + "=" + kept)[..|before|] == before == (before + "=" + rest)[..|before|];
    assert (before + "=" + kept)[|before| + 1..] == kept && (before + "=" + rest)[|before| + 1..] == rest;
  }

  lemma ReadBackIs(recipes: seq<Recipe>, i: nat)
    requires ParseRecipes(FileText(recipes)) == Ok(recipes) && i < |recipes|
    ensures RecipeShape(recipes[i]) && RecipeLineSafe(recipes[i])
  {
    hide ParseRecipe, ParseRecipes, RecipeShape, RecipeFree, Avoids, Normalise;
    var text := FileText(recipes);
    var r := recipes[i];
    assert r in recipes && IsLoaded(r);
    LoadedIs(r);
    ReadBackHasNoCrlf(recipes);
    NormaliseClean(text);
    var block := LoadedFrom(text, r);
    BlockAvoids(text, block, '\r', '\n');
    ParsedRecipeFree(block, '\r', '\n');
  }

  /** The text of a recipe of parsed shape ends on no line break. */
  lemma SourceEnds(r: Recipe)
    requires RecipeShape(r)
    ensures EndsOffLine(r.source) && Trim(r.source) != ""
  {
    hide StepShape, StepFree, StepToDsl, Join, Trim;
    var texts := StepTexts(r.steps);
    ShapedTextTrimmed(r.steps[|texts| - 1]);
    BodyEnds(texts);
    CanonFramed(r.name, r.steps);
    FramedEnds((r.name + " ") + "=", " " + Join(texts, " -> "));
    assert r.source[0] == r.name[0];
    TrimEmptyIsBlank(r.source);
  }

  lemma BodyEnds(texts: seq<string>)
    requires texts != [] && Trimmed(texts[|texts| - 1])
    ensures EndsOffLine(" " + Join(texts, " -> "))
  {
    if texts[|texts| - 1] != "" {
      JoinEnds(texts, " -> ");
    } else {
      EmptyEnd(texts, " -> ");
    }
  }

  lemma FramedEnds(a: string, b: string)
    requires EndsOffLine(b)
    ensures EndsOffLine(a + b)
  {
    assert (a + b)[|a + b| - 1] == b[|b| - 1];
  }

  lemma {:induction false} EmptyEnd(parts: seq<string>, sep: string)
    requires parts != [] && parts[|parts| - 1] == "" && sep != ""
    ensures Join(parts, sep) == "" || Join(parts, sep)[|Join(parts, sep)| - 1] == sep[|sep| - 1]
  {
    if |parts| > 1 {
      EmptyEnd(parts[1..], sep);
    }
  }

  lemma FileReadsOnlyIf(recipes: seq<Recipe>)
    requires ParseRecipes(FileText(recipes)) == Ok(recipes)
    ensures forall i :: 0 <= i < |recipes| ==> RecipeOnFile(recipes[i])
  {
    hide ParseRecipe, RecipeShape, RecipeReadable, RecipeFree, Trim, NonEmpty, Normalise, Join, ToDsl;
    if recipes != [] {
      var texts := Sources(recipes);
      forall i | 0 <= i < |recipes|
        ensures RecipeShape(recipes[i]) && RecipeLineSafe(recipes[i]) && Canonical(recipes[i])
        ensures LineSafe(texts[i]) && EndsOffLine(texts[i]) && Trim(texts[i]) != ""
      {
        ReadBackIs(recipes, i);
        ShapeIsCanonical(recipes[i]);
        SourceAvoids(recipes[i], '\n');
        SourceAvoids(recipes[i], '\r');
        SourceEnds(recipes[i]);
      }
      BlocksOfFile(texts);
      NonEmptyKeepsAll(TrimAll(texts));
      forall i | 0 <= i < |recipes| ensures RecipeOnFile(recipes[i]) {
        assert ParseBlocks(TrimAll(texts))[i] == Ok(recipes[i]);
        TrimmedReads(recipes[i]);
        RecipeRoundTripsIff(recipes[i].name, recipes[i].steps);
        assert ParseRecipe(recipes[i].source) == Ok(recipes[i]);
        SameRecipe(recipes[i]);
      }
    }
  }

  lemma SameRecipe(r: Recipe)
    requires Canonical(r)
    ensures r == Recipe(r.name, r.steps, ToDsl(r.name, r.steps))
  {}

  /** Exactly which lists of recipes come back when their texts are joined by blank lines and
      parsed: those in which every recipe meets the conditions on its own tokens. */
  lemma FileRoundTripsIff(recipes: seq<Recipe>)
    ensures ParseRecipes(FileText(recipes)) == Ok(recipes) <==>
      forall i :: 0 <= i < |recipes| ==> RecipeOnFile(recipes[i])
  {
    hide ParseRecipes, RecipeOnFile, FileText;
    if forall i :: 0 <= i < |recipes| ==> RecipeOnFile(recipes[i]) {
      FileRoundTrips(recipes);
    }
    if ParseRecipes(FileText(recipes)) == Ok(recipes) {
      FileReadsOnlyIf(recipes);
    }
  }

  /** Exactly which recipes come back from the text that is sent for them. */
  lemma WireRoundTripsIff(r: Recipe)
    ensures ParseRecipes(r.source) == Ok([r]) <==> RecipeOnFile(r)
  {
    hide ParseRecipes, RecipeOnFile;
    FileRoundTripsIff([r]);
    assert FileText([r]) == r.source;
  }
}
