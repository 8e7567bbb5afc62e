/** Exactly which recipes read back from their canonical text, and what every parsed recipe is
    made of. */
module RecipeExact {
  import opened Text
  import opened Recipe
  import opened RecipeSpec
  import opened RecipeLayout
  import opened RecipeRoundTrip
  import opened RecipeCanon
  import opened RecipeParallel

  // ── Pairs of characters in tokens and in canonical texts ──────────────────────

  /** No name, key or value of the action holds the pair. */
  ghost predicate ActionFree(a: ActionDef, x: char, y: char) {
    Avoids(a.name, x, y) && forall k :: k in a.params ==> Avoids(k, x, y) && Avoids(a.params[k], x, y)
  }

  ghost predicate StepFree(s: Step, x: char, y: char) {
    match s
    case Single(a) => ActionFree(a, x, y)
    case Repeated(a, _) => ActionFree(a, x, y)
    case Parallel(actions) => forall j :: 0 <= j < |actions| ==> ActionFree(actions[j], x, y)
  }

  lemma ActionTextAvoids(a: ActionDef, x: char, y: char)
    requires ActionFree(a, x, y) && Foreign(x, y)
    ensures Avoids(ActionToDsl(a), x, y)
  {
    CanonActionIs(a);
    assert ActionTokensAvoid(CanonAction(a), x, y);
    ActionAvoids(CanonAction(a), x, y);
  }

  /** Printing never puts together a pair that the syntax does not write. */
  lemma StepTextAvoids(s: Step, x: char, y: char)
    requires StepFree(s, x, y) && Foreign(x, y) && x != ' ' && y != ' '
    ensures Avoids(StepToDsl(s), x, y)
  {
    ForeignParts(x, y);
    match s
    case Single(a) => ActionTextAvoids(a, x, y);
    case Repeated(a, n) =>
      ActionTextAvoids(a, x, y);
      DecimalReads(n);
      assert Inert(Decimal(n), x, y);
      AvoidsBetween(ActionToDsl(a), "^", Decimal(n), x, y);
    case Parallel(actions) =>
      var texts := ActionTexts(actions);
      forall i | 0 <= i < |texts| ensures Avoids(texts[i], x, y) { ActionTextAvoids(actions[i], x, y); }
      var sep := ", ";
      assert sep[0] == ',' && sep[1] == ' ';
      AvoidsJoin(texts, ", ", x, y);
      AvoidsPadded("[", Join(texts, ", "), "]", x, y);
  }

  // ── Tokens of what is parsed are parts of the text ────────────────────────────

  lemma SliceAvoids(s: string, i: nat, j: nat, x: char, y: char)
    requires Avoids(s, x, y) && i <= j <= |s|
    ensures Avoids(s[i..j], x, y)
    ensures (i == 0 ==> Avoids(s[..j], x, y)) && (j == |s| ==> Avoids(s[i..], x, y))
  {
    forall k: nat ensures !PairAt(s[i..j], x, y, k) { assert !PairAt(s, x, y, i + k); }
    assert (i == 0 ==> s[..j] == s[i..j]) && (j == |s| ==> s[i..] == s[i..j]);
  }

  lemma TrimAvoids(s: string, x: char, y: char)
    requires Avoids(s, x, y)
    ensures Avoids(Trim(s), x, y)
  {
    var lead, trail := TrimDecomposes(s);
    SliceAvoids(s, |lead|, |lead| + |Trim(s)|, x, y);
    assert s[|lead|..|lead| + |Trim(s)|] == Trim(s);
  }

  lemma {:induction false} SplitAvoids(s: string, sep: string, x: char, y: char)
    requires Avoids(s, x, y) && sep != ""
    ensures forall p :: p in Split(s, sep) ==> Avoids(p, x, y)
    decreases |s|
  {
    match Find(s, sep)
    case None =>
    case Some(i) =>
      SliceAvoids(s, 0, i, x, y);
      SliceAvoids(s, i + |sep|, |s|, x, y);
      SplitAvoids(s[i + |sep|..], sep, x, y);
  }

  lemma {:induction false} TokensAvoid(s: string, current: string, d: nat, x: char, y: char)
    requires Avoids(current + s, x, y)
    ensures forall t :: t in SplitFrom(s, current, d) ==> Avoids(t, x, y)
    decreases |s|
  {
    var all := current + s;
    SliceAvoids(all, 0, |current|, x, y);
    assert all[0..|current|] == current;
    TrimAvoids(current, x, y);
    if s != "" {
      if s[0] == ',' && d == 0 {
        SliceAvoids(all, |current| + 1, |all|, x, y);
        assert all[|current| + 1..|all|] == "" + s[1..];
        TokensAvoid(s[1..], "", 0, x, y);
      } else {
        assert all == current + [s[0]] + s[1..];
        TokensAvoid(s[1..], current + [s[0]], DepthStep(d, s[0]), x, y);
      }
    }
  }

  lemma {:induction false} InsertedFree(tokens: seq<string>, acc: map<string, string>, x: char, y: char)
    requires forall t :: t in tokens ==> Avoids(t, x, y)
    requires forall k :: k in acc ==> Avoids(k, x, y) && Avoids(acc[k], x, y)
    requires InsertParams(tokens, acc).Ok?
    ensures var m := InsertParams(tokens, acc).value; forall k :: k in m ==> Avoids(k, x, y) && Avoids(m[k], x, y)
  {
    if tokens != [] {
      hide Avoids, Trim;
      var token := Trim(tokens[0]);
      TrimAvoids(tokens[0], x, y);
      var i := IndexOf(token, '=').value;
      SliceAvoids(token, 0, i, x, y);
      SliceAvoids(token, i + 1, |token|, x, y);
      TrimAvoids(token[..i], x, y);
      TrimAvoids(token[i + 1..], x, y);
      InsertedFree(tokens[1..], acc[Trim(token[..i]) := Trim(token[i + 1..])], x, y);
    }
  }

  lemma ParsedActionFree(body: string, stepIdx: nat, x: char, y: char)
    requires Avoids(body, x, y) && ParseAction(body, stepIdx).Ok?
    ensures ActionFree(ParseAction(body, stepIdx).value, x, y)
  {
    hide Avoids, Trim;
    match IndexOf(body, '(')
    case None => TrimAvoids(body, x, y);
    case Some(open) =>
      SliceAvoids(body, 0, open, x, y);
      TrimAvoids(body[..open], x, y);
      var close := FindLast(body, ')').value;
      var args := body[open + 1..close];
      SliceAvoids(body, open + 1, close, x, y);
      SplitAvoids(args, ",", x, y);
      if Trim(args) != "" { InsertedFree(Split(args, ","), map[], x, y); }
  }

  /** The shape of every step the parser can return. */
  predicate StepShape(s: Step) {
    match s
    case Single(a) => ActionShape(a)
    case Repeated(a, _) => ActionShape(a)
    case Parallel(actions) => forall j :: 0 <= j < |actions| ==> ActionShape(actions[j])
  }

  lemma ParsedStepIs(body: string, stepIdx: nat, x: char, y: char)
    requires Avoids(body, x, y) && ParseStep(body, stepIdx).Ok?
    ensures StepShape(ParseStep(body, stepIdx).value) && StepFree(ParseStep(body, stepIdx).value, x, y)
  {
    hide Avoids, Trim, ParseAction, ActionShape, ActionFree, CaretFrom, SplitFrom, NonEmpty, Collect;
    if body != "" && body[0] == '[' {
      var inner := body[1..|body| - 1];
      var tokens := NonEmpty(SplitParallel(inner));
      var actions := ParseStep(body, stepIdx).value.actions;
      SliceAvoids(body, 1, |body| - 1, x, y);
      assert "" + inner == inner;
      TokensAvoid(inner, "", 0, x, y);
      forall j | 0 <= j < |actions| ensures ActionShape(actions[j]) && ActionFree(actions[j], x, y) {
        assert ParseTokens(tokens, stepIdx)[j] == Ok(actions[j]);
        assert tokens[j] in SplitParallel(inner);
        TrimAvoids(tokens[j], x, y);
        ParsedActionShape(Trim(tokens[j]), stepIdx);
        ParsedActionFree(Trim(tokens[j]), stepIdx, x, y);
      }
    } else {
      match FindRepeatCaret(body)
      case Some(caret) =>
        SliceAvoids(body, 0, caret, x, y);
        TrimAvoids(body[..caret], x, y);
        ParsedActionShape(Trim(body[..caret]), stepIdx);
        ParsedActionFree(Trim(body[..caret]), stepIdx, x, y);
      case None =>
        ParsedActionShape(body, stepIdx);
        ParsedActionFree(body, stepIdx, x, y);
    }
  }

  predicate NameReadable(name: string) {
    name != "" && Trimmed(name) && '=' !in name
  }

  /** The shape of every recipe the parser can return. */
  ghost predicate RecipeShape(r: Recipe) {
    && Canonical(r) && NameReadable(r.name) && r.steps != []
    && forall i :: 0 <= i < |r.steps| ==> StepShape(r.steps[i]) && StepFree(r.steps[i], '-', '>')
  }

  ghost predicate RecipeFree(r: Recipe, x: char, y: char) {
    Avoids(r.name, x, y) && forall i :: 0 <= i < |r.steps| ==> StepFree(r.steps[i], x, y)
  }

  lemma BodiesHaveNoArrow(rest: string)
    ensures forall b :: b in StepBodies(rest) ==> Avoids(b, '-', '>')
  {
    var pieces := Split(rest, "->");
    SplitPiecesHaveNoSeparator(rest, "->");
    assert ['-', '>'] == "->";
    forall b | b in StepBodies(rest) ensures Avoids(b, '-', '>') {
      var i :| 0 <= i < |pieces| && TrimAll(pieces)[i] == b;
      HasPair(pieces[i], '-', '>');
      TrimAvoids(pieces[i], '-', '>');
    }
  }

  lemma BodiesAvoid(rest: string, x: char, y: char)
    requires Avoids(rest, x, y)
    ensures forall b :: b in StepBodies(rest) ==> Avoids(b, x, y)
  {
    var pieces := Split(rest, "->");
    SplitAvoids(rest, "->", x, y);
    forall b | b in StepBodies(rest) ensures Avoids(b, x, y) {
      var i :| 0 <= i < |pieces| && TrimAll(pieces)[i] == b;
      TrimAvoids(pieces[i], x, y);
    }
  }

  /** Whatever text it came from, a parsed recipe has that shape. */
  lemma ParsedRecipeShape(block: string)
    requires ParseRecipe(block).Ok?
    ensures RecipeShape(ParseRecipe(block).value)
  {
    hide Avoids, Trim, ParseStep, StepShape, StepFree, StepBodies, Collect;
    var r := ParseRecipe(block).value;
    var i := IndexOf(block, '=').value;
    TrimChars(block[..i]);
    var bodies := StepBodies(block[i + 1..]);
    BodiesHaveNoArrow(block[i + 1..]);
    forall k | 0 <= k < |r.steps| ensures StepShape(r.steps[k]) && StepFree(r.steps[k], '-', '>') {
      assert bodies[k] in bodies && ParseBodies(bodies)[k] == Ok(r.steps[k]);
      ParsedStepIs(bodies[k], k + 1, '-', '>');
    }
  }

  /** Its tokens hold no pair of characters that the text does not hold. */
  lemma ParsedRecipeFree(block: string, x: char, y: char)
    requires Avoids(block, x, y) && ParseRecipe(block).Ok?
    ensures RecipeFree(ParseRecipe(block).value, x, y)
  {
    hide Avoids, Trim, ParseStep, StepFree, StepBodies, Collect;
    var r := ParseRecipe(block).value;
    var i := IndexOf(block, '=').value;
    SliceAvoids(block, 0, i, x, y);
    SliceAvoids(block, i + 1, |block|, x, y);
    TrimAvoids(block[..i], x, y);
    var bodies := StepBodies(block[i + 1..]);
    BodiesAvoid(block[i + 1..], x, y);
    forall k | 0 <= k < |r.steps| ensures StepFree(r.steps[k], x, y) {
      assert bodies[k] in bodies && ParseBodies(bodies)[k] == Ok(r.steps[k]);
      ParsedStepIs(bodies[k], k + 1, x, y);
    }
  }

  // ── Exactly which steps and recipes read back ─────────────────────────────────

  /** The conditions of the four cases, in one place. */
  ghost predicate StepReadable(s: Step) {
    match s
    case Single(a) => ActionShape(a) && !StartsBracket(a.name) && !(a.params == map[] && EndsLikeRepeat(a.name))
    case Repeated(a, n) =>
      ActionShape(a) && Depth(ActionToDsl(a), 0) == 0 && !StartsBracket(ActionToDsl(a)) && 0 < n < U32_LIMIT
    case Parallel(actions) =>
      actions != [] && (forall a :: a in actions ==> Writable(a)) && Separable(ActionTexts(actions))
  }

  lemma StepRoundTripsIff(s: Step, stepIdx: nat)
    ensures ParseStep(StepToDsl(s), stepIdx) == Ok(s) <==> StepReadable(s)
  {
    hide ParseStep, ActionToDsl, Separable, Writable, Depth, ActionShape, EndsLikeRepeat;
    match s
    case Single(a) => SingleRoundTripsIff(a, stepIdx);
    case Repeated(a, n) => RepeatedRoundTripsIff(a, n, stepIdx);
    case Parallel(actions) => ParallelRoundTripsIff(actions, stepIdx);
  }

  lemma ShapedTextTrimmed(s: Step)
    requires StepShape(s)
    ensures Trimmed(StepToDsl(s))
  {
    hide ActionToDsl, ActionShape, Join;
    match s
    case Single(a) => ShapeTextTrimmed(a);
    case Repeated(a, n) =>
      ShapeTextTrimmed(a);
      DecimalReads(n);
      var t, digits := ActionToDsl(a), Decimal(n);
      assert (t + "^" + digits)[0] == if t == "" then '^' else t[0];
      assert (t + "^" + digits)[|t + "^" + digits| - 1] == digits[|digits| - 1];
    case Parallel(_) =>
  }

  lemma TrimOuter(lead: string, s: string, trail: string)
    requires Blank(lead) && Blank(trail)
    ensures Trim(lead + s + trail) == Trim(s)
  {
    var l, t := TrimDecomposes(s);
    assert lead + s + trail == (lead + l) + Trim(s) + (t + trail);
    TrimPadded(lead + l, Trim(s), t + trail);
  }

  lemma PaddedPiece(text: string, trail: string)
    requires Avoids(text, '-', '>') && (trail == "" || trail == " ")
    ensures var piece := " " + text + trail;
      CutsBefore(piece, "->") && !Has(piece, "->") && Trim(piece) == Trim(text)
  {
    assert ['-', '>'] == "->";
    AvoidsPadded(" ", text, trail, '-', '>');
    PairCuts(" " + text + trail, '-', '>');
    TrimOuter(" ", text, trail);
  }

  lemma PaddedJoin(texts: seq<string>)
    requires texts != []
    ensures " " + Join(texts, " -> ") == Join(PadAll(texts, " ", " "), "->")
  {
    hide Join;
    JoinPadAll(texts, " ", "->", " ");
    assert " " + "->" + " " == " -> ";
  }

  /** The bodies that the parser finds in texts joined by arrows: the trimmed texts, without the
      empty ones. */
  lemma BodiesOfTexts(texts: seq<string>)
    requires texts != [] && forall i :: 0 <= i < |texts| ==> Avoids(texts[i], '-', '>')
    ensures StepBodies(" " + Join(texts, " -> ")) == NonEmpty(TrimAll(texts))
  {
    hide NonEmpty, Split, Join, Trim, Avoids, CutsBefore, Has;
    var padded := PadAll(texts, " ", " ");
    PaddedJoin(texts);
    forall i | 0 <= i < |texts|
      ensures CutsBefore(padded[i], "->") && !Has(padded[i], "->") && Trim(padded[i]) == Trim(texts[i])
    {
      PaddedPiece(texts[i], if i == |texts| - 1 then "" else " ");
    }
    SplitJoined(padded, "->");
    assert TrimAll(padded) == TrimAll(texts);
  }

  lemma CanonBodies(steps: seq<Step>)
    requires steps != [] && forall i :: 0 <= i < |steps| ==> StepFree(steps[i], '-', '>')
    ensures StepBodies(" " + Join(StepTexts(steps), " -> ")) == NonEmpty(TrimAll(StepTexts(steps)))
  {
    hide StepToDsl, StepFree, NonEmpty, Trim;
    forall i | 0 <= i < |steps| ensures Avoids(StepTexts(steps)[i], '-', '>') { StepTextAvoids(steps[i], '-', '>'); }
    BodiesOfTexts(StepTexts(steps));
  }

  /** A step that a recipe can hold. */
  ghost predicate StepKept(s: Step) {
    StepReadable(s) && StepToDsl(s) != "" && StepFree(s, '-', '>')
  }

  ghost predicate RecipeReadable(name: string, steps: seq<Step>) {
    NameReadable(name) && steps != [] && forall i :: 0 <= i < |steps| ==> StepKept(steps[i])
  }

  lemma StepsReadBack(steps: seq<Step>)
    requires steps != [] && forall i :: 0 <= i < |steps| ==> StepKept(steps[i])
    ensures Collect(ParseBodies(StepBodies(" " + Join(StepTexts(steps), " -> ")))) == Ok(steps)
  {
    hide StepReadable, StepFree, StepToDsl, ParseStep, NonEmpty, StepBodies, Trim;
    var texts := StepTexts(steps);
    CanonBodies(steps);
    forall i | 0 <= i < |steps| ensures Trim(texts[i]) == texts[i] && ParseStep(texts[i], i + 1) == Ok(steps[i]) {
      StepRoundTripsIff(steps[i], i + 1);
      StepTextAvoids(steps[i], '-', '>');
      ParsedStepIs(texts[i], i + 1, '-', '>');
      ShapedTextTrimmed(steps[i]);
      TrimTrimmed(texts[i]);
    }
    assert TrimAll(texts) == texts;
    NonEmptyKeepsAll(texts);
    CollectOk(ParseBodies(texts), steps);
  }

  lemma StepsReadOnlyIf(steps: seq<Step>)
    requires steps != [] && forall i :: 0 <= i < |steps| ==> StepShape(steps[i]) && StepFree(steps[i], '-', '>')
    requires Collect(ParseBodies(StepBodies(" " + Join(StepTexts(steps), " -> ")))) == Ok(steps)
    ensures forall i :: 0 <= i < |steps| ==> StepKept(steps[i])
  {
    hide StepReadable, StepFree, StepToDsl, ParseStep, NonEmpty, StepBodies, Trim, StepShape;
    var texts := StepTexts(steps);
    CanonBodies(steps);
    NonEmptyDrops(TrimAll(texts));
    forall i | 0 <= i < |steps| ensures StepKept(steps[i]) {
      assert ParseBodies(TrimAll(texts))[i] == Ok(steps[i]);
      ShapedTextTrimmed(steps[i]);
      TrimTrimmed(texts[i]);
      assert TrimAll(texts)[i] == texts[i];
      StepRoundTripsIff(steps[i], i + 1);
    }
  }

  lemma CanonFramed(name: string, steps: seq<Step>)
    ensures ToDsl(name, steps) == (name + " ") + "=" + (" " + Join(StepTexts(steps), " -> "))
  {
    assert " = " == " " + "=" + " ";
  }

  /** Printing a recipe and parsing the text gives it back exactly when its name is non-empty,
      trimmed and free of `=`, it has a step, and each of its steps reads back by itself, has
      some text, and holds no arrow in a token. */
  lemma RecipeRoundTripsIff(name: string, steps: seq<Step>)
    ensures ParseRecipe(ToDsl(name, steps)) == Ok(Recipe(name, steps, ToDsl(name, steps))) <==>
      RecipeReadable(name, steps)
  {
    hide StepKept, StepShape, StepFree, Collect, StepBodies, Trim, Join, StepTexts;
    var rest := " " + Join(StepTexts(steps), " -> ");
    CanonFramed(name, steps);
    if RecipeReadable(name, steps) {
      TrimOuter("", name, " ");
      TrimTrimmed(name);
      assert "" + name + " " == name + " ";
      StepsReadBack(steps);
      ParseNamed(name + " ", rest, name, steps);
    }
    if ParseRecipe(ToDsl(name, steps)) == Ok(Recipe(name, steps, ToDsl(name, steps))) {
      ParsedRecipeShape(ToDsl(name, steps));
      IndexOfAt(name + " ", '=', rest);
      assert ToDsl(name, steps)[|name + " "| + 1..] == rest;
      StepsReadOnlyIf(steps);
    }
  }

  /** Recipes with a canonical layout are among them. */
  lemma LaidOutIsReadable(r: Recipe)
    requires RecipeOk(r)
    ensures RecipeReadable(r.name, r.steps)
  {
    hide RecipeReadable;
    CanonLayoutIs(r);
    RecipeReads(CanonLayout(r));
    RecipeRoundTripsIff(r.name, r.steps);
  }
}
