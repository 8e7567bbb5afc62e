/** When the parser panics: on which files it can, and why a recipe that was read from a sane file
    never brings it down again. */
module RecipePanics {
  import opened Text
  import opened StringOrder
  import opened Recipe
  import opened RecipeSpec
  import opened RecipeRoundTrip
  import opened RecipeCanon
  import opened RecipeParallel
  import opened RecipeExact
  import opened RecipeBook
  import opened LineEnds

  // ── Exactly when the parser panics ────────────────────────────────────────────

  /** The first result that is no value is a panic. */
  predicate FirstPanic<T>(results: seq<Parsed<T>>, i: nat) {
    i < |results| && results[i].Panicked? && forall j :: 0 <= j < i ==> results[j].Ok?
  }

  lemma {:induction false} CollectPanicsIff<T>(results: seq<Parsed<T>>)
    ensures Collect(results).Panicked? <==> exists i: nat :: FirstPanic(results, i)
  {
    if results != [] {
      var rest := results[1..];
      CollectPanicsIff(rest);
      if results[0].Ok? {
        if i: nat :| FirstPanic(rest, i) { assert FirstPanic(results, i + 1); }
        if i: nat :| FirstPanic(results, i) {
          assert rest[i - 1] == results[i] && forall j :: 0 <= j < i - 1 ==> rest[j] == results[j + 1];
          assert FirstPanic(rest, i - 1);
        }
      } else if results[0].Panicked? {
        assert FirstPanic(results, 0);
      }
    }
  }

  /** Both parentheses, and every closing one before every opening one. */
  predicate Backward(text: string) {
    && '(' in text && ')' in text
    && forall i, j :: 0 <= i < |text| && 0 <= j < |text| && text[i] == ')' && text[j] == '(' ==> i < j
  }

  /** The action texts of a step body, in the order in which they are parsed. */
  function ActionTextsIn(body: string): seq<string> {
    if body != "" && body[0] == '[' then
      if |body| < 2 || body[|body| - 1] != ']' then []
      else TrimAll(NonEmpty(SplitParallel(body[1..|body| - 1])))
    else
      match FindRepeatCaret(body)
      case None => [body]
      case Some(caret) =>
        if 0 < Numeral(body[caret + 1..]) < U32_LIMIT then [Trim(body[..caret])] else []
  }

  /** The step bodies of a block. */
  function BodiesIn(block: string): seq<string> {
    match IndexOf(block, '=')
    case None => []
    case Some(i) => if Trim(block[..i]) == "" then [] else StepBodies(block[i + 1..])
  }

  predicate ActionReadsOk(text: string) {
    ParseAction(text, 0).Ok?
  }

  lemma ActionIndex(text: string, stepIdx: nat)
    ensures ParseAction(text, stepIdx).Ok? <==> ActionReadsOk(text)
    ensures ParseAction(text, stepIdx).Panicked? <==> Backward(text)
  {
    ParseActionPanicsIff(text, stepIdx);
  }

  /** Action text `a` is the first of the step body that is not parsed, and it is backward. */
  predicate StepPanicsAt(body: string, a: nat) {
    TextsPanicAt(ActionTextsIn(body), a)
  }

  predicate TextsPanicAt(texts: seq<string>, a: nat) {
    a < |texts| && Backward(texts[a]) && forall j :: 0 <= j < a ==> ActionReadsOk(texts[j])
  }

  lemma StepPanicsIff(body: string, stepIdx: nat)
    ensures ParseStep(body, stepIdx).Panicked? <==> exists a: nat :: StepPanicsAt(body, a)
  {
    hide ParseAction, ActionReadsOk, Backward, Collect, CaretFrom, SplitFrom, NonEmpty, Trim, Numeral;
    if body != "" && body[0] == '[' {
      if |body| >= 2 && body[|body| - 1] == ']' {
        var tokens := NonEmpty(SplitParallel(body[1..|body| - 1]));
        TokensPanicIff(tokens, stepIdx);
        if a: nat :| StepPanicsAt(body, a) { assert FirstPanic(ParseTokens(tokens, stepIdx), a); }
        if a: nat :| FirstPanic(ParseTokens(tokens, stepIdx), a) { assert StepPanicsAt(body, a); }
      }
    } else {
      match FindRepeatCaret(body)
      case None =>
        ActionIndex(body, stepIdx);
        assert ActionTextsIn(body) == [body];
        assert StepPanicsAt(body, 0) <==> Backward(body);
      case Some(caret) =>
        ActionIndex(Trim(body[..caret]), stepIdx);
        assert 0 < Numeral(body[caret + 1..]) < U32_LIMIT ==> ActionTextsIn(body) == [Trim(body[..caret])];
        assert StepPanicsAt(body, 0) <==> 0 < Numeral(body[caret + 1..]) < U32_LIMIT && Backward(Trim(body[..caret]));
    }
  }

  lemma TokensPanicIff(tokens: seq<string>, stepIdx: nat)
    ensures var results := ParseTokens(tokens, stepIdx);
      && (Collect(results).Panicked? <==> exists i: nat :: FirstPanic(results, i))
      && forall i: nat :: FirstPanic(results, i) <==> TextsPanicAt(TrimAll(tokens), i)
  {
    hide ParseAction, ActionReadsOk, Backward, Collect, Trim;
    var results := ParseTokens(tokens, stepIdx);
    CollectPanicsIff(results);
    forall i | 0 <= i < |tokens|
      ensures results[i].Ok? <==> ActionReadsOk(TrimAll(tokens)[i])
      ensures results[i].Panicked? <==> Backward(TrimAll(tokens)[i])
    {
      ActionIndex(Trim(tokens[i]), stepIdx);
    }
  }

  /** Step body `s` is the first of the block that is not parsed, and it panics at `a`. */
  predicate BlockPanicsAt(block: string, s: nat, a: nat) {
    var bodies := BodiesIn(block);
    s < |bodies| && StepPanicsAt(bodies[s], a) && forall j :: 0 <= j < s ==> ParseStep(bodies[j], j + 1).Ok?
  }

  lemma BlockPanicsIff(block: string)
    ensures ParseRecipe(block).Panicked? <==> exists s: nat, a: nat :: BlockPanicsAt(block, s, a)
  {
    hide ParseStep, StepPanicsAt, Collect, StepBodies, Trim;
    var bodies := BodiesIn(block);
    var results := ParseBodies(bodies);
    CollectPanicsIff(results);
    forall i | 0 <= i < |bodies| ensures results[i].Panicked? <==> exists a: nat :: StepPanicsAt(bodies[i], a) {
      StepPanicsIff(bodies[i], i + 1);
    }
    if ParseRecipe(block).Panicked? {
      var s: nat :| FirstPanic(results, s);
      var a: nat :| StepPanicsAt(bodies[s], a);
      assert BlockPanicsAt(block, s, a);
    }
    if s: nat, a: nat :| BlockPanicsAt(block, s, a) {
      assert FirstPanic(results, s);
    }
  }

  /** Block `b` is the first of the file that is not parsed, and it panics at `s` and `a`. */
  predicate FilePanicsAt(input: string, b: nat, s: nat, a: nat) {
    var blocks := Blocks(input);
    b < |blocks| && BlockPanicsAt(blocks[b], s, a) && forall j :: 0 <= j < b ==> ParseRecipe(blocks[j]).Ok?
  }

  /** The parser panics on a file exactly if in the first block that it cannot parse, in the first
      step that it cannot parse, the first action text that it cannot parse has both parentheses
      and closes before it opens. */
  lemma ParserPanicsIff(input: string)
    ensures ParseRecipes(input).Panicked? <==> exists b: nat, s: nat, a: nat :: FilePanicsAt(input, b, s, a)
  {
    hide ParseRecipe, BlockPanicsAt, Blocks, Collect;
    var blocks := Blocks(input);
    var results := ParseBlocks(blocks);
    CollectPanicsIff(results);
    forall i | 0 <= i < |blocks|
      ensures results[i].Panicked? <==> exists s: nat, a: nat :: BlockPanicsAt(blocks[i], s, a)
    {
      BlockPanicsIff(blocks[i]);
    }
    if ParseRecipes(input).Panicked? {
      var b: nat :| FirstPanic(results, b);
      var s: nat, a: nat :| BlockPanicsAt(blocks[b], s, a);
      assert FilePanicsAt(input, b, s, a);
    }
    if b: nat, s: nat, a: nat :| FilePanicsAt(input, b, s, a) {
      assert FirstPanic(results, b);
    }
  }

  // ── Action texts that cannot bring it down ────────────────────────────────────

  /** If a parenthesis opens, some parenthesis that opens is closed later. */
  ghost predicate SomeClosed(s: string) {
    '(' in s ==> exists p, q :: 0 <= p < q < |s| && s[p] == '(' && s[q] == ')'
  }

  /** Every parenthesis that opens has a closing one somewhere after it. */
  ghost predicate AllClosed(s: string) {
    forall p :: 0 <= p < |s| && s[p] == '(' ==> exists q :: p < q < |s| && s[q] == ')'
  }

  lemma ClosedActionReturns(body: string, stepIdx: nat)
    requires SomeClosed(body)
    ensures !ParseAction(body, stepIdx).Panicked?
  {
    hide ParseAction;
    ParseActionPanicsIff(body, stepIdx);
  }

  lemma TrimClosed(s: string)
    requires SomeClosed(s)
    ensures SomeClosed(Trim(s))
  {
    var lead, trail := TrimDecomposes(s);
    BlankHasNone(lead, '(');
    BlankHasNone(trail, '(');
    BlankHasNone(lead, ')');
    BlankHasNone(trail, ')');
    if '(' in Trim(s) {
      var k :| 0 <= k < |Trim(s)| && Trim(s)[k] == '(';
      assert s[|lead| + k] == '(';
      var p, q :| 0 <= p < q < |s| && s[p] == '(' && s[q] == ')';
      var t := |lead| + |Trim(s)|;
      assert forall i :: 0 <= i < |s| ==>
        s[i] == if i < |lead| then lead[i] else if i < t then Trim(s)[i - |lead|] else trail[i - t];
      assert |lead| <= p && q < t;
      assert Trim(s)[p - |lead|] == '(' && Trim(s)[q - |lead|] == ')';
    }
  }

  /** A text that ends with all of its parentheses closed. */
  lemma {:induction false} DepthZeroCloses(s: string, d: nat)
    requires Depth(s, d) == 0
    ensures d > 0 ==> exists q :: 0 <= q < |s| && s[q] == ')'
    ensures d == 0 ==> SomeClosed(s)
  {
    if s != "" {
      DepthZeroCloses(s[1..], DepthStep(d, s[0]));
      if d > 0 && s[0] != ')' {
        var q :| 0 <= q < |s[1..]| && s[1..][q] == ')';
        assert s[q + 1] == ')';
      }
      if d == 0 && s[0] == '(' {
        var q :| 0 <= q < |s[1..]| && s[1..][q] == ')';
        assert s[0] == '(' && s[q + 1] == ')';
      } else if d == 0 && '(' in s {
        assert '(' in s[1..];
        var p, q :| 0 <= p < q < |s[1..]| && s[1..][p] == '(' && s[1..][q] == ')';
        assert s[p + 1] == '(' && s[q + 1] == ')';
      }
    }
  }

  lemma AllClosedSuffix(before: string, s: string)
    requires AllClosed(before + s)
    ensures SomeClosed(s)
  {
    if '(' in s {
      var p :| 0 <= p < |s| && s[p] == '(';
      assert (before + s)[|before| + p] == '(';
      var q :| |before| + p < q < |before + s| && (before + s)[q] == ')';
      assert s[q - |before|] == ')';
    }
  }

  lemma AllClosedConcat(a: string, b: string)
    requires AllClosed(a) && AllClosed(b)
    ensures AllClosed(a + b)
  {
    var s := a + b;
    forall p | 0 <= p < |s| && s[p] == '(' ensures exists q :: p < q < |s| && s[q] == ')' {
      if p < |a| {
        var q :| p < q < |a| && a[q] == ')';
        assert s[q] == ')';
      } else {
        var q :| p - |a| < q < |b| && b[q] == ')';
        assert s[|a| + q] == ')';
      }
    }
  }

  lemma {:induction false} AllClosedJoin(parts: seq<string>, sep: string)
    requires AllClosed(sep) && forall i :: 0 <= i < |parts| ==> AllClosed(parts[i])
    ensures AllClosed(Join(parts, sep))
  {
    if |parts| > 1 {
      AllClosedJoin(parts[1..], sep);
      AllClosedConcat(parts[0], sep);
      AllClosedConcat(parts[0] + sep, Join(parts[1..], sep));
    }
  }

  lemma ActionTextClosed(a: ActionDef)
    requires ActionShape(a)
    ensures AllClosed(ActionToDsl(a)) && (a.params == map[] ==> '(' !in ActionToDsl(a))
    ensures a.params != map[] ==> ActionToDsl(a) != "" && ActionToDsl(a)[|ActionToDsl(a)| - 1] == ')'
  {
    var s := ActionToDsl(a);
    if a.params != map[] {
      ShapeTextTrimmed(a);
      forall p | 0 <= p < |s| && s[p] == '(' ensures exists q :: p < q < |s| && s[q] == ')' {
        assert p < |s| - 1 && s[|s| - 1] == ')';
      }
    }
  }

  // ── Canonical steps ───────────────────────────────────────────────────────────

  lemma {:induction false} CollectReturns<T>(results: seq<Parsed<T>>)
    requires forall i :: 0 <= i < |results| ==> !results[i].Panicked?
    ensures !Collect(results).Panicked?
  {
    if results != [] { CollectReturns(results[1..]); }
  }

  lemma {:induction false} LastIsSuffix(parts: seq<string>, sep: string) returns (before: string)
    requires parts != []
    ensures Join(parts, sep) == before + parts[|parts| - 1]
  {
    if |parts| == 1 {
      before := "";
      assert "" + parts[0] == parts[0];
    } else {
      var rest := LastIsSuffix(parts[1..], sep);
      var head, last := parts[0] + sep, parts[|parts| - 1];
      before := head + rest;
      assert parts[1..][|parts| - 2] == last;
      assert head + (rest + last) == before + last;
    }
  }

  lemma TokensReturn(inner: string, stepIdx: nat)
    requires AllClosed(inner)
    ensures !Collect(ParseTokens(NonEmpty(SplitParallel(inner)), stepIdx)).Panicked?
  {
    hide ParseAction, Trim, SomeClosed, AllClosed, Depth, Quiet, SplitFrom, NonEmpty;
    var pieces := Pieces(inner, "", 0);
    var tokens := NonEmpty(TrimAll(pieces));
    SplitIsPieces(inner, "", 0);
    PiecesJoin(inner, "", 0);
    assert "" + inner == inner;
    BlankLevel("", 0);
    PiecesAreSeparable(inner, "", 0);
    var before := LastIsSuffix(pieces, ",");
    AllClosedSuffix(before, pieces[|pieces| - 1]);
    forall i | 0 <= i < |pieces| ensures SomeClosed(pieces[i]) {
      if i < |pieces| - 1 { DepthZeroCloses(pieces[i], 0); }
    }
    forall k | 0 <= k < |tokens| ensures !ParseTokens(tokens, stepIdx)[k].Panicked? {
      assert tokens[k] in TrimAll(pieces);
      var i :| 0 <= i < |pieces| && TrimAll(pieces)[i] == tokens[k];
      TrimClosed(pieces[i]);
      TrimClosed(tokens[k]);
      ClosedActionReturns(Trim(tokens[k]), stepIdx);
    }
    CollectReturns(ParseTokens(tokens, stepIdx));
  }

  lemma BracketReturns(body: string, stepIdx: nat)
    requires StartsBracket(body) && (body[|body| - 1] == ']' ==> AllClosed(body))
    ensures !ParseStep(body, stepIdx).Panicked?
  {
    hide Collect, ParseTokens, SplitParallel, NonEmpty;
    if |body| >= 2 && body[|body| - 1] == ']' {
      var inner := body[1..|body| - 1];
      forall p | 0 <= p < |inner| && inner[p] == '(' ensures exists q :: p < q < |inner| && inner[q] == ')' {
        assert body[p + 1] == '(';
        var q :| p + 1 < q < |body| && body[q] == ')';
        assert inner[q - 1] == ')';
      }
      TokensReturn(inner, stepIdx);
    }
  }

  /** Texts that canonical steps have, whatever is done to the line ends in them: one that closes
      all it opens, with a count or without, or a bracketed list of such. */
  ghost predicate ActionLike(t: string) {
    AllClosed(t) && ('(' in t ==> t[|t| - 1] == ')')
  }

  ghost predicate RepeatLike(t: string) {
    exists u, digits :: t == u + "^" + digits && AllClosed(u) && AllDigits(digits)
  }

  ghost predicate ListLike(t: string) {
    exists inner :: t == "[" + inner + "]" && AllClosed(inner)
  }

  ghost predicate StepLike(t: string) {
    ActionLike(t) || RepeatLike(t) || ListLike(t)
  }

  lemma ClosedIsSome(s: string)
    requires AllClosed(s)
    ensures SomeClosed(s)
  {
    if '(' in s {
      var p :| 0 <= p < |s| && s[p] == '(';
    }
  }

  lemma ActionLikeReturns(t: string, stepIdx: nat)
    requires ActionLike(t)
    ensures !ParseStep(t, stepIdx).Panicked?
  {
    hide ParseAction, CaretFrom, Trim, AllClosed, SomeClosed;
    if StartsBracket(t) {
      BracketReturns(t, stepIdx);
    } else {
      match FindRepeatCaret(t)
      case None =>
        ClosedIsSome(t);
        ClosedActionReturns(t, stepIdx);
      case Some(caret) =>
        if '(' in t {
          EndsInParen(t);
        } else {
          assert '(' !in t[..caret];
          NoneIsSome(t[..caret]);
          TrimClosed(t[..caret]);
          ClosedActionReturns(Trim(t[..caret]), stepIdx);
        }
    }
  }

  lemma NoneIsSome(s: string)
    requires '(' !in s
    ensures SomeClosed(s)
  {}

  lemma RepeatLikeReturns(u: string, digits: string, stepIdx: nat)
    requires AllClosed(u) && AllDigits(digits)
    ensures !ParseStep(u + "^" + digits, stepIdx).Panicked?
  {
    hide ParseAction, CaretFrom, Trim, AllClosed, SomeClosed;
    var body := u + "^" + digits;
    assert body[|body| - 1] == digits[|digits| - 1];
    if StartsBracket(body) {
      BracketReturns(body, stepIdx);
    } else {
      match FindRepeatCaret(body)
      case Some(v) =>
        OnlyLastCaretRepeats(u, digits, v);
        assert body[..v] == u;
        ClosedIsSome(u);
        TrimClosed(u);
        ClosedActionReturns(Trim(u), stepIdx);
      case None =>
        NoParens("^" + digits);
        AllClosedConcat(u, "^" + digits);
        assert body == u + ("^" + digits);
        ClosedIsSome(body);
        ClosedActionReturns(body, stepIdx);
    }
  }

  lemma NoParens(s: string)
    requires s != "" && s[0] == '^' && AllDigits(s[1..])
    ensures AllClosed(s)
  {
    assert forall i :: 1 <= i < |s| ==> s[i] == s[1..][i - 1];
  }

  lemma ListLikeReturns(inner: string, stepIdx: nat)
    requires AllClosed(inner)
    ensures !ParseStep("[" + inner + "]", stepIdx).Panicked?
  {
    AllClosedConcat("[", inner);
    AllClosedConcat("[" + inner, "]");
    BracketReturns("[" + inner + "]", stepIdx);
  }

  lemma StepLikeReturns(t: string, stepIdx: nat)
    requires StepLike(t)
    ensures !ParseStep(t, stepIdx).Panicked?
  {
    hide ParseStep, AllClosed;
    if ActionLike(t) {
      ActionLikeReturns(t, stepIdx);
    } else if RepeatLike(t) {
      var u, digits :| t == u + "^" + digits && AllClosed(u) && AllDigits(digits);
      RepeatLikeReturns(u, digits, stepIdx);
    } else {
      var inner :| t == "[" + inner + "]" && AllClosed(inner);
      ListLikeReturns(inner, stepIdx);
    }
  }

  lemma StepTextIsLike(s: Step)
    requires StepShape(s)
    ensures StepLike(StepToDsl(s))
  {
    hide ActionToDsl, ActionShape, AllClosed, Decimal;
    match s
    case Single(a) => ActionTextClosed(a);
    case Repeated(a, n) =>
      ActionTextClosed(a);
      DecimalReads(n);
      assert RepeatLike(ActionToDsl(a) + "^" + Decimal(n));
    case Parallel(actions) =>
      var texts := ActionTexts(actions);
      forall i | 0 <= i < |texts| ensures AllClosed(texts[i]) { ActionTextClosed(actions[i]); }
      SepClosed();
      AllClosedJoin(texts, ", ");
      assert ListLike("[" + Join(texts, ", ") + "]");
  }

  lemma SepClosed()
    ensures AllClosed(", ")
  {}

  /** Whatever step was parsed once, its canonical text is parsed or refused. */
  lemma StepReturns(s: Step, stepIdx: nat)
    requires StepShape(s)
    ensures !ParseStep(StepToDsl(s), stepIdx).Panicked?
  {
    hide ParseStep, StepToDsl, StepLike;
    StepTextIsLike(s);
    StepLikeReturns(StepToDsl(s), stepIdx);
  }

  // ── The same with every CRLF made a line feed ─────────────────────────────────

  lemma {:induction false} LfClosed(s: string)
    requires AllClosed(s)
    ensures AllClosed(Lf(s))
  {
    if s != "" {
      var n := if |s| >= 2 && s[0] == '\r' && s[1] == '\n' then 2 else 1;
      var rest := s[n..];
      forall p | 0 <= p < |rest| && rest[p] == '(' ensures exists q :: p < q < |rest| && rest[q] == ')' {
        assert s[p + n] == '(';
        var q :| p + n < q < |s| && s[q] == ')';
        assert rest[q - n] == ')';
      }
      LfClosed(rest);
      HeadClosed(s, rest, n);
      AllClosedCons(if n == 2 then '\n' else s[0], Lf(rest));
    }
  }

  lemma HeadClosed(s: string, rest: string, n: nat)
    requires AllClosed(s) && 1 <= n <= 2 && n <= |s| && rest == s[n..]
    ensures n == 1 && s[0] == '(' ==> ')' in Lf(rest)
  {
    LfChars(rest);
    if n == 1 && s[0] == '(' {
      var q :| 0 < q < |s| && s[q] == ')';
      assert rest[q - 1] == ')';
    }
  }

  lemma AllClosedCons(c: char, s: string)
    requires AllClosed(s) && (c == '(' ==> ')' in s)
    ensures AllClosed([c] + s)
  {
    var t := [c] + s;
    forall p | 0 <= p < |t| && t[p] == '(' ensures exists q :: p < q < |t| && t[q] == ')' {
      if p == 0 {
        var k :| 0 <= k < |s| && s[k] == ')';
        assert t[k + 1] == ')';
      } else {
        var q :| p - 1 < q < |s| && s[q] == ')';
        assert t[q + 1] == ')';
      }
    }
  }

  lemma LfLike(t: string)
    requires StepLike(t)
    ensures StepLike(Lf(t))
  {
    hide AllClosed, Lf;
    if ActionLike(t) {
      LfClosed(t);
      LfChars(t);
      if t != "" { LfEnds(t); }
    } else if RepeatLike(t) {
      var u, digits :| t == u + "^" + digits && AllClosed(u) && AllDigits(digits);
      LfClosed(u);
      LfBetween(u, "^", digits);
      NoLineBreak(digits);
      LfKeeps(digits);
      assert RepeatLike(Lf(t));
    } else {
      var inner :| t == "[" + inner + "]" && AllClosed(inner);
      LfClosed(inner);
      LfBracketed(inner);
      assert ListLike(Lf(t));
    }
  }

  lemma NoLineBreak(digits: string)
    requires AllDigits(digits)
    ensures Avoids(digits, '\r', '\n')
  {}

  lemma LfBracketed(inner: string)
    ensures Lf("[" + inner + "]") == "[" + Lf(inner) + "]"
  {
    LfKeeps("[");
    LfKeeps("]");
    LfConcat("[", inner);
    LfConcat("[" + inner, "]");
  }

  // ── LF CR LF in canonical text is LF CR LF in a token ─────────────────────────

  ghost predicate ActionUnbroken(a: ActionDef) {
    Unbroken(a.name) && forall k :: k in a.params ==> Unbroken(k) && Unbroken(a.params[k])
  }

  ghost predicate StepUnbroken(s: Step) {
    match s
    case Single(a) => ActionUnbroken(a)
    case Repeated(a, _) => ActionUnbroken(a)
    case Parallel(actions) => forall j :: 0 <= j < |actions| ==> ActionUnbroken(actions[j])
  }

  ghost predicate RecipeUnbroken(r: Recipe) {
    Unbroken(r.name) && forall i :: 0 <= i < |r.steps| ==> StepUnbroken(r.steps[i])
  }

  lemma ActionTextUnbroken(a: ActionDef)
    requires ActionUnbroken(a)
    ensures Unbroken(ActionToDsl(a))
  {
    hide Unbroken, Join, SortedSeq;
    if a.params != map[] {
      var texts := ParamTexts(a.params, SortedSeq(a.params.Keys));
      forall i | 0 <= i < |texts| ensures Unbroken(texts[i]) {
        var k := SortedSeq(a.params.Keys)[i];
        UnbrokenBetween(k, "=", a.params[k]);
      }
      UnbrokenJoin(texts, ",");
      UnbrokenBetween(a.name, "(", Join(texts, ","));
      UnbrokenWithout("");
      var s := a.name + "(" + Join(texts, ",");
      UnbrokenBetween(s, ")", "");
      assert s + ")" + "" == s + ")";
    }
  }

  lemma StepTextUnbroken(s: Step)
    requires StepUnbroken(s)
    ensures Unbroken(StepToDsl(s))
  {
    hide Unbroken, Join, ActionToDsl, ActionUnbroken;
    match s
    case Single(a) => ActionTextUnbroken(a);
    case Repeated(a, n) =>
      ActionTextUnbroken(a);
      DecimalReads(n);
      UnbrokenWithout(Decimal(n));
      UnbrokenBetween(ActionToDsl(a), "^", Decimal(n));
    case Parallel(actions) =>
      var texts := ActionTexts(actions);
      forall i | 0 <= i < |texts| ensures Unbroken(texts[i]) { ActionTextUnbroken(actions[i]); }
      UnbrokenJoin(texts, ", ");
      UnbrokenWithout("");
      UnbrokenBetween("", "[", Join(texts, ", "));
      UnbrokenBetween("" + "[" + Join(texts, ", "), "]", "");
      assert "" + "[" + Join(texts, ", ") + "]" + "" == "[" + Join(texts, ", ") + "]";
  }

  // ── Canonical recipes ─────────────────────────────────────────────────────────

  lemma ArrowAt(s: string, trail: string, j: nat)
    requires Blank(trail)
    ensures OccursAt(s + trail, "->", j) <==> OccursAt(s, "->", j)
  {
    BlankHasNone(trail, '-');
    BlankHasNone(trail, '>');
    assert ['-', '>'] == "->";
    OccursPair(s + trail, '-', '>', j);
    OccursPair(s, '-', '>', j);
  }

  /** White space at the end of a recipe changes none of its bodies. */
  lemma {:induction false} TrailIsDropped(s: string, trail: string)
    requires Blank(trail)
    ensures TrimAll(Split(s + trail, "->")) == TrimAll(Split(s, "->"))
    decreases |s|
  {
    forall j: nat ensures OccursAt(s + trail, "->", j) <==> OccursAt(s, "->", j) { ArrowAt(s, trail, j); }
    match Find(s, "->")
    case None =>
      TrimOuter("", s, trail);
      assert "" + s + trail == s + trail;
      assert Find(s + trail, "->").None?;
    case Some(i) =>
      FindUnique(s + trail, "->", i);
      var rest := s[i + 2..];
      assert s == s[..i + 2] + rest && s + trail == s[..i + 2] + (rest + trail);
      TrailIsDropped(rest, trail);
      assert (s + trail)[..i] == s[..i] && (s + trail)[i + 2..] == rest + trail;
      assert Split(s, "->") == [s[..i]] + Split(rest, "->");
      assert Split(s + trail, "->") == [s[..i]] + Split(rest + trail, "->");
      AllTrimmed(s[..i], Split(rest, "->"));
      AllTrimmed(s[..i], Split(rest + trail, "->"));
  }

  lemma AllTrimmed(part: string, parts: seq<string>)
    ensures TrimAll([part] + parts) == [Trim(part)] + TrimAll(parts)
  {}

  lemma NoLead(lead: string, rest: string)
    requires Blank(lead)
    ensures var s := lead + rest; s != "" && !IsSpace(s[0]) ==> lead == ""
  {
    if lead != "" { assert (lead + rest)[0] == lead[0]; }
  }

  /** The recipe's canonical text, once trimmed, is still its name, `=` and its steps. */
  lemma TrimmedSource(name: string, rest: string) returns (kept: string, trail: string)
    requires name != "" && Trimmed(name)
    ensures Blank(trail) && rest == kept + trail
    ensures Trim((name + " ") + "=" + rest) == (name + " ") + "=" + kept
  {
    var before := (name + " ") + "=";
    var s := before + rest;
    var l, t := TrimDecomposes(s);
    trail := t;
    assert s[0] == name[0];
    assert s == l + (Trim(s) + t);
    NoLead(l, Trim(s) + t);
    kept := TailOnly(before, rest, Trim(s), t);
  }

  lemma TailOnly(before: string, rest: string, core: string, t: string) returns (kept: string)
    requires before + rest == core + t && Blank(t) && before != "" && !IsSpace(before[|before| - 1])
    ensures rest == kept + t && core == before + kept
  {
    var s := before + rest;
    var n := |core|;
    assert forall k :: n <= k < |s| ==> s[k] == t[k - n];
    assert s[|before| - 1] == before[|before| - 1];
    kept := s[|before|..n];
    assert s[..n] == core && s[n..] == t && s[|before|..] == rest;
  }

  /** The text of one recipe whose step texts have that shape. */
  ghost predicate BlockLike(name: string, texts: seq<string>) {
    && NameReadable(name) && texts != []
    && forall i :: 0 <= i < |texts| ==> StepLike(texts[i]) && Trimmed(texts[i]) && Avoids(texts[i], '-', '>')
  }

  lemma BlockLikeReturns(name: string, texts: seq<string>)
    requires BlockLike(name, texts)
    ensures !ParseRecipe(Trim((name + " ") + "=" + (" " + Join(texts, " -> ")))).Panicked?
  {
    hide Trim, StepLike, Split, Collect, Join, NonEmpty, ParseStep, Avoids;
    var kept, trail := TrimmedSource(name, " " + Join(texts, " -> "));
    TrailIsDropped(kept, trail);
    BodiesOfTexts(texts);
    forall i | 0 <= i < |texts| ensures Trim(texts[i]) == texts[i] { TrimTrimmed(texts[i]); }
    assert TrimAll(texts) == texts;
    var bodies := NonEmpty(texts);
    assert StepBodies(kept) == bodies;
    forall k | 0 <= k < |bodies| ensures !ParseBodies(bodies)[k].Panicked? {
      assert bodies[k] in texts;
      var i :| 0 <= i < |texts| && texts[i] == bodies[k];
      StepLikeReturns(texts[i], k + 1);
    }
    CollectReturns(ParseBodies(bodies));
    var block := (name + " ") + "=" + kept;
    IndexOfAt(name + " ", '=', kept);
    assert block[|name + " "| + 1..] == kept;
  }

  lemma LfSource(name: string, texts: seq<string>)
    ensures Lf((name + " ") + "=" + (" " + Join(texts, " -> "))) ==
      (Lf(name) + " ") + "=" + (" " + Join(LfAll(texts), " -> "))
  {
    hide Lf, Join;
    var arrow := " -> ";
    assert arrow[0] == ' ' && arrow[1] == '-' && arrow[2] == '>' && arrow[3] == ' ';
    LfJoin(texts, arrow);
    var body := Join(texts, arrow);
    LfBetween(name, " = ", body);
    assert " = " == " " + "=" + " ";
    assert (name + " ") + "=" + (" " + body) == name + " = " + body;
    assert (Lf(name) + " ") + "=" + (" " + Lf(body)) == Lf(name) + " = " + Lf(body);
  }

  lemma LfBlock(r: Recipe)
    requires RecipeShape(r) && RecipeFree(r, '\n', '\n') && RecipeUnbroken(r)
    ensures BlockLike(Lf(r.name), LfAll(StepTexts(r.steps)))
    ensures Avoids(Lf(r.name), '\n', '\n')
    ensures forall t :: t in LfAll(StepTexts(r.steps)) ==> Avoids(t, '\n', '\n')
  {
    hide StepToDsl, StepShape, StepFree, StepLike, Lf, StepUnbroken, Unbroken, Avoids;
    var texts := StepTexts(r.steps);
    LfChars(r.name);
    LfTrimmed(r.name);
    LfUnbroken(r.name);
    ArrowInert('\n', '\n');
    forall i | 0 <= i < |texts|
      ensures StepLike(Lf(texts[i])) && Trimmed(Lf(texts[i])) && Avoids(Lf(texts[i]), '-', '>')
      ensures Avoids(Lf(texts[i]), '\n', '\n')
    {
      StepTextIsLike(r.steps[i]);
      LfLike(texts[i]);
      ShapedTextTrimmed(r.steps[i]);
      LfTrimmed(texts[i]);
      ArrowForeign();
      StepTextAvoids(r.steps[i], '-', '>');
      LfAvoids(texts[i], '-', '>');
      StepTextAvoids(r.steps[i], '\n', '\n');
      StepTextUnbroken(r.steps[i]);
      LfUnbroken(texts[i]);
    }
  }

  lemma ArrowForeign()
    ensures Foreign('-', '>')
  {}

  /** A parsed recipe whose tokens hold no blank line and no LF CR LF never makes the parser panic
      when its canonical text is parsed again. */
  lemma ReparseReturns(r: Recipe)
    requires RecipeShape(r) && RecipeFree(r, '\n', '\n') && RecipeUnbroken(r)
    ensures !ParseRecipes(r.source).Panicked?
  {
    hide RecipeShape, ParseRecipe, RecipeFree, RecipeUnbroken, Trim, NonEmpty, Avoids, Lf, BlockLike, Join, StepTexts;
    ShapeIsCanonical(r);
    CanonFramed(r.name, r.steps);
    NormaliseIsLf(r.source);
    LfSource(r.name, StepTexts(r.steps));
    LfBlock(r);
    var name, texts := Lf(r.name), LfAll(StepTexts(r.steps));
    var text := (name + " ") + "=" + (" " + Join(texts, " -> "));
    ArrowInert('\n', '\n');
    AvoidsJoin(texts, " -> ", '\n', '\n');
    AvoidsBetween(name, " = ", Join(texts, " -> "), '\n', '\n');
    assert " = " == " " + "=" + " ";
    assert text == name + " = " + Join(texts, " -> ");
    assert ['\n', '\n'] == "\n\n";
    HasPair(text, '\n', '\n');
    assert Split(text, "\n\n") == [text];
    BlockLikeReturns(name, texts);
    var blocks := Blocks(r.source);
    forall k | 0 <= k < |blocks| ensures !ParseBlocks(blocks)[k].Panicked? {
      assert blocks[k] in TrimAll([text]);
    }
    CollectReturns(ParseBlocks(blocks));
  }

  lemma ShapeIsCanonical(r: Recipe)
    requires RecipeShape(r)
    ensures Canonical(r)
  {}

  // ── Recipes that come from a file ─────────────────────────────────────────────

  /** What the parser read from some file. */
  ghost predicate IsLoaded(r: Recipe) {
    exists file :: ParseRecipes(file).Ok? && r in ParseRecipes(file).value
  }

  lemma LoadedFrom(file: string, r: Recipe) returns (block: string)
    requires ParseRecipes(file).Ok? && r in ParseRecipes(file).value
    ensures block in Blocks(file) && ParseRecipe(block) == Ok(r)
  {
    var results := ParseBlocks(Blocks(file));
    var k :| 0 <= k < |ParseRecipes(file).value| && ParseRecipes(file).value[k] == r;
    assert results[k] == Ok(r);
    block := Blocks(file)[k];
  }

  lemma BlockAvoids(file: string, block: string, x: char, y: char)
    requires block in Blocks(file) && Avoids(Normalise(file), x, y)
    ensures Avoids(block, x, y)
  {
    var pieces := Split(Normalise(file), "\n\n");
    SplitAvoids(Normalise(file), "\n\n", x, y);
    var i :| 0 <= i < |pieces| && TrimAll(pieces)[i] == block;
    TrimAvoids(pieces[i], x, y);
  }

  lemma BlockHasNoBlankLine(file: string, block: string)
    requires block in Blocks(file)
    ensures Avoids(block, '\n', '\n')
  {
    var pieces := Split(Normalise(file), "\n\n");
    SplitPiecesHaveNoSeparator(Normalise(file), "\n\n");
    assert ['\n', '\n'] == "\n\n";
    var i :| 0 <= i < |pieces| && TrimAll(pieces)[i] == block;
    HasPair(pieces[i], '\n', '\n');
    TrimAvoids(pieces[i], '\n', '\n');
  }

  /** Every loaded recipe has the parsed shape and no blank line in a token. */
  lemma LoadedIs(r: Recipe)
    requires IsLoaded(r)
    ensures RecipeShape(r) && RecipeFree(r, '\n', '\n')
  {
    hide RecipeShape, RecipeFree, ParseRecipe, ParseRecipes, Blocks;
    var file :| ParseRecipes(file).Ok? && r in ParseRecipes(file).value;
    var block := LoadedFrom(file, r);
    BlockHasNoBlankLine(file, block);
    ParsedRecipeShape(block);
    ParsedRecipeFree(block, '\n', '\n');
  }

  /** So only an LF CR LF that is left in a token can bring the parser down later. */
  lemma LoadedReturns(r: Recipe)
    requires IsLoaded(r) && RecipeUnbroken(r)
    ensures !ParseRecipes(r.source).Panicked?
  {
    hide RecipeShape, RecipeFree, RecipeUnbroken, ParseRecipes, IsLoaded;
    LoadedIs(r);
    ReparseReturns(r);
  }

  lemma CrlfFreeIsUnbroken(r: Recipe)
    requires RecipeFree(r, '\r', '\n')
    ensures RecipeUnbroken(r)
  {
    NoCrlfUnbroken(r.name);
    forall i | 0 <= i < |r.steps| ensures StepUnbroken(r.steps[i]) {
      hide Unbroken, Avoids;
      match r.steps[i]
      case Single(a) => ActionCrlfFree(a);
      case Repeated(a, _) => ActionCrlfFree(a);
      case Parallel(actions) =>
        forall j | 0 <= j < |actions| ensures ActionUnbroken(actions[j]) { ActionCrlfFree(actions[j]); }
    }
  }

  lemma ActionCrlfFree(a: ActionDef)
    requires ActionFree(a, '\r', '\n')
    ensures ActionUnbroken(a)
  {
    hide Unbroken, Avoids;
    NoCrlfUnbroken(a.name);
    forall k | k in a.params ensures Unbroken(k) && Unbroken(a.params[k]) {
      NoCrlfUnbroken(k);
      NoCrlfUnbroken(a.params[k]);
    }
  }

  lemma NoCrlfUnbroken(s: string)
    requires Avoids(s, '\r', '\n')
    ensures Unbroken(s)
  {
    forall i: nat ensures !BreakAt(s, i) { assert !PairAt(s, '\r', '\n', i + 1); }
  }

  lemma OccursInSuffix(s: string, k: nat, sub: string)
    requires k <= |s|
    ensures forall j: nat :: OccursAt(s[k..], sub, j) ==> OccursAt(s, sub, k + j)
  {
    forall j: nat | OccursAt(s[k..], sub, j) ensures OccursAt(s, sub, k + j) {
      assert s[k..][j..j + |sub|] == s[k + j..k + j + |sub|];
    }
  }

  /** A CRLF is left only if the file has a CR right before one. */
  lemma {:induction false} NormaliseLeaves(file: string)
    requires !Has(file, "\r\r\n")
    ensures Avoids(Normalise(file), '\r', '\n')
    decreases |file|
  {
    assert ['\r', '\n'] == "\r\n";
    match Find(file, "\r\n")
    case None =>
      HasPair(file, '\r', '\n');
      assert Normalise(file) == file;
    case Some(i) =>
      var first, rest := file[..i], file[i + 2..];
      OccursInSuffix(file, i + 2, "\r\r\n");
      NormaliseLeaves(rest);
      assert Normalise(file) == first + "\n" + Normalise(rest);
      FirstIsClean(file, i);
      AvoidsGlue(first, "\n", '\r', '\n');
      AvoidsGlue(first + "\n", Normalise(rest), '\r', '\n');
  }

  lemma FirstIsClean(file: string, i: nat)
    requires Find(file, "\r\n") == Some(i) && !Has(file, "\r\r\n")
    ensures Avoids(file[..i], '\r', '\n') && (i > 0 ==> file[i - 1] != '\r')
  {
    assert ['\r', '\n'] == "\r\n";
    forall j: nat ensures !PairAt(file[..i], '\r', '\n', j) {
      OccursPair(file, '\r', '\n', j);
    }
    TripleAt(file, i);
  }

  lemma TripleAt(file: string, i: nat)
    ensures i > 0 && OccursAt(file, "\r\n", i) && file[i - 1] == '\r' ==> OccursAt(file, "\r\r\n", i - 1)
  {
    if i > 0 && OccursAt(file, "\r\n", i) && file[i - 1] == '\r' {
      assert file[i] == file[i..i + 2][0] && file[i + 1] == file[i..i + 2][1];
      assert file[i - 1..i + 2] == [file[i - 1], file[i], file[i + 1]];
    }
  }

  /** A file without CR CR LF leaves no CRLF in a token. */
  lemma CleanFileLeavesNone(file: string, r: Recipe)
    requires ParseRecipes(file).Ok? && r in ParseRecipes(file).value && !Has(file, "\r\r\n")
    ensures RecipeFree(r, '\r', '\n') && !ParseRecipes(r.source).Panicked?
  {
    hide RecipeFree, ParseRecipe, ParseRecipes, Blocks, Has, Normalise;
    var block := LoadedFrom(file, r);
    NormaliseLeaves(file);
    BlockAvoids(file, block, '\r', '\n');
    ParsedRecipeFree(block, '\r', '\n');
    assert IsLoaded(r);
    CrlfFreeIsUnbroken(r);
    LoadedReturns(r);
  }
}
