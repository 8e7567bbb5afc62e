/** Which error the recipe parser reports: that of the first thing that does not parse. */
module RecipeErrors {
  import opened Text
  import opened RecipeSpec

  // ── The first that fails ──────────────────────────────────────────────────────

  /** Result `k` is no value, and all before it are. */
  predicate FirstBad<T(!new)>(results: seq<Parsed<T>>, k: nat) {
    k < |results| && !results[k].Ok? && forall j :: 0 <= j < k ==> results[j].Ok?
  }

  /** The first bad result decides, whatever comes after it. */
  lemma {:induction false} FirstBadDecides<T(!new)>(results: seq<Parsed<T>>, k: nat)
    requires FirstBad(results, k)
    ensures (forall e :: Collect(results) == Err(e) <==> results[k] == Err(e))
    ensures Collect(results).Panicked? <==> results[k].Panicked?
  {
    if k > 0 {
      assert FirstBad(results[1..], k - 1);
      FirstBadDecides(results[1..], k - 1);
    }
  }

  /** And there is one whenever not all are values. */
  lemma {:induction false} BadHasFirst<T(!new)>(results: seq<Parsed<T>>) returns (k: nat)
    requires !Collect(results).Ok?
    ensures FirstBad(results, k)
  {
    if !results[0].Ok? {
      k := 0;
    } else {
      var rest := BadHasFirst(results[1..]);
      k := rest + 1;
      assert forall j :: 0 < j < k ==> results[j] == results[1..][j - 1];
    }
  }

  // ── Actions and steps ─────────────────────────────────────────────────────────

  /** An action alone is an unmatched bracket exactly if it opens a parenthesis and has none that
      closes; the error carries the number the parser was called with. */
  lemma ActionUnmatchedIff(body: string, stepIdx: nat, n: nat)
    ensures ParseAction(body, stepIdx) == Err(UnmatchedBracket(n)) <==> n == stepIdx && '(' in body && ')' !in body
  {
    ActionErrors(body, stepIdx);
  }

  /** The other error of an action is a parameter without `=`. */
  lemma ActionErrors(body: string, stepIdx: nat)
    ensures ParseAction(body, stepIdx).Err? ==>
      var e := ParseAction(body, stepIdx).error;
      && '(' in body
      && if ')' in body then e.MalformedParam? && '=' !in e.token else e == UnmatchedBracket(stepIdx)
  {
    match IndexOf(body, '(')
    case None =>
    case Some(open) =>
      match FindLast(body, ')')
      case None =>
      case Some(close) =>
        if open < close { InsertErrors(Split(body[open + 1..close], ","), map[]); }
  }

  lemma {:induction false} InsertErrors(tokens: seq<string>, acc: map<string, string>)
    ensures InsertParams(tokens, acc).Err? ==>
      var e := InsertParams(tokens, acc).error; e.MalformedParam? && '=' !in e.token
  {
    if tokens != [] {
      var token := Trim(tokens[0]);
      match IndexOf(token, '=')
      case None =>
      case Some(i) => InsertErrors(tokens[1..], acc[Trim(token[..i]) := Trim(token[i + 1..])]);
    }
  }

  /** A repeat count is refused exactly if it is zero or does not fit 32 bits. */
  lemma RepeatRefusedIff(body: string, stepIdx: nat, n: nat)
    ensures ParseStep(body, stepIdx) == Err(InvalidRepeat(n)) <==>
      && n == stepIdx && (body == "" || body[0] != '[')
      && FindRepeatCaret(body).Some?
      && var count := Numeral(body[FindRepeatCaret(body).value + 1..]); count == 0 || count >= 0x1_0000_0000
  {
    hide CaretFrom, ParseAction, Numeral, SplitParallel;
    if body != "" && body[0] == '[' {
      ParallelErrors(body, stepIdx);
    } else {
      match FindRepeatCaret(body)
      case None => ActionErrors(body, stepIdx);
      case Some(caret) => ActionErrors(Trim(body[..caret]), stepIdx);
    }
  }

  predicate StepNumberIs(e: ParseError, n: nat) {
    match e
    case UnmatchedBracket(step) => step == n
    case InvalidRepeat(step) => step == n
    case MalformedParam(token) => '=' !in token
    case _ => false
  }

  lemma ParallelErrors(body: string, stepIdx: nat)
    ensures ParseParallelStep(body, stepIdx).Err? ==>
      var e := ParseParallelStep(body, stepIdx).error; StepNumberIs(e, stepIdx) && !e.InvalidRepeat?
  {
    hide ParseAction, SplitParallel;
    if |body| >= 2 && body[0] == '[' && body[|body| - 1] == ']' {
      var tokens := NonEmpty(SplitParallel(body[1..|body| - 1]));
      var results := ParseTokens(tokens, stepIdx);
      if Collect(results).Err? {
        var k := BadHasFirst(results);
        FirstBadDecides(results, k);
        ActionErrors(Trim(tokens[k]), stepIdx);
      }
    }
  }

  /** Every error of a step is about that step: it carries its number or a parameter. */
  lemma StepErrors(body: string, stepIdx: nat)
    ensures ParseStep(body, stepIdx).Err? ==> StepNumberIs(ParseStep(body, stepIdx).error, stepIdx)
  {
    hide ParseAction, CaretFrom, SplitParallel, ParseParallelStep, Numeral;
    if body != "" && body[0] == '[' {
      ParallelErrors(body, stepIdx);
    } else {
      match FindRepeatCaret(body)
      case None => ActionErrors(body, stepIdx);
      case Some(caret) => ActionErrors(Trim(body[..caret]), stepIdx);
    }
  }

  // ── Recipes ───────────────────────────────────────────────────────────────────

  /** The texts between the arrows, after the first `=`. */
  function BodiesOf(block: string): seq<string> {
    match IndexOf(block, '=')
    case None => []
    case Some(i) => StepBodies(block[i + 1..])
  }

  /** Step `k` of the block, counted from 0, is the first that does not parse. */
  predicate FirstBadStep(block: string, k: nat) {
    && k < |BodiesOf(block)| && !ParseStep(BodiesOf(block)[k], k + 1).Ok?
    && forall j: nat :: j < k ==> ParseStep(BodiesOf(block)[j], j + 1).Ok?
  }

  /** A block that has its `=`, a name and a step fails exactly as its first bad step does, and is
      a recipe exactly if it has none. */
  lemma BlockFailsAsItsStep(block: string, k: nat)
    requires '=' in block && Trim(block[..IndexOf(block, '=').value]) != ""
    requires FirstBadStep(block, k)
    ensures (forall e :: ParseRecipe(block) == Err(e) <==> ParseStep(BodiesOf(block)[k], k + 1) == Err(e))
    ensures ParseRecipe(block).Panicked? <==> ParseStep(BodiesOf(block)[k], k + 1).Panicked?
  {
    hide ParseStep, StepBodies, Trim;
    assert FirstBad(ParseBodies(BodiesOf(block)), k);
    FirstBadDecides(ParseBodies(BodiesOf(block)), k);
  }

  /** A step number in an error is that of the first step that does not parse, counted from 1. */
  lemma ErrorNumbersFirstBadStep(block: string)
    requires ParseRecipe(block).Err?
    ensures match ParseRecipe(block).error
      case MissingEquals => '=' !in block
      case EmptyName => '=' in block && Trim(block[..IndexOf(block, '=').value]) == ""
      case NoSteps(name) => BodiesOf(block) == [] && '=' in block && name == Trim(block[..IndexOf(block, '=').value])
      case UnmatchedBracket(step) => step >= 1 && FirstBadStep(block, step - 1)
      case InvalidRepeat(step) => step >= 1 && FirstBadStep(block, step - 1)
      case MalformedParam(token) => '=' !in token && exists k: nat :: FirstBadStep(block, k)
  {
    hide ParseStep, StepBodies, Trim;
    var bodies := BodiesOf(block);
    if IndexOf(block, '=').Some? && Trim(block[..IndexOf(block, '=').value]) != "" && bodies != [] {
      var k := BadHasFirst(ParseBodies(bodies));
      assert ParseBodies(bodies)[k] == ParseStep(bodies[k], k + 1);
      assert FirstBadStep(block, k) by {
        forall j: nat | j < k ensures ParseStep(bodies[j], j + 1).Ok? { assert ParseBodies(bodies)[j].Ok?; }
      }
      FirstBadDecides(ParseBodies(bodies), k);
      StepErrors(bodies[k], k + 1);
    }
  }

  /** A file fails exactly as the first of its blocks that does not parse. */
  lemma FileFailsAsItsBlock(input: string, e: ParseError)
    ensures ParseRecipes(input) == Err(e) <==>
      exists b: nat :: FirstBadBlock(input, b) && ParseRecipe(Blocks(input)[b]) == Err(e)
  {
    hide ParseRecipe, Blocks;
    var results := ParseBlocks(Blocks(input));
    if !Collect(results).Ok? {
      var b := BadHasFirst(results);
      FirstBadDecides(results, b);
      assert FirstBadBlock(input, b) by {
        forall j: nat | j < b ensures ParseRecipe(Blocks(input)[j]).Ok? { assert results[j].Ok?; }
      }
    }
    forall b: nat | FirstBadBlock(input, b) && ParseRecipe(Blocks(input)[b]) == Err(e)
      ensures Collect(results) == Err(e)
    {
      assert FirstBad(results, b);
      FirstBadDecides(results, b);
    }
  }

  predicate FirstBadBlock(input: string, b: nat) {
    && b < |Blocks(input)| && !ParseRecipe(Blocks(input)[b]).Ok?
    && forall j: nat :: j < b ==> ParseRecipe(Blocks(input)[j]).Ok?
  }
}
