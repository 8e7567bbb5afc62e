/** What each function of the recipe parser computes, branch by branch. The functions the
    source writes as loops are here as recursions; RecipeParser has the loops. */
module RecipeSpec {
  import opened Text
  import opened Recipe

  datatype ParseError =
    | MissingEquals
    | EmptyName
    | NoSteps(recipe: string)
    | UnmatchedBracket(step: nat)
    | InvalidRepeat(repeatStep: nat)
    | MalformedParam(token: string)

  /** `Panicked` is the slice `[open + 1..close]` with `close` before `open`. */
  datatype Parsed<+T> = Ok(value: T) | Err(error: ParseError) | Panicked

  /** `collect::<Result<Vec<_>, _>>`: all the values, or the first result that is not one. */
  function Collect<T>(results: seq<Parsed<T>>): (r: Parsed<seq<T>>)
    ensures r.Ok? ==> |r.value| == |results|
    ensures r.Ok? ==> forall i :: 0 <= i < |results| ==> results[i] == Ok(r.value[i])
  {
    if results == [] then Ok([])
    else match results[0]
      case Err(e) => Err(e)
      case Panicked => Panicked
      case Ok(v) =>
        match Collect(results[1..])
        case Ok(vs) => Ok([v] + vs)
        case Err(e) => Err(e)
        case Panicked => Panicked
  }

  lemma {:induction false} CollectOk<T>(results: seq<Parsed<T>>, values: seq<T>)
    requires |results| == |values|
    requires forall i :: 0 <= i < |results| ==> results[i] == Ok(values[i])
    ensures Collect(results) == Ok(values)
  {
    if results != [] {
      CollectOk(results[1..], values[1..]);
      assert values == [values[0]] + values[1..];
    }
  }

  // ── Parameters ────────────────────────────────────────────────────────────────

  /** The map after inserting the tokens in order; a later key replaces an earlier one. */
  function InsertParams(tokens: seq<string>, acc: map<string, string>): Parsed<map<string, string>> {
    if tokens == [] then Ok(acc)
    else
      var token := Trim(tokens[0]);
      match IndexOf(token, '=')
      case None => Err(MalformedParam(token))
      case Some(i) => InsertParams(tokens[1..], acc[Trim(token[..i]) := Trim(token[i + 1..])])
  }

  function ParseParams(s: string): Parsed<map<string, string>> {
    if Trim(s) == "" then Ok(map[]) else InsertParams(Split(s, ","), map[])
  }

  // ── Actions ───────────────────────────────────────────────────────────────────

  function ParseAction(body: string, stepIdx: nat): Parsed<ActionDef> {
    match IndexOf(body, '(')
    case None => Ok(ActionDef(Trim(body), map[]))
    case Some(open) =>
      var name := Trim(body[..open]);
      match FindLast(body, ')')
      case None => Err(UnmatchedBracket(stepIdx))
      case Some(close) =>
        if close < open then Panicked
        else match ParseParams(body[open + 1..close])
          case Ok(params) => Ok(ActionDef(name, params))
          case Err(e) => Err(e)
          case Panicked => Panicked
  }

  // ── Parenthesis depth ─────────────────────────────────────────────────────────

  /** The depth counter after one character; it never goes below zero. */
  function DepthStep(d: nat, c: char): nat {
    if c == '(' then d + 1
    else if c == ')' then (if d == 0 then 0 else d - 1)
    else d
  }

  /** The tokens still to come when `current` has been gathered and `s` is left to read. */
  function SplitFrom(s: string, current: string, depth: nat): seq<string>
    decreases |s|
  {
    if s == "" then (if Trim(current) == "" then [] else [Trim(current)])
    else if s[0] == ',' && depth == 0 then [Trim(current)] + SplitFrom(s[1..], "", 0)
    else SplitFrom(s[1..], current + [s[0]], DepthStep(depth, s[0]))
  }

  function SplitParallel(s: string): seq<string> {
    SplitFrom(s, "", 0)
  }

  predicate IsDigit(c: char) {
    '0' <= c <= '9'
  }

  predicate AllDigits(s: string) {
    s != "" && forall i :: 0 <= i < |s| ==> IsDigit(s[i])
  }

  /** The first caret at depth zero, from position `i` on, with only digits after it. */
  function CaretFrom(body: string, i: nat, depth: nat): (r: Option<nat>)
    requires i <= |body|
    ensures r.Some? ==> i <= r.value < |body| && body[r.value] == '^' && AllDigits(body[r.value + 1..])
    decreases |body| - i
  {
    if i == |body| then None
    else if body[i] == '^' && depth == 0 && AllDigits(body[i + 1..]) then Some(i)
    else CaretFrom(body, i + 1, DepthStep(depth, body[i]))
  }

  function FindRepeatCaret(body: string): Option<nat> {
    CaretFrom(body, 0, 0)
  }

  // ── Steps ─────────────────────────────────────────────────────────────────────

  function DigitValue(c: char): nat
    requires IsDigit(c)
  {
    c as int - '0' as int
  }

  /** The number a string of digits stands for. */
  function Numeral(s: string): nat
    requires forall i :: 0 <= i < |s| ==> IsDigit(s[i])
  {
    if s == "" then 0 else 10 * Numeral(s[..|s| - 1]) + DigitValue(s[|s| - 1])
  }

  /** `str::parse::<u32>` on a string of digits. */
  function ParseU32(s: string): Option<nat>
    requires AllDigits(s)
  {
    if Numeral(s) < U32_LIMIT then Some(Numeral(s)) else None
  }

  function ParseTokens(tokens: seq<string>, stepIdx: nat): seq<Parsed<ActionDef>> {
    seq(|tokens|, i requires 0 <= i < |tokens| => ParseAction(Trim(tokens[i]), stepIdx))
  }

  function NonEmpty(parts: seq<string>): (r: seq<string>)
    ensures forall p :: p in r <==> p in parts && p != ""
  {
    if parts == [] then []
    else (if parts[0] == "" then [] else [parts[0]]) + NonEmpty(parts[1..])
  }

  function ParseParallelStep(body: string, stepIdx: nat): Parsed<Step> {
    if |body| < 2 || body[0] != '[' || body[|body| - 1] != ']' then Err(UnmatchedBracket(stepIdx))
    else
      match Collect(ParseTokens(NonEmpty(SplitParallel(body[1..|body| - 1])), stepIdx))
      case Err(e) => Err(e)
      case Panicked => Panicked
      case Ok(actions) =>
        if actions == [] then Err(UnmatchedBracket(stepIdx)) else Ok(Parallel(actions))
  }

  function ParseRepeatedStep(body: string, caret: nat, stepIdx: nat): Parsed<Step>
    requires caret < |body| && AllDigits(body[caret + 1..])
  {
    match ParseU32(body[caret + 1..])
    case None => Err(InvalidRepeat(stepIdx))
    case Some(n) =>
      if n == 0 then Err(InvalidRepeat(stepIdx))
      else match ParseAction(Trim(body[..caret]), stepIdx)
        case Ok(a) => Ok(Repeated(a, n))
        case Err(e) => Err(e)
        case Panicked => Panicked
  }

  function ParseStep(body: string, stepIdx: nat): Parsed<Step> {
    if body != "" && body[0] == '[' then ParseParallelStep(body, stepIdx)
    else match FindRepeatCaret(body)
      case Some(caret) => ParseRepeatedStep(body, caret, stepIdx)
      case None =>
        match ParseAction(body, stepIdx)
        case Ok(a) => Ok(Single(a))
        case Err(e) => Err(e)
        case Panicked => Panicked
  }

  // ── Recipes ───────────────────────────────────────────────────────────────────

  function TrimAll(parts: seq<string>): seq<string> {
    seq(|parts|, i requires 0 <= i < |parts| => Trim(parts[i]))
  }

  function StepBodies(text: string): seq<string> {
    NonEmpty(TrimAll(Split(text, "->")))
  }

  function ParseBodies(bodies: seq<string>): seq<Parsed<Step>> {
    seq(|bodies|, i requires 0 <= i < |bodies| => ParseStep(bodies[i], i + 1))
  }

  function ParseRecipe(block: string): Parsed<Recipe> {
    match IndexOf(block, '=')
    case None => Err(MissingEquals)
    case Some(i) =>
      var name := Trim(block[..i]);
      if name == "" then Err(EmptyName)
      else
        var bodies := StepBodies(block[i + 1..]);
        if bodies == [] then Err(NoSteps(name))
        else match Collect(ParseBodies(bodies))
          case Err(e) => Err(e)
          case Panicked => Panicked
          case Ok(steps) => Ok(Recipe(name, steps, ToDsl(name, steps)))
  }

  function Normalise(input: string): string {
    Replace(input, "\r\n", "\n")
  }

  function Blocks(input: string): seq<string> {
    NonEmpty(TrimAll(Split(Normalise(input), "\n\n")))
  }

  function ParseBlocks(blocks: seq<string>): seq<Parsed<Recipe>> {
    seq(|blocks|, i requires 0 <= i < |blocks| => ParseRecipe(blocks[i]))
  }

  function ParseRecipes(input: string): Parsed<seq<Recipe>> {
    Collect(ParseBlocks(Blocks(input)))
  }

  lemma ParsedBlockIsCanonical(block: string)
    requires ParseRecipe(block).Ok?
    ensures var r := ParseRecipe(block).value; Canonical(r) && r.name != "" && r.steps != []
  {}

  /** Every recipe the parser returns carries its own canonical text. */
  lemma ParsedIsCanonical(input: string)
    requires ParseRecipes(input).Ok?
    ensures forall r :: r in ParseRecipes(input).value ==> Canonical(r) && r.name != "" && r.steps != []
  {
    var results := ParseBlocks(Blocks(input));
    var recipes := ParseRecipes(input).value;
    forall i | 0 <= i < |recipes| ensures Canonical(recipes[i]) && recipes[i].name != "" && recipes[i].steps != [] {
      assert results[i] == ParseRecipe(Blocks(input)[i]) == Ok(recipes[i]);
      ParsedBlockIsCanonical(Blocks(input)[i]);
    }
  }

  // ── When parsing an action cannot finish ──────────────────────────────────────

  /** `parse_action` slices backwards exactly on texts whose every `)` is before every `(`,
      when there is at least one of each. */
  lemma ParseActionPanicsIff(body: string, stepIdx: nat)
    ensures ParseAction(body, stepIdx).Panicked? <==>
      && '(' in body && ')' in body
      && forall i, j :: 0 <= i < |body| && 0 <= j < |body| && body[i] == ')' && body[j] == '(' ==> i < j
  {
    match IndexOf(body, '(')
    case None =>
    case Some(open) =>
      match FindLast(body, ')')
      case None =>
      case Some(close) =>
        if open < close { InsertNeverPanics(Split(body[open + 1..close], ","), map[]); }
  }

  lemma {:induction false} InsertNeverPanics(tokens: seq<string>, acc: map<string, string>)
    ensures !InsertParams(tokens, acc).Panicked?
  {
    if tokens != [] {
      var token := Trim(tokens[0]);
      match IndexOf(token, '=')
      case None =>
      case Some(i) =>
        InsertNeverPanics(tokens[1..], acc[Trim(token[..i]) := Trim(token[i + 1..])]);
    }
  }
}
