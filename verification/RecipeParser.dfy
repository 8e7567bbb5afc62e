/** The loops of the recipe parser and of the flattener, each proved to compute what
    RecipeSpec and Recipe say. */
module RecipeParser {
  import opened Text
  import opened Recipe
  import opened RecipeSpec

  method ParseParamList(paramsStr: string) returns (result: Parsed<map<string, string>>)
    ensures result == ParseParams(paramsStr)
  {
    var params: map<string, string> := map[];
    if Trim(paramsStr) == "" {
      return Ok(params);
    }
    var tokens := Split(paramsStr, ",");
    for i := 0 to |tokens|
      invariant InsertParams(tokens, map[]) == InsertParams(tokens[i..], params)
    {
      var token := Trim(tokens[i]);
      assert tokens[i..][1..] == tokens[i + 1..];
      match IndexOf(token, '=') {
        case None => return Err(MalformedParam(token));
        case Some(eq) => params := params[Trim(token[..eq]) := Trim(token[eq + 1..])];
      }
    }
    return Ok(params);
  }

  method SplitParallelActions(s: string) returns (tokens: seq<string>)
    ensures tokens == SplitParallel(s)
  {
    tokens := [];
    var current := "";
    var depth: nat := 0;
    for i := 0 to |s|
      invariant tokens + SplitFrom(s[i..], current, depth) == SplitParallel(s)
    {
      var ch := s[i];
      assert s[i..][1..] == s[i + 1..];
      if ch == '(' {
        depth := depth + 1;
        current := current + [ch];
      } else if ch == ')' {
        depth := if depth == 0 then 0 else depth - 1;
        current := current + [ch];
      } else if ch == ',' && depth == 0 {
        tokens := tokens + [Trim(current)];
        current := "";
      } else {
        current := current + [ch];
      }
    }
    var last := Trim(current);
    if last != "" {
      tokens := tokens + [last];
    }
  }

  method FindCaret(body: string) returns (caret: Option<nat>)
    ensures caret == FindRepeatCaret(body)
  {
    var depth: nat := 0;
    for i := 0 to |body|
      invariant CaretFrom(body, i, depth) == FindRepeatCaret(body)
    {
      var ch := body[i];
      if ch == '(' {
        depth := depth + 1;
      } else if ch == ')' {
        depth := if depth == 0 then 0 else depth - 1;
      } else if ch == '^' && depth == 0 {
        if AllDigits(body[i + 1..]) {
          return Some(i);
        }
      }
    }
    return None;
  }

  method FlattenRecipe(recipe: Recipe) returns (sequence: seq<ActionDef>)
    ensures sequence == Flatten(recipe.steps)
  {
    sequence := [];
    for i := 0 to |recipe.steps|
      invariant sequence == Flatten(recipe.steps[..i])
    {
      ghost var before := sequence;
      match recipe.steps[i] {
        case Single(action) => sequence := sequence + [action];
        case Parallel(actions) => sequence := sequence + actions;
        case Repeated(action, n) =>
          for k := 0 to n
            invariant sequence == before + seq(k, _ => action)
          {
            sequence := sequence + [action];
          }
      }
      assert recipe.steps[..i + 1][..i] == recipe.steps[..i];
    }
    assert recipe.steps[..|recipe.steps|] == recipe.steps;
  }
}
