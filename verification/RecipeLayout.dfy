/** Every way of laying a recipe out as text: any whitespace around names, `=`, `->`, brackets,
    commas, parameters and carets, parameters in any order, leading zeros in a repeat count.
    `Valid` says which tokens may be written; `Text` writes them; `Meaning` is the recipe.
    RecipeRoundTrip proves that the parser reads every valid layout as its meaning. */
module RecipeLayout {
  import opened Text
  import opened Recipe
  import opened RecipeSpec

  // ── Tokens ────────────────────────────────────────────────────────────────────

  /** Parentheses that close what they open, `d` of them being open at the start. */
  predicate BalancedFrom(s: string, d: nat)
    decreases |s|
  {
    if s == "" then d == 0
    else if s[0] == '(' then BalancedFrom(s[1..], d + 1)
    else if s[0] == ')' then d > 0 && BalancedFrom(s[1..], d - 1)
    else BalancedFrom(s[1..], d)
  }

  predicate Balanced(s: string) {
    BalancedFrom(s, 0)
  }

  /** A text ending in a caret and digits would be read as a repeat count. */
  ghost predicate EndsLikeRepeat(s: string) {
    exists i :: 0 <= i < |s| && s[i] == '^' && AllDigits(s[i + 1..])
  }

  // What `parse_action` can return as a name, a key and a value.

  predicate NameShape(name: string) {
    Trimmed(name) && '(' !in name
  }

  predicate KeyShape(key: string) {
    Trimmed(key) && '=' !in key && ',' !in key
  }

  predicate ValueShape(value: string) {
    Trimmed(value) && ',' !in value
  }

  /** A token that no `->` cuts in two. */
  ghost predicate ArrowFree(s: string) {
    Avoids(s, '-', '>')
  }

  // ── Parameters and actions ────────────────────────────────────────────────────

  datatype ParamLayout = ParamLayout(lead: string, key: string, afterKey: string,
                                     beforeValue: string, value: string, trail: string)
  {
    predicate Readable() {
      && Blank(lead) && Blank(afterKey) && Blank(beforeValue) && Blank(trail)
      && KeyShape(key) && ValueShape(value)
    }

    function Text(): string {
      (lead + key + afterKey) + "=" + (beforeValue + value + trail)
    }
  }

  function ParamLayoutTexts(ps: seq<ParamLayout>): seq<string> {
    seq(|ps|, i requires 0 <= i < |ps| => ps[i].Text())
  }

  function Inserted(ps: seq<ParamLayout>, acc: map<string, string>): map<string, string> {
    if ps == [] then acc else Inserted(ps[1..], acc[ps[0].key := ps[0].value])
  }

  datatype ActionLayout =
    | Bare(name: string)
    | Called(name: string, gap: string, inside: string, params: seq<ParamLayout>)
  {
    predicate Readable() {
      && NameShape(name)
      && (Called? ==> Blank(gap) && Blank(inside) && forall i :: 0 <= i < |params| ==> params[i].Readable())
    }

    ghost predicate Valid() {
      && Readable() && name != "" && ArrowFree(name)
      && (Called? ==> forall i :: 0 <= i < |params| ==> ArrowFree(params[i].key) && ArrowFree(params[i].value))
    }

    /** Parentheses inside keys and values are balanced, so that a scan can skip them. */
    predicate Nested() {
      Called? ==> forall i :: 0 <= i < |params| ==> Balanced(params[i].key) && Balanced(params[i].value)
    }

    function Args(): string
      requires Called?
    {
      if params == [] then inside else Join(ParamLayoutTexts(params), ",")
    }

    function Text(): string {
      match this
      case Bare(_) => name
      case Called(_, _, _, _) => (name + gap) + "(" + (Args() + ")")
    }

    function Meaning(): ActionDef {
      match this
      case Bare(_) => ActionDef(name, map[])
      case Called(_, _, _, ps) => ActionDef(name, Inserted(ps, map[]))
    }
  }

  // ── Steps ─────────────────────────────────────────────────────────────────────

  datatype Item = Item(lead: string, action: ActionLayout, trail: string)
  {
    ghost predicate Valid() {
      Blank(lead) && Blank(trail) && action.Valid() && action.Nested() && ',' !in action.name
    }

    function Text(): string {
      lead + action.Text() + trail
    }
  }

  function ItemTexts(items: seq<Item>): seq<string> {
    seq(|items|, i requires 0 <= i < |items| => items[i].Text())
  }

  function ItemMeanings(items: seq<Item>): seq<ActionDef> {
    seq(|items|, i requires 0 <= i < |items| => items[i].action.Meaning())
  }

  datatype StepLayout =
    | One(action: ActionLayout)
    | Times(repeated: ActionLayout, gap: string, digits: string)
    | Together(items: seq<Item>)
  {
    ghost predicate Valid() {
      match this
      case One(a) => a.Valid() && a.name[0] != '[' && (a.Bare? ==> !EndsLikeRepeat(a.name))
      case Times(a, gap, digits) =>
        && a.Valid() && a.Nested() && a.name[0] != '['
        && Blank(gap) && AllDigits(digits) && 0 < Numeral(digits) < U32_LIMIT
      case Together(items) => items != [] && forall i :: 0 <= i < |items| ==> items[i].Valid()
    }

    function Text(): string {
      match this
      case One(a) => a.Text()
      case Times(a, gap, digits) => (a.Text() + gap) + "^" + digits
      case Together(items) => "[" + Join(ItemTexts(items), ",") + "]"
    }

    function Meaning(): Step
      requires Times? ==> AllDigits(digits)
    {
      match this
      case One(a) => Single(a.Meaning())
      case Times(a, _, digits) => Repeated(a.Meaning(), Numeral(digits))
      case Together(items) => Parallel(ItemMeanings(items))
    }
  }

  // ── Recipes ───────────────────────────────────────────────────────────────────

  datatype Piece = Piece(lead: string, step: StepLayout, trail: string)
  {
    ghost predicate Valid() {
      Blank(lead) && Blank(trail) && step.Valid()
    }

    function Text(): string {
      lead + step.Text() + trail
    }
  }

  function PieceTexts(pieces: seq<Piece>): seq<string> {
    seq(|pieces|, i requires 0 <= i < |pieces| => pieces[i].Text())
  }

  ghost function PieceMeanings(pieces: seq<Piece>): seq<Step>
    requires forall i :: 0 <= i < |pieces| ==> pieces[i].Valid()
  {
    seq(|pieces|, i requires 0 <= i < |pieces| && pieces[i].Valid() => pieces[i].step.Meaning())
  }

  datatype RecipeLayout = RecipeLayout(lead: string, name: string, gap: string, pieces: seq<Piece>)
  {
    ghost predicate Valid() {
      && Blank(lead) && Blank(gap)
      && name != "" && Trimmed(name) && '=' !in name
      && pieces != [] && forall i :: 0 <= i < |pieces| ==> pieces[i].Valid()
    }

    function Text(): string {
      (lead + name + gap) + "=" + Join(PieceTexts(pieces), "->")
    }

    ghost function Meaning(): Recipe
      requires Valid()
    {
      var steps := PieceMeanings(pieces);
      Recipe(name, steps, ToDsl(name, steps))
    }
  }
}
