/** Recipes, and their canonical one-line text. */
module Recipe {
  import opened Text
  import opened StringOrder

  datatype ActionDef = ActionDef(name: string, params: map<string, string>)

  /** The repeat count is a `u32` in the source; the parser only yields counts in range. */
  datatype Step =
    | Single(action: ActionDef)
    | Parallel(actions: seq<ActionDef>)
    | Repeated(repeated: ActionDef, count: nat)

  datatype Recipe = Recipe(name: string, steps: seq<Step>, source: string)

  const U32_LIMIT: nat := 0x1_0000_0000

  // ── Canonical text ────────────────────────────────────────────────────────────

  function Digit(d: nat): char
    requires d < 10
  {
    '0' + d as char
  }

  function Decimal(n: nat): string {
    if n < 10 then [Digit(n)] else Decimal(n / 10) + [Digit(n % 10)]
  }

  function ParamTexts(params: map<string, string>, keys: seq<string>): seq<string>
    requires forall k :: k in keys ==> k in params
  {
    seq(|keys|, i requires 0 <= i < |keys| => keys[i] + "=" + params[keys[i]])
  }

  function ActionToDsl(a: ActionDef): string {
    if a.params == map[] then a.name
    else a.name + "(" + Join(ParamTexts(a.params, SortedSeq(a.params.Keys)), ",") + ")"
  }

  function StepToDsl(s: Step): string {
    match s
    case Single(a) => ActionToDsl(a)
    case Parallel(actions) => "[" + Join(ActionTexts(actions), ", ") + "]"
    case Repeated(a, n) => ActionToDsl(a) + "^" + Decimal(n)
  }

  function ActionTexts(actions: seq<ActionDef>): seq<string> {
    seq(|actions|, i requires 0 <= i < |actions| => ActionToDsl(actions[i]))
  }

  function StepTexts(steps: seq<Step>): seq<string> {
    seq(|steps|, i requires 0 <= i < |steps| => StepToDsl(steps[i]))
  }

  function ToDsl(name: string, steps: seq<Step>): string {
    name + " = " + Join(StepTexts(steps), " -> ")
  }

  /** The invariant of every parsed recipe: `source` is its own canonical text. */
  predicate Canonical(r: Recipe) {
    r.source == ToDsl(r.name, r.steps)
  }

  // ── Flattening ────────────────────────────────────────────────────────────────

  function Expand(s: Step): seq<ActionDef> {
    match s
    case Single(a) => [a]
    case Parallel(actions) => actions
    case Repeated(a, n) => seq(n, _ => a)
  }

  function Flatten(steps: seq<Step>): seq<ActionDef> {
    if steps == [] then [] else Flatten(steps[..|steps| - 1]) + Expand(steps[|steps| - 1])
  }

  /** Where each step's actions land: right after those of all the steps before it. */
  lemma {:induction false} FlattenLocates(steps: seq<Step>, i: nat)
    requires i < |steps|
    ensures Flatten(steps[..i]) + Expand(steps[i]) <= Flatten(steps)
    decreases |steps|
  {
    var init := steps[..|steps| - 1];
    if i == |steps| - 1 {
      assert init == steps[..i];
    } else {
      FlattenLocates(init, i);
      assert init[..i] == steps[..i];
    }
  }

  /** How many actions a step stands for. */
  function Size(s: Step): nat {
    match s
    case Single(_) => 1
    case Parallel(actions) => |actions|
    case Repeated(_, n) => n
  }

  function SizeSum(steps: seq<Step>): nat {
    if steps == [] then 0 else Size(steps[0]) + SizeSum(steps[1..])
  }

  /** The flat sequence has room for every step's actions and for nothing else. */
  lemma {:induction false} FlattenLength(steps: seq<Step>)
    ensures |Flatten(steps)| == SizeSum(steps)
  {
    if steps != [] {
      var init, last := steps[..|steps| - 1], steps[|steps| - 1];
      FlattenLength(init);
      SizeSumLast(init, last);
      assert steps == init + [last];
    }
  }

  lemma {:induction false} SizeSumLast(init: seq<Step>, last: Step)
    ensures SizeSum(init + [last]) == SizeSum(init) + Size(last)
  {
    if init != [] {
      SizeSumLast(init[1..], last);
      assert (init + [last])[1..] == init[1..] + [last];
    }
  }

  /** What stands in a step's places: the action of a single step once, those of a parallel step
      in their order, that of a repeated step as often as its count says. */
  predicate Holds(flat: seq<ActionDef>, off: nat, s: Step) {
    && off + Size(s) <= |flat|
    && match s
       case Single(a) => flat[off] == a
       case Parallel(actions) => forall j :: 0 <= j < |actions| ==> flat[off + j] == actions[j]
       case Repeated(a, n) => forall k :: off <= k < off + n ==> flat[k] == a
  }

  /** Every step holds its places, right after those of the steps before it. */
  lemma StepsInPlace(steps: seq<Step>, i: nat)
    requires i < |steps|
    ensures |Flatten(steps[..i])| == SizeSum(steps[..i])
    ensures |Flatten(steps[..i + 1])| == SizeSum(steps[..i]) + Size(steps[i])
    ensures Holds(Flatten(steps), SizeSum(steps[..i]), steps[i])
  {
    hide SizeSum;
    FlattenLength(steps[..i]);
    FlattenLocates(steps, i);
    assert steps[..i + 1][..i] == steps[..i];
    StartsAt(Flatten(steps[..i]), Expand(steps[i]), Flatten(steps));
  }

  lemma StartsAt(before: seq<ActionDef>, own: seq<ActionDef>, all: seq<ActionDef>)
    requires before + own <= all
    ensures |before| + |own| <= |all|
    ensures forall j :: 0 <= j < |own| ==> all[|before| + j] == own[j]
    ensures forall k :: |before| <= k < |before| + |own| ==> all[k] == own[k - |before|]
  {
    assert forall k :: 0 <= k < |before + own| ==> all[k] == (before + own)[k];
  }
}
