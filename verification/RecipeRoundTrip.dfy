/** The parser reads every valid layout of a recipe as the recipe it means. */
module RecipeRoundTrip {
  import opened Text
  import opened Recipe
  import opened RecipeSpec
  import opened RecipeLayout

  // ── Parameters ────────────────────────────────────────────────────────────────

  lemma TrimEmptyIsBlank(s: string)
    ensures Trim(s) == "" ==> Blank(s)
  {
    var lead, trail := TrimDecomposes(s);
  }

  lemma TokenCore(lead: string, k: string, v: string, trail: string)
    requires Blank(lead) && Blank(trail) && '=' !in k
    requires k == "" || !IsSpace(k[0])
    requires v == "" || !IsSpace(v[|v| - 1])
    ensures var token := Trim(lead + (k + "=" + v) + trail);
      IndexOf(token, '=') == Some(|k|) && token[..|k|] == k && token[|k| + 1..] == v
  {
    var core := k + "=" + v;
    assert core[0] == (if k == "" then '=' else k[0]);
    assert core[|core| - 1] == (if v == "" then '=' else v[|v| - 1]);
    TrimPadded(lead, core, trail);
    IndexOfAt(k, '=', v);
  }

  predicate ReadsAsParam(text: string, key: string, value: string) {
    var token := Trim(text);
    var i := IndexOf(token, '=');
    i.Some? && Trim(token[..i.value]) == key && Trim(token[i.value + 1..]) == value
  }

  /** Padding inside, but none next to an empty key or value. */
  lemma InnerPadding(lead: string, key: string, afterKey: string, beforeValue: string, value: string, trail: string)
    requires Blank(lead) && Blank(afterKey) && Blank(beforeValue) && Blank(trail) && KeyShape(key) && ValueShape(value)
    requires (key == "" ==> afterKey == "") && (value == "" ==> beforeValue == "")
    ensures ReadsAsParam((lead + key + afterKey) + "=" + (beforeValue + value + trail), key, value)
  {
    hide Trim, IndexOf;
    Reassociate(lead, key, afterKey, beforeValue, value, trail);
    TokenCore(lead, key + afterKey, beforeValue + value, trail);
    TrimPadded("", key, afterKey);
    TrimPadded(beforeValue, value, "");
    assert "" + key + afterKey == key + afterKey && beforeValue + value + "" == beforeValue + value;
  }

  /** One `key=value` token, however it is padded. */
  lemma ParamTokenReads(p: ParamLayout)
    requires p.Readable()
    ensures ReadsAsParam(p.Text(), p.key, p.value)
  {
    hide Trim, IndexOf, ReadsAsParam;
    // Padding next to an empty key or value belongs to the outside.
    var lead, afterKey := if p.key == "" then p.lead + p.afterKey else p.lead, if p.key == "" then "" else p.afterKey;
    var trail := if p.value == "" then p.beforeValue + p.trail else p.trail;
    var beforeValue := if p.value == "" then "" else p.beforeValue;
    assert lead + p.key + afterKey == p.lead + p.key + p.afterKey;
    assert beforeValue + p.value + trail == p.beforeValue + p.value + p.trail;
    InnerPadding(lead, p.key, afterKey, beforeValue, p.value, trail);
  }

  lemma Reassociate(lead: string, k: string, afterKey: string, beforeValue: string, v: string, trail: string)
    ensures (lead + k + afterKey) + "=" + (beforeValue + v + trail)
      == lead + ((k + afterKey) + "=" + (beforeValue + v)) + trail
  {}

  lemma {:induction false} InsertReads(ps: seq<ParamLayout>, acc: map<string, string>)
    requires forall i :: 0 <= i < |ps| ==> ps[i].Readable()
    ensures InsertParams(ParamLayoutTexts(ps), acc) == Ok(Inserted(ps, acc))
  {
    if ps != [] {
      var texts := ParamLayoutTexts(ps);
      ParamTokenReads(ps[0]);
      assert texts[1..] == ParamLayoutTexts(ps[1..]);
      InsertReads(ps[1..], acc[ps[0].key := ps[0].value]);
    }
  }

  /** The keys read are those written, each with the value of its last parameter. */
  lemma {:induction false} LastParamWins(ps: seq<ParamLayout>, acc: map<string, string>, key: string)
    ensures key in Inserted(ps, acc) <==> key in acc || exists i :: 0 <= i < |ps| && ps[i].key == key
    ensures forall i :: 0 <= i < |ps| && ps[i].key == key && (forall j :: i < j < |ps| ==> ps[j].key != key) ==>
      key in Inserted(ps, acc) && Inserted(ps, acc)[key] == ps[i].value
    ensures key in acc && (forall i :: 0 <= i < |ps| ==> ps[i].key != key) ==>
      key in Inserted(ps, acc) && Inserted(ps, acc)[key] == acc[key]
  {
    if ps != [] {
      var acc' := acc[ps[0].key := ps[0].value];
      LastParamWins(ps[1..], acc', key);
      assert forall i :: 1 <= i < |ps| ==> ps[i] == ps[1..][i - 1];
      if i :| 0 <= i < |ps| && ps[i].key == key { assert i > 0 ==> ps[1..][i - 1].key == key; }
    }
  }

  lemma ParamTextCuts(p: ParamLayout)
    requires p.Readable()
    ensures CutsBefore(p.Text(), ",") && !Has(p.Text(), ",")
  {
    BlankHasNone(p.lead, ',');
    BlankHasNone(p.afterKey, ',');
    BlankHasNone(p.beforeValue, ',');
    BlankHasNone(p.trail, ',');
    CharCuts(p.Text(), ',');
  }

  lemma ParamTextsSplit(ps: seq<ParamLayout>)
    requires ps != [] && forall i :: 0 <= i < |ps| ==> ps[i].Readable()
    ensures Split(Join(ParamLayoutTexts(ps), ","), ",") == ParamLayoutTexts(ps)
  {
    hide CutsBefore, Has, Split, Join, ParamLayout.Text, ParamLayout.Readable;
    var texts := ParamLayoutTexts(ps);
    forall i | 0 <= i < |texts| ensures CutsBefore(texts[i], ",") && !Has(texts[i], ",") {
      ParamTextCuts(ps[i]);
    }
    SplitJoined(texts, ",");
  }

  /** Parameters are not blank: the first has a `=`. */
  lemma ParamTextsNotBlank(ps: seq<ParamLayout>)
    requires ps != []
    ensures Trim(Join(ParamLayoutTexts(ps), ",")) != ""
  {
    hide Trim, Join;
    var texts := ParamLayoutTexts(ps);
    JoinStarts(texts, ",");
    var p := ps[0];
    var eq := |p.lead + p.key + p.afterKey|;
    assert Join(texts, ",")[eq] == texts[0][eq] == '=';
    TrimEmptyIsBlank(Join(texts, ","));
  }

  lemma ArgsRead(a: ActionLayout)
    requires a.Called? && a.Readable()
    ensures ParseParams(a.Args()) == Ok(Inserted(a.params, map[]))
  {
    hide Trim, Join, Split, Inserted, InsertParams;
    if a.params == [] {
      assert a.inside == a.inside + "" + "";
      TrimPadded(a.inside, "", "");
      NothingInserted(map[]);
    } else {
      ParamTextsSplit(a.params);
      ParamTextsNotBlank(a.params);
      InsertReads(a.params, map[]);
    }
  }

  lemma NothingInserted(acc: map<string, string>)
    ensures Inserted([], acc) == acc
  {}

  lemma BlankHasNone(s: string, c: char)
    requires Blank(s) && !IsSpace(c)
    ensures c !in s
  {}

  lemma JoinStarts(parts: seq<string>, sep: string)
    requires parts != []
    ensures parts[0] <= Join(parts, sep)
  {}

  // ── Actions ───────────────────────────────────────────────────────────────────

  lemma ParseCall(before: string, args: string, params: map<string, string>, stepIdx: nat)
    requires '(' !in before && ParseParams(args) == Ok(params)
    ensures ParseAction(before + "(" + (args + ")"), stepIdx) == Ok(ActionDef(Trim(before), params))
  {
    var body := before + "(" + (args + ")");
    IndexOfAt(before, '(', args + ")");
    var close := |before + "(" + args|;
    assert body == (before + "(" + args) + ")" + "";
    FindLastAt(before + "(" + args, ')', "");
    assert body[..|before|] == before;
    assert body[|before| + 1..close] == args;
  }

  lemma ActionReads(a: ActionLayout, stepIdx: nat)
    requires a.Readable()
    ensures ParseAction(a.Text(), stepIdx) == Ok(a.Meaning())
  {
    match a
    case Bare(name) => TrimTrimmed(name);
    case Called(name, gap, _, _) =>
      BlankHasNone(gap, '(');
      ArgsRead(a);
      ParseCall(name + gap, a.Args(), Inserted(a.params, map[]), stepIdx);
      assert name + gap == "" + name + gap;
      TrimPadded("", name, gap);
  }

  lemma ActionTextTrimmed(a: ActionLayout)
    requires a.Valid()
    ensures a.Text() != "" && Trimmed(a.Text()) && a.Text()[0] == a.name[0]
    ensures a.Called? ==> a.Text()[|a.Text()| - 1] == ')'
  {}

  // ── Depth ─────────────────────────────────────────────────────────────────────

  function Depth(s: string, d: nat): nat {
    if s == "" then d else Depth(s[1..], DepthStep(d, s[0]))
  }

  /** No comma of `s` is at depth zero when `s` is read from depth `d`. */
  predicate Quiet(s: string, d: nat) {
    s == "" || (!(s[0] == ',' && d == 0) && Quiet(s[1..], DepthStep(d, s[0])))
  }

  predicate Level(s: string, d: nat) {
    Depth(s, d) == d && Quiet(s, d)
  }

  lemma {:induction false} DepthConcat(a: string, b: string, d: nat)
    ensures Depth(a + b, d) == Depth(b, Depth(a, d))
    ensures Quiet(a + b, d) <==> Quiet(a, d) && Quiet(b, Depth(a, d))
  {
    if a == "" {
      assert a + b == b;
    } else {
      assert (a + b)[1..] == a[1..] + b;
      DepthConcat(a[1..], b, DepthStep(d, a[0]));
    }
  }

  lemma {:induction false} FlatLevel(s: string, d: nat)
    requires '(' !in s && (d == 0 || ')' !in s)
    ensures Depth(s, d) == d
    ensures d > 0 || ',' !in s ==> Quiet(s, d)
  {
    if s != "" { FlatLevel(s[1..], d); }
  }

  lemma BlankLevel(s: string, d: nat)
    requires Blank(s)
    ensures Level(s, d)
  {
    BlankHasNone(s, '(');
    BlankHasNone(s, ')');
    BlankHasNone(s, ',');
    FlatLevel(s, d);
  }

  lemma {:induction false} BalancedLevel(s: string, d: nat, base: nat)
    requires BalancedFrom(s, d) && base >= 1
    ensures Depth(s, d + base) == base && Quiet(s, d + base)
    decreases |s|
  {
    if s != "" {
      BalancedLevel(s[1..], if s[0] == '(' then d + 1 else if s[0] == ')' then d - 1 else d, base);
    }
  }

  lemma LevelConcat(a: string, b: string, d: nat)
    requires Level(a, d) && Level(b, d)
    ensures Level(a + b, d)
  {
    DepthConcat(a, b, d);
  }

  lemma {:induction false} JoinLevel(parts: seq<string>, d: nat)
    requires d >= 1 && forall i :: 0 <= i < |parts| ==> Level(parts[i], d)
    ensures Level(Join(parts, ","), d)
  {
    if |parts| > 1 {
      JoinLevel(parts[1..], d);
      FlatLevel(",", d);
      LevelConcat(parts[0], ",", d);
      LevelConcat(parts[0] + ",", Join(parts[1..], ","), d);
    }
  }

  lemma ParamLevel(p: ParamLayout)
    requires p.Readable() && Balanced(p.key) && Balanced(p.value)
    ensures Level(p.Text(), 1)
  {
    BlankLevel(p.lead, 1);
    BlankLevel(p.afterKey, 1);
    BlankLevel(p.beforeValue, 1);
    BlankLevel(p.trail, 1);
    BalancedLevel(p.key, 0, 1);
    BalancedLevel(p.value, 0, 1);
    FlatLevel("=", 1);
    LevelConcat(p.lead, p.key, 1);
    LevelConcat(p.lead + p.key, p.afterKey, 1);
    LevelConcat(p.beforeValue, p.value, 1);
    LevelConcat(p.beforeValue + p.value, p.trail, 1);
    LevelConcat(p.lead + p.key + p.afterKey, "=", 1);
    LevelConcat(p.lead + p.key + p.afterKey + "=", p.beforeValue + p.value + p.trail, 1);
  }

  lemma ArgsLevel(a: ActionLayout)
    requires a.Called? && a.Readable() && a.Nested()
    ensures Level(a.Args(), 1)
  {
    if a.params == [] {
      BlankLevel(a.inside, 1);
    } else {
      var texts := ParamLayoutTexts(a.params);
      forall i | 0 <= i < |texts| ensures Level(texts[i], 1) { ParamLevel(a.params[i]); }
      JoinLevel(texts, 1);
    }
  }

  lemma CallLevel(before: string, args: string)
    requires Depth(before, 0) == 0 && Level(args, 1)
    ensures Depth(before + "(" + (args + ")"), 0) == 0
    ensures Quiet(before, 0) ==> Quiet(before + "(" + (args + ")"), 0)
  {
    DepthConcat(args, ")", 1);
    var tail := "(" + (args + ")");
    assert tail[0] == '(' && tail[1..] == args + ")";
    assert Depth(")", 1) == 0 && Quiet(")", 1);
    DepthConcat(before, tail, 0);
    assert before + "(" + (args + ")") == before + tail;
  }

  /** Reading a whole action leaves the depth at zero, and no comma of it is a separator. */
  lemma ActionLevel(a: ActionLayout)
    requires a.Readable() && a.Nested()
    ensures Depth(a.Text(), 0) == 0
    ensures ',' !in a.name ==> Quiet(a.Text(), 0)
  {
    FlatLevel(a.name, 0);
    if a.Called? {
      BlankLevel(a.gap, 0);
      DepthConcat(a.name, a.gap, 0);
      ArgsLevel(a);
      CallLevel(a.name + a.gap, a.Args());
    }
  }

  // ── Parallel steps ────────────────────────────────────────────────────────────

  lemma {:induction false} SplitFromPast(t: string, rest: string, current: string, d: nat)
    requires Quiet(t, d)
    ensures SplitFrom(t + rest, current, d) == SplitFrom(rest, current + t, Depth(t, d))
    decreases |t|
  {
    if t == "" {
      assert t + rest == rest && current + t == current;
    } else {
      assert (t + rest)[0] == t[0] && (t + rest)[1..] == t[1..] + rest;
      SplitFromPast(t[1..], rest, current + [t[0]], DepthStep(d, t[0]));
      assert current + [t[0]] + t[1..] == current + t;
    }
  }

  /** Tokens with no comma of their own at depth zero survive joining and splitting: the
      separator may be padded with any whitespace on either side. */
  lemma {:induction false} SplitParallelReads(texts: seq<string>, cores: seq<string>)
    requires |texts| == |cores| >= 1
    requires forall i :: 0 <= i < |cores| ==> cores[i] != "" && Trim(texts[i]) == cores[i] && Level(texts[i], 0)
    ensures SplitParallel(Join(texts, ",")) == cores
  {
    var t := texts[0];
    if |texts| == 1 {
      assert t + "" == t && "" + t == t;
      SplitFromPast(t, "", "", 0);
      assert cores == [cores[0]];
    } else {
      var rest := Join(texts[1..], ",");
      SplitParallelReads(texts[1..], cores[1..]);
      assert Join(texts, ",") == t + ("," + rest);
      SplitFromPast(t, "," + rest, "", 0);
      assert "" + t == t && ("," + rest)[0] == ',' && ("," + rest)[1..] == rest;
      assert cores == [cores[0]] + cores[1..];
    }
  }

  lemma {:induction false} NonEmptyKeepsAll(parts: seq<string>)
    requires forall i :: 0 <= i < |parts| ==> parts[i] != ""
    ensures NonEmpty(parts) == parts
  {
    if parts != [] { NonEmptyKeepsAll(parts[1..]); }
  }

  lemma ItemReads(item: Item)
    requires item.Valid()
    ensures Trim(item.Text()) == item.action.Text() != ""
    ensures Level(item.Text(), 0)
  {
    ActionTextTrimmed(item.action);
    TrimPadded(item.lead, item.action.Text(), item.trail);
    ActionLevel(item.action);
    BlankLevel(item.lead, 0);
    BlankLevel(item.trail, 0);
    LevelConcat(item.lead, item.action.Text(), 0);
    LevelConcat(item.lead + item.action.Text(), item.trail, 0);
  }

  lemma ItemActionsRead(items: seq<Item>, cores: seq<string>, stepIdx: nat)
    requires |cores| == |items|
    requires forall i :: 0 <= i < |items| ==> items[i].Valid() && cores[i] == items[i].action.Text()
    ensures Collect(ParseTokens(cores, stepIdx)) == Ok(ItemMeanings(items))
  {
    var results := ParseTokens(cores, stepIdx);
    var actions := ItemMeanings(items);
    forall i | 0 <= i < |items| ensures results[i] == Ok(actions[i]) {
      ActionTextTrimmed(items[i].action);
      TrimTrimmed(cores[i]);
      ActionReads(items[i].action, stepIdx);
    }
    CollectOk(results, actions);
  }

  lemma TogetherReads(s: StepLayout, stepIdx: nat)
    requires s.Together? && s.Valid()
    ensures ParseStep(s.Text(), stepIdx) == Ok(s.Meaning())
  {
    hide SplitFrom, SplitParallel, NonEmpty, Collect, Trim, Join, ParseTokens, Depth, Quiet;
    var items := s.items;
    var texts := ItemTexts(items);
    var cores := seq(|items|, i requires 0 <= i < |items| => items[i].action.Text());
    forall i | 0 <= i < |items|
      ensures cores[i] != "" && Trim(texts[i]) == cores[i] && Level(texts[i], 0)
    {
      ItemReads(items[i]);
    }
    SplitParallelReads(texts, cores);
    NonEmptyKeepsAll(cores);
    ItemActionsRead(items, cores, stepIdx);
    var body := s.Text();
    assert body[1..|body| - 1] == Join(texts, ",");
  }

  // ── Repeated and single steps ─────────────────────────────────────────────────

  lemma {:induction false} CaretFound(t: string, digits: string, i: nat)
    requires i <= |t| && AllDigits(digits) && Depth(t, 0) == 0
    ensures CaretFrom(t + "^" + digits, i, Depth(t[..i], 0)) == Some(|t|)
    decreases |t| - i
  {
    var body := t + "^" + digits;
    if i == |t| {
      assert t[..i] == t && body[i + 1..] == digits;
    } else {
      assert body[i + 1..][|t| - i - 1] == '^';
      assert t[..i + 1] == t[..i] + [t[i]];
      DepthConcat(t[..i], [t[i]], 0);
      assert [t[i]][1..] == "";
      CaretFound(t, digits, i + 1);
    }
  }

  lemma ParseTimes(t: string, digits: string, action: ActionDef, stepIdx: nat)
    requires Depth(t, 0) == 0 && (t == "" || t[0] != '[')
    requires AllDigits(digits) && 0 < Numeral(digits) < U32_LIMIT
    requires ParseAction(Trim(t), stepIdx) == Ok(action)
    ensures ParseStep(t + "^" + digits, stepIdx) == Ok(Repeated(action, Numeral(digits)))
  {
    hide ParseAction, CaretFrom, Trim, Numeral, ParseParallelStep;
    var body := t + "^" + digits;
    assert t[..0] == "" && body[0] == (if t == "" then '^' else t[0]);
    CaretFound(t, digits, 0);
    assert body[..|t|] == t && body[|t| + 1..] == digits;
  }

  lemma TimesReads(s: StepLayout, stepIdx: nat)
    requires s.Times? && s.Valid()
    ensures ParseStep(s.Text(), stepIdx) == Ok(s.Meaning())
  {
    hide ParseStep, ParseAction, Trim, Depth, Numeral, AllDigits, Level, Trimmed, ArrowFree, ActionLayout.Text;
    var a := s.repeated;
    var t := a.Text() + s.gap;
    ActionTextTrimmed(a);
    ActionLevel(a);
    BlankLevel(s.gap, 0);
    DepthConcat(a.Text(), s.gap, 0);
    assert t == "" + a.Text() + s.gap && t[0] == a.Text()[0];
    TrimPadded("", a.Text(), s.gap);
    ActionReads(a, stepIdx);
    ParseTimes(t, s.digits, a.Meaning(), stepIdx);
  }

  lemma OneReads(s: StepLayout, stepIdx: nat)
    requires s.One? && s.Valid()
    ensures ParseStep(s.Text(), stepIdx) == Ok(s.Meaning())
  {
    var body := s.action.Text();
    ActionTextTrimmed(s.action);
    ActionReads(s.action, stepIdx);
    forall i | 0 <= i < |body| ensures !(body[i] == '^' && AllDigits(body[i + 1..])) {
      if i + 1 < |body| { assert body[i + 1..][|body| - i - 2] == body[|body| - 1]; }
    }
    assert FindRepeatCaret(body) == None;
  }

  lemma StepReads(s: StepLayout, stepIdx: nat)
    requires s.Valid()
    ensures ParseStep(s.Text(), stepIdx) == Ok(s.Meaning())
  {
    match s
    case One(_) => OneReads(s, stepIdx);
    case Times(_, _, _) => TimesReads(s, stepIdx);
    case Together(_) => TogetherReads(s, stepIdx);
  }

  lemma StepTextTrimmed(s: StepLayout)
    requires s.Valid()
    ensures s.Text() != "" && Trimmed(s.Text())
  {
    match s
    case One(a) => ActionTextTrimmed(a);
    case Times(a, _, _) => ActionTextTrimmed(a);
    case Together(_) =>
  }

  // ── Texts that a two-character separator cannot cut ───────────────────────────

  /** A text with neither character of the pair. */
  predicate Inert(s: string, x: char, y: char) {
    x !in s && y !in s
  }

  lemma AvoidsPadded(lead: string, core: string, trail: string, x: char, y: char)
    requires Inert(lead, x, y) && Inert(trail, x, y) && Avoids(core, x, y)
    ensures Avoids(lead + core + trail, x, y)
  {
    AvoidsGlue(lead, core, x, y);
    AvoidsGlue(lead + core, trail, x, y);
  }

  lemma AvoidsBetween(a: string, sep: string, b: string, x: char, y: char)
    requires Avoids(a, x, y) && Avoids(b, x, y) && sep != "" && Inert(sep, x, y)
    ensures Avoids(a + sep + b, x, y)
  {
    AvoidsGlue(a, sep, x, y);
    AvoidsGlue(a + sep, b, x, y);
  }

  lemma {:induction false} AvoidsJoin(parts: seq<string>, sep: string, x: char, y: char)
    requires sep != "" && Inert(sep, x, y)
    requires forall i :: 0 <= i < |parts| ==> Avoids(parts[i], x, y)
    ensures Avoids(Join(parts, sep), x, y)
  {
    if |parts| > 1 {
      AvoidsJoin(parts[1..], sep, x, y);
      AvoidsBetween(parts[0], sep, Join(parts[1..], sep), x, y);
    }
  }

  /** Every name, key and value avoids the pair, and all the padding is free of it. */
  ghost predicate ActionTokensAvoid(a: ActionLayout, x: char, y: char) {
    && Avoids(a.name, x, y)
    && (a.Called? ==>
        && Inert(a.gap, x, y) && Inert(a.inside, x, y)
        && forall i :: 0 <= i < |a.params| ==> ParamTokensAvoid(a.params[i], x, y))
  }

  ghost predicate ParamTokensAvoid(p: ParamLayout, x: char, y: char) {
    && Inert(p.lead, x, y) && Inert(p.afterKey, x, y) && Inert(p.beforeValue, x, y) && Inert(p.trail, x, y)
    && Avoids(p.key, x, y) && Avoids(p.value, x, y)
  }

  ghost predicate StepTokensAvoid(s: StepLayout, x: char, y: char) {
    match s
    case One(a) => ActionTokensAvoid(a, x, y)
    case Times(a, gap, digits) => ActionTokensAvoid(a, x, y) && Inert(gap, x, y)
    case Together(items) =>
      forall i :: 0 <= i < |items| ==>
        Inert(items[i].lead, x, y) && Inert(items[i].trail, x, y) && ActionTokensAvoid(items[i].action, x, y)
  }

  /** A pair of characters that the syntax itself never writes. */
  predicate Foreign(x: char, y: char) {
    Inert("=,()[]^", x, y) && !IsDigit(x) && !IsDigit(y)
  }

  lemma ForeignParts(x: char, y: char)
    requires Foreign(x, y)
    ensures Inert("=", x, y) && Inert(",", x, y) && Inert("(", x, y) && Inert(")", x, y)
    ensures Inert("[", x, y) && Inert("]", x, y) && Inert("^", x, y)
  {
    var all := "=,()[]^";
    assert all[0] == '=' && all[1] == ',' && all[2] == '(' && all[3] == ')';
    assert all[4] == '[' && all[5] == ']' && all[6] == '^';
  }

  lemma ActionAvoids(a: ActionLayout, x: char, y: char)
    requires ActionTokensAvoid(a, x, y) && Foreign(x, y)
    ensures Avoids(a.Text(), x, y)
  {
    ForeignParts(x, y);
    if a.Called? {
      if a.params != [] {
        var texts := ParamLayoutTexts(a.params);
        forall i | 0 <= i < |texts| ensures Avoids(texts[i], x, y) {
          var p := a.params[i];
          AvoidsPadded(p.lead, p.key, p.afterKey, x, y);
          AvoidsPadded(p.beforeValue, p.value, p.trail, x, y);
          AvoidsBetween(p.lead + p.key + p.afterKey, "=", p.beforeValue + p.value + p.trail, x, y);
        }
        AvoidsJoin(texts, ",", x, y);
      }
      AvoidsGlue(a.Args(), ")", x, y);
      AvoidsGlue(a.name, a.gap, x, y);
      AvoidsBetween(a.name + a.gap, "(", a.Args() + ")", x, y);
    }
  }

  lemma StepAvoids(s: StepLayout, x: char, y: char)
    requires s.Valid() && StepTokensAvoid(s, x, y) && Foreign(x, y)
    ensures Avoids(s.Text(), x, y)
  {
    ForeignParts(x, y);
    match s
    case One(a) => ActionAvoids(a, x, y);
    case Times(a, gap, digits) =>
      ActionAvoids(a, x, y);
      AvoidsGlue(a.Text(), gap, x, y);
      assert Inert(digits, x, y);
      AvoidsBetween(a.Text() + gap, "^", digits, x, y);
    case Together(items) =>
      var texts := ItemTexts(items);
      forall i | 0 <= i < |texts| ensures Avoids(texts[i], x, y) {
        ActionAvoids(items[i].action, x, y);
        AvoidsPadded(items[i].lead, items[i].action.Text(), items[i].trail, x, y);
      }
      AvoidsJoin(texts, ",", x, y);
      AvoidsPadded("[", Join(texts, ","), "]", x, y);
  }

  /** Blank padding never completes an arrow, so valid tokens are all that matters. */
  lemma ArrowNowhere(s: StepLayout)
    requires s.Valid()
    ensures StepTokensAvoid(s, '-', '>')
  {
    match s
    case One(a) => ArrowNowhereInAction(a);
    case Times(a, gap, _) =>
      ArrowNowhereInAction(a);
      BlankInert(gap);
    case Together(items) =>
      forall i | 0 <= i < |items|
        ensures Inert(items[i].lead, '-', '>') && Inert(items[i].trail, '-', '>')
        ensures ActionTokensAvoid(items[i].action, '-', '>')
      {
        ArrowNowhereInAction(items[i].action);
        BlankInert(items[i].lead);
        BlankInert(items[i].trail);
      }
  }

  lemma BlankInert(s: string)
    requires Blank(s)
    ensures Inert(s, '-', '>')
  {
    BlankHasNone(s, '-');
    BlankHasNone(s, '>');
  }

  lemma ArrowNowhereInAction(a: ActionLayout)
    requires a.Valid()
    ensures ActionTokensAvoid(a, '-', '>')
  {
    if a.Called? {
      BlankInert(a.gap);
      BlankInert(a.inside);
      forall i | 0 <= i < |a.params| ensures ParamTokensAvoid(a.params[i], '-', '>') {
        var p := a.params[i];
        BlankInert(p.lead);
        BlankInert(p.afterKey);
        BlankInert(p.beforeValue);
        BlankInert(p.trail);
      }
    }
  }

  // ── Recipes ───────────────────────────────────────────────────────────────────

  lemma ParseNamed(before: string, rest: string, name: string, steps: seq<Step>)
    requires '=' !in before && Trim(before) == name != ""
    requires steps != [] && Collect(ParseBodies(StepBodies(rest))) == Ok(steps)
    ensures ParseRecipe(before + "=" + rest) == Ok(Recipe(name, steps, ToDsl(name, steps)))
  {
    var block := before + "=" + rest;
    IndexOfAt(before, '=', rest);
    assert block[..|before|] == before && block[|before| + 1..] == rest;
  }

  lemma PieceReads(p: Piece)
    requires p.Valid()
    ensures Avoids(p.Text(), '-', '>')
    ensures Trim(p.Text()) == p.step.Text() != ""
  {
    ArrowNowhere(p.step);
    StepAvoids(p.step, '-', '>');
    BlankInert(p.lead);
    BlankInert(p.trail);
    AvoidsPadded(p.lead, p.step.Text(), p.trail, '-', '>');
    StepTextTrimmed(p.step);
    TrimPadded(p.lead, p.step.Text(), p.trail);
  }

  lemma BodiesRead(pieces: seq<Piece>, bodies: seq<string>)
    requires pieces != [] && |bodies| == |pieces|
    requires forall i :: 0 <= i < |pieces| ==> pieces[i].Valid() && bodies[i] == pieces[i].step.Text()
    ensures StepBodies(Join(PieceTexts(pieces), "->")) == bodies
  {
    hide StepLayout.Text, StepLayout.Valid, Join, Split, Trim, NonEmpty, Find;
    var texts := PieceTexts(pieces);
    forall i | 0 <= i < |texts|
      ensures CutsBefore(texts[i], "->") && !Has(texts[i], "->")
      ensures Trim(texts[i]) == bodies[i] != ""
    {
      PieceReads(pieces[i]);
      PairCuts(texts[i], '-', '>');
      assert ['-', '>'] == "->";
    }
    SplitJoined(texts, "->");
    assert TrimAll(texts) == bodies;
    NonEmptyKeepsAll(bodies);
  }

  lemma StepsRead(pieces: seq<Piece>, bodies: seq<string>)
    requires |bodies| == |pieces|
    requires forall i :: 0 <= i < |pieces| ==> pieces[i].Valid() && bodies[i] == pieces[i].step.Text()
    ensures Collect(ParseBodies(bodies)) == Ok(PieceMeanings(pieces))
  {
    hide ParseStep, StepLayout.Text;
    forall i | 0 <= i < |pieces| ensures ParseBodies(bodies)[i] == Ok(PieceMeanings(pieces)[i]) {
      StepReads(pieces[i].step, i + 1);
    }
    CollectOk(ParseBodies(bodies), PieceMeanings(pieces));
  }

  /** Layout independence: whatever the layout, one recipe block parses to its meaning. */
  lemma RecipeReads(l: RecipeLayout)
    requires l.Valid()
    ensures ParseRecipe(l.Text()) == Ok(l.Meaning())
  {
    var bodies := seq(|l.pieces|, i requires 0 <= i < |l.pieces| => l.pieces[i].step.Text());
    BodiesRead(l.pieces, bodies);
    StepsRead(l.pieces, bodies);
    BlankHasNone(l.lead, '=');
    BlankHasNone(l.gap, '=');
    TrimPadded(l.lead, l.name, l.gap);
    ParseNamed(l.lead + l.name + l.gap, Join(PieceTexts(l.pieces), "->"), l.name, PieceMeanings(l.pieces));
  }
}
