/** The canonical text of a recipe is one of its layouts, so printing and parsing are inverse:
    for one action, for one step, and (in RecipeBook) for recipes and whole files. */
module RecipeCanon {
  import opened Text
  import opened StringOrder
  import opened Recipe
  import opened RecipeSpec
  import opened RecipeLayout
  import opened RecipeRoundTrip

  // ── Decimal numerals ──────────────────────────────────────────────────────────

  lemma {:induction false} DecimalReads(n: nat)
    ensures AllDigits(Decimal(n)) && Numeral(Decimal(n)) == n
  {
    if n < 10 {
      assert Decimal(n)[..0] == "";
    } else {
      DecimalReads(n / 10);
      var s := Decimal(n);
      assert s[..|s| - 1] == Decimal(n / 10);
    }
  }

  // ── The canonical layout ──────────────────────────────────────────────────────

  function CanonParams(params: map<string, string>, keys: seq<string>): seq<ParamLayout>
    requires forall k :: k in keys ==> k in params
  {
    seq(|keys|, i requires 0 <= i < |keys| => ParamLayout("", keys[i], "", "", params[keys[i]], ""))
  }

  function CanonAction(a: ActionDef): ActionLayout {
    if a.params == map[] then Bare(a.name)
    else Called(a.name, "", "", CanonParams(a.params, SortedSeq(a.params.Keys)))
  }

  lemma {:induction false} CanonInserted(params: map<string, string>, keys: seq<string>, acc: map<string, string>)
    requires forall k :: k in keys ==> k in params
    ensures Inserted(CanonParams(params, keys), acc) == acc + map k | k in keys :: params[k]
  {
    var ps := CanonParams(params, keys);
    if keys != [] {
      assert ps[1..] == CanonParams(params, keys[1..]);
      CanonInserted(params, keys[1..], acc[keys[0] := params[keys[0]]]);
      assert forall k :: k in keys <==> k == keys[0] || k in keys[1..];
    }
  }

  lemma CanonInsertedAll(params: map<string, string>)
    ensures Inserted(CanonParams(params, SortedSeq(params.Keys)), map[]) == params
  {
    var keys := SortedSeq(params.Keys);
    CanonInserted(params, keys, map[]);
    assert (map[] + map k | k in keys :: params[k]) == params;
  }

  lemma CanonArgs(params: map<string, string>)
    requires params != map[]
    ensures var ps := CanonParams(params, SortedSeq(params.Keys));
      ps != [] && ParamLayoutTexts(ps) == ParamTexts(params, SortedSeq(params.Keys))
  {
    var keys := SortedSeq(params.Keys);
    var k :| k in params;
    assert k in keys;
    hide SortedSeq, ParamLayout.Text;
    forall i | 0 <= i < |keys|
      ensures CanonParams(params, keys)[i].Text() == keys[i] + "=" + params[keys[i]]
    {
      UnpaddedParam(keys[i], params[keys[i]]);
    }
  }

  lemma UnpaddedParam(k: string, v: string)
    ensures ParamLayout("", k, "", "", v, "").Text() == k + "=" + v
  {
    assert "" + k + "" == k && "" + v + "" == v;
  }

  lemma UnpaddedCall(name: string, args: string)
    ensures (name + "") + "(" + (args + ")") == name + "(" + args + ")"
  {}

  lemma CanonActionIs(a: ActionDef)
    ensures CanonAction(a).Text() == ActionToDsl(a)
    ensures CanonAction(a).Meaning() == a
  {
    if a.params != map[] {
      CanonInsertedAll(a.params);
      CanonArgs(a.params);
      UnpaddedCall(a.name, CanonAction(a).Args());
    }
  }

  // ── One action ────────────────────────────────────────────────────────────────

  /** The shape of every action the parser can return. */
  predicate ActionShape(a: ActionDef) {
    && NameShape(a.name)
    && forall k :: k in a.params ==> KeyShape(k) && ValueShape(a.params[k])
  }

  lemma {:induction false} InsertedShape(tokens: seq<string>, acc: map<string, string>)
    requires forall t :: t in tokens ==> ',' !in t
    requires forall k :: k in acc ==> KeyShape(k) && ValueShape(acc[k])
    requires InsertParams(tokens, acc).Ok?
    ensures var m := InsertParams(tokens, acc).value;
      forall k :: k in m ==> KeyShape(k) && ValueShape(m[k])
  {
    if tokens != [] {
      var token := Trim(tokens[0]);
      TrimChars(tokens[0]);
      var i := IndexOf(token, '=').value;
      TrimChars(token[..i]);
      TrimChars(token[i + 1..]);
      assert ',' !in token && '=' !in token[..i];
      assert forall c :: c in token[..i] || c in token[i + 1..] ==> c in token;
      InsertedShape(tokens[1..], acc[Trim(token[..i]) := Trim(token[i + 1..])]);
    }
  }

  lemma TrimChars(s: string)
    ensures Trimmed(Trim(s))
    ensures forall c :: c in Trim(s) ==> c in s
  {
    var lead, trail := TrimDecomposes(s);
  }

  lemma SplitHasNoComma(s: string)
    ensures forall t :: t in Split(s, ",") ==> ',' !in t
  {
    SplitPiecesHaveNoSeparator(s, ",");
    forall t | t in Split(s, ",") ensures ',' !in t {
      forall i | 0 <= i < |t| ensures t[i] != ',' {
        assert !OccursAt(t, ",", i);
        assert t[i..i + 1] == [t[i]];
      }
    }
  }

  /** Whatever text it came from, a parsed action has that shape. */
  lemma ParsedActionShape(body: string, stepIdx: nat)
    requires ParseAction(body, stepIdx).Ok?
    ensures ActionShape(ParseAction(body, stepIdx).value)
  {
    match IndexOf(body, '(')
    case None => TrimChars(body);
    case Some(open) =>
      TrimChars(body[..open]);
      var close := FindLast(body, ')').value;
      var args := body[open + 1..close];
      SplitHasNoComma(args);
      if Trim(args) != "" { InsertedShape(Split(args, ","), map[]); }
  }

  /** Printing an action and parsing it gives it back exactly when it has the shape of a
      parsed action; so re-canonicalising a parsed action never changes it. */
  lemma ActionRoundTripsIff(a: ActionDef, stepIdx: nat)
    ensures ParseAction(ActionToDsl(a), stepIdx) == Ok(a) <==> ActionShape(a)
  {
    CanonActionIs(a);
    if ActionShape(a) {
      assert CanonAction(a).Readable();
      ActionReads(CanonAction(a), stepIdx);
    }
    if ParseAction(ActionToDsl(a), stepIdx) == Ok(a) {
      ParsedActionShape(ActionToDsl(a), stepIdx);
    }
  }

  // ── One step ──────────────────────────────────────────────────────────────────

  predicate StartsBracket(s: string) {
    s != "" && s[0] == '['
  }

  lemma ShapeTextTrimmed(a: ActionDef)
    requires ActionShape(a)
    ensures Trimmed(ActionToDsl(a))
    ensures a.params != map[] ==> ActionToDsl(a) != "" && ActionToDsl(a)[|ActionToDsl(a)| - 1] == ')'
    ensures StartsBracket(ActionToDsl(a)) <==> StartsBracket(a.name)
  {}

  lemma {:induction false} CaretFoundFlat(body: string, i: nat, j: nat)
    requires i <= j < |body| && '(' !in body && body[j] == '^' && AllDigits(body[j + 1..])
    ensures CaretFrom(body, i, 0).Some?
    decreases j - i
  {
    if i < j && !(body[i] == '^' && AllDigits(body[i + 1..])) { CaretFoundFlat(body, i + 1, j); }
  }

  lemma NoCaret(body: string)
    requires !EndsLikeRepeat(body)
    ensures FindRepeatCaret(body) == None
  {}

  lemma EndsInParen(body: string)
    requires body != "" && body[|body| - 1] == ')'
    ensures !EndsLikeRepeat(body)
  {
    forall i | 0 <= i < |body| ensures !(body[i] == '^' && AllDigits(body[i + 1..])) {
      if i + 1 < |body| { assert body[i + 1..][|body| - i - 2] == body[|body| - 1]; }
    }
  }

  lemma CaretInBareName(name: string)
    requires '(' !in name && EndsLikeRepeat(name)
    ensures FindRepeatCaret(name).Some?
  {
    var j :| 0 <= j < |name| && name[j] == '^' && AllDigits(name[j + 1..]);
    CaretFoundFlat(name, 0, j);
  }

  /** A single step survives printing exactly when its action does, it does not look like a
      parallel step, and a bare name does not look like a repeat. */
  lemma SingleRoundTripsIff(a: ActionDef, stepIdx: nat)
    ensures ParseStep(StepToDsl(Single(a)), stepIdx) == Ok(Single(a)) <==>
      ActionShape(a) && !StartsBracket(a.name) && !(a.params == map[] && EndsLikeRepeat(a.name))
  {
    hide ParseAction, CaretFrom, Collect, ParseTokens, SplitParallel, NonEmpty;
    var body := ActionToDsl(a);
    ActionRoundTripsIff(a, stepIdx);
    if ActionShape(a) {
      ShapeTextTrimmed(a);
      if a.params == map[] && EndsLikeRepeat(a.name) {
        CaretInBareName(a.name);
      } else {
        if a.params != map[] { EndsInParen(body); }
        NoCaret(body);
      }
    }
  }

  lemma {:induction false} CaretDepth(body: string, i: nat, d: nat)
    requires i <= |body| && CaretFrom(body, i, d).Some?
    ensures Depth(body[i..CaretFrom(body, i, d).value], d) == 0
    decreases |body| - i
  {
    var v := CaretFrom(body, i, d).value;
    if v == i {
      assert body[i..v] == "";
    } else {
      CaretDepth(body, i + 1, DepthStep(d, body[i]));
      assert body[i..v][0] == body[i] && body[i..v][1..] == body[i + 1..v];
    }
  }

  lemma CaretBeforeCaret(t: string, digits: string, v: nat)
    ensures v < |t| ==> !AllDigits((t + "^" + digits)[v + 1..])
  {
    var body := t + "^" + digits;
    if v < |t| { assert body[v + 1..][|t| - v - 1] == '^'; }
  }

  lemma OnlyLastCaretRepeats(t: string, digits: string, v: nat)
    requires v < |t + "^" + digits| && (t + "^" + digits)[v] == '^' && AllDigits((t + "^" + digits)[v + 1..])
    requires AllDigits(digits)
    ensures v == |t|
  {
    CaretBeforeCaret(t, digits, v);
    assert forall w :: |t| < w < |t + "^" + digits| ==> (t + "^" + digits)[w] == digits[w - |t| - 1];
  }

  /** A repeated step survives printing exactly when its action does, its parentheses close,
      it does not look like a parallel step, and the count is a positive `u32`. */
  lemma RepeatedRoundTripsIff(a: ActionDef, n: nat, stepIdx: nat)
    ensures ParseStep(StepToDsl(Repeated(a, n)), stepIdx) == Ok(Repeated(a, n)) <==>
      ActionShape(a) && Depth(ActionToDsl(a), 0) == 0 && !StartsBracket(ActionToDsl(a)) && 0 < n < U32_LIMIT
  {
    var t := ActionToDsl(a);
    var digits := Decimal(n);
    var body := t + "^" + digits;
    DecimalReads(n);
    assert StepToDsl(Repeated(a, n)) == body;
    assert StartsBracket(body) <==> StartsBracket(t);
    if ActionShape(a) && Depth(t, 0) == 0 && !StartsBracket(t) && 0 < n < U32_LIMIT {
      ShapeTextTrimmed(a);
      TrimTrimmed(t);
      ActionRoundTripsIff(a, stepIdx);
      ParseTimes(t, digits, a, stepIdx);
    }
    if ParseStep(body, stepIdx) == Ok(Repeated(a, n)) {
      RepeatedReadOnlyIf(t, digits, a, n, stepIdx);
    }
  }

  lemma RepeatedReadOnlyIf(t: string, digits: string, a: ActionDef, n: nat, stepIdx: nat)
    requires AllDigits(digits) && Numeral(digits) == n
    requires ParseStep(t + "^" + digits, stepIdx) == Ok(Repeated(a, n))
    ensures ActionShape(a) && Depth(t, 0) == 0 && !StartsBracket(t) && 0 < n < U32_LIMIT
  {
    var body := t + "^" + digits;
    assert StartsBracket(body) <==> StartsBracket(t);
    var v := FindRepeatCaret(body).value;
    OnlyLastCaretRepeats(t, digits, v);
    CaretDepth(body, 0, 0);
    assert body[0..v] == t && body[v + 1..] == digits;
    ParsedActionShape(Trim(body[..v]), stepIdx);
  }

  /** Re-canonicalising is not always stable: `A^2()` is one action named `A^2`, prints as
      `A^2`, and that reads as the action `A` twice. The same happens to every such name. */
  lemma PrintedNameCanChangeMeaning(base: string, digits: string, stepIdx: nat)
    requires NameShape(base) && base != "" && base[0] != '['
    requires AllDigits(digits) && 0 < Numeral(digits) < U32_LIMIT
    ensures var a := ActionDef(base + "^" + digits, map[]);
      && ParseStep(a.name + "" + "(" + ("" + ")"), stepIdx) == Ok(Single(a))
      && ParseStep(StepToDsl(Single(a)), stepIdx) == Ok(Repeated(ActionDef(base, map[]), Numeral(digits)))
  {
    var name := base + "^" + digits;
    var called := Called(name, "", "", []);
    var text := called.Text();
    assert text[|text| - 1] == ')' && text[0] == base[0];
    assert forall i :: 0 <= i < |digits| ==> digits[i] != '(';
    EndsInParen(text);
    NoCaret(text);
    ActionReads(called, stepIdx);
    FlatLevel(base, 0);
    TrimTrimmed(base);
    ParseTimes(base, digits, ActionDef(base, map[]), stepIdx);
  }

  // ── Well-formed recipes ───────────────────────────────────────────────────────

  ghost predicate ActionOk(a: ActionDef) {
    && ActionShape(a) && a.name != "" && ArrowFree(a.name)
    && forall k :: k in a.params ==> ArrowFree(k) && ArrowFree(a.params[k])
  }

  predicate ActionNested(a: ActionDef) {
    forall k :: k in a.params ==> Balanced(k) && Balanced(a.params[k])
  }

  ghost predicate StepOk(s: Step) {
    match s
    case Single(a) => ActionOk(a) && a.name[0] != '[' && !(a.params == map[] && EndsLikeRepeat(a.name))
    case Repeated(a, n) => ActionOk(a) && ActionNested(a) && a.name[0] != '[' && 0 < n < U32_LIMIT
    case Parallel(actions) =>
      && actions != []
      && forall i :: 0 <= i < |actions| ==> ActionOk(actions[i]) && ActionNested(actions[i]) && ',' !in actions[i].name
  }

  /** Which recipes can be written down; every condition is on one token at a time. */
  ghost predicate RecipeOk(r: Recipe) {
    && r.name != "" && Trimmed(r.name) && '=' !in r.name
    && r.steps != []
    && (forall i :: 0 <= i < |r.steps| ==> StepOk(r.steps[i]))
    && Canonical(r)
  }

  function CanonItem(layout: ActionLayout, first: bool): Item {
    Item(if first then "" else " ", layout, "")
  }

  function CanonItems(actions: seq<ActionDef>): seq<Item> {
    seq(|actions|, i requires 0 <= i < |actions| => CanonItem(CanonAction(actions[i]), i == 0))
  }

  function CanonStep(s: Step): StepLayout {
    match s
    case Single(a) => One(CanonAction(a))
    case Repeated(a, n) => Times(CanonAction(a), "", Decimal(n))
    case Parallel(actions) => Together(CanonItems(actions))
  }

  function CanonPieces(steps: seq<Step>): seq<Piece> {
    seq(|steps|, i requires 0 <= i < |steps| =>
      Piece(" ", CanonStep(steps[i]), if i == |steps| - 1 then "" else " "))
  }

  /** The layout that `to_dsl_string` writes: a space on each side of `=` and of `->`. */
  function CanonLayout(r: Recipe): RecipeLayout {
    RecipeLayout("", r.name, " ", CanonPieces(r.steps))
  }

  // ── Padding separators instead of parts ───────────────────────────────────────

  function PadAll(xs: seq<string>, pre: string, post: string): seq<string> {
    seq(|xs|, i requires 0 <= i < |xs| => pre + xs[i] + (if i == |xs| - 1 then "" else post))
  }

  lemma {:induction false} JoinPadAll(xs: seq<string>, pre: string, sep: string, post: string)
    requires xs != []
    ensures Join(PadAll(xs, pre, post), sep) == pre + Join(xs, post + sep + pre)
  {
    var ys := PadAll(xs, pre, post);
    if |xs| > 1 {
      assert ys[1..] == PadAll(xs[1..], pre, post);
      JoinPadAll(xs[1..], pre, sep, post);
      var rest := Join(xs[1..], post + sep + pre);
      assert (pre + xs[0] + post) + sep + (pre + rest) == pre + (xs[0] + (post + sep + pre) + rest);
    }
  }

  lemma {:induction false} JoinPrefixed(xs: seq<string>, ys: seq<string>, pre: string, sep: string)
    requires |xs| == |ys| >= 1
    requires forall i :: 0 <= i < |xs| ==> ys[i] == (if i == 0 then "" else pre) + xs[i]
    ensures Join(ys, sep) == Join(xs, sep + pre)
  {
    assert ys[0] == xs[0];
    if |xs| > 1 {
      forall i | 0 <= i < |xs| - 1 ensures ys[1..][i] == PadAll(xs[1..], pre, "")[i] {
        assert pre + xs[1..][i] + "" == pre + xs[i + 1];
      }
      assert ys[1..] == PadAll(xs[1..], pre, "");
      JoinPadAll(xs[1..], pre, sep, "");
      assert "" + sep + pre == sep + pre;
      var rest := Join(xs[1..], sep + pre);
      assert xs[0] + sep + (pre + rest) == xs[0] + (sep + pre) + rest;
    }
  }

  lemma CanonActionOk(a: ActionDef)
    requires ActionOk(a)
    ensures CanonAction(a).Valid()
    ensures ActionNested(a) ==> CanonAction(a).Nested()
    ensures CanonAction(a).name == a.name && (CanonAction(a).Bare? <==> a.params == map[])
  {}

  lemma CanonParallelIs(actions: seq<ActionDef>)
    requires StepOk(Parallel(actions))
    ensures var s := CanonStep(Parallel(actions));
      s.Valid() && s.Text() == StepToDsl(Parallel(actions)) && s.Meaning() == Parallel(actions)
  {
    var items := CanonItems(actions);
    var texts := ActionTexts(actions);
    forall i | 0 <= i < |actions|
      ensures items[i].Valid() && items[i].action.Meaning() == actions[i]
      ensures items[i].Text() == (if i == 0 then "" else " ") + texts[i]
    {
      CanonActionOk(actions[i]);
      CanonActionIs(actions[i]);
    }
    assert ItemMeanings(items) == actions;
    JoinPrefixed(texts, ItemTexts(items), " ", ",");
    assert "," + " " == ", ";
  }

  lemma CanonStepIs(s: Step)
    requires StepOk(s)
    ensures CanonStep(s).Valid()
    ensures CanonStep(s).Text() == StepToDsl(s)
    ensures CanonStep(s).Meaning() == s
  {
    match s
    case Single(a) =>
      CanonActionOk(a);
      CanonActionIs(a);
    case Repeated(a, n) =>
      CanonActionOk(a);
      CanonActionIs(a);
      DecimalReads(n);
      assert CanonAction(a).Text() + "" == CanonAction(a).Text();
    case Parallel(actions) => CanonParallelIs(actions);
  }

  lemma CanonPiecesAre(steps: seq<Step>)
    requires forall i :: 0 <= i < |steps| ==> StepOk(steps[i])
    ensures var ps := CanonPieces(steps);
      && (forall i :: 0 <= i < |ps| ==> ps[i].Valid())
      && PieceMeanings(ps) == steps
      && PieceTexts(ps) == PadAll(StepTexts(steps), " ", " ")
  {
    var ps := CanonPieces(steps);
    forall i | 0 <= i < |steps|
      ensures ps[i].Valid() && ps[i].step.Meaning() == steps[i]
      ensures ps[i].Text() == " " + StepToDsl(steps[i]) + (if i == |steps| - 1 then "" else " ")
    {
      CanonStepIs(steps[i]);
    }
  }

  lemma Respaced(name: string, texts: seq<string>)
    requires texts != []
    ensures ("" + name + " ") + "=" + Join(PadAll(texts, " ", " "), "->") == name + " = " + Join(texts, " -> ")
  {
    JoinPadAll(texts, " ", "->", " ");
    assert " " + "->" + " " == " -> ";
    var rest := Join(texts, " -> ");
    assert ("" + name + " ") + "=" + (" " + rest) == name + (" " + "=" + " ") + rest;
    assert " " + "=" + " " == " = ";
  }

  lemma CanonLayoutIs(r: Recipe)
    requires RecipeOk(r)
    ensures CanonLayout(r).Valid()
    ensures CanonLayout(r).Text() == r.source
    ensures CanonLayout(r).Meaning() == r
  {
    CanonPiecesAre(r.steps);
    Respaced(r.name, StepTexts(r.steps));
  }
}
