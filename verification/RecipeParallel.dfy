/** Exactly which parallel steps survive printing: the argument counts commas. */
module RecipeParallel {
  import opened Text
  import opened Counting
  import opened StringOrder
  import opened Recipe
  import opened RecipeSpec
  import opened RecipeRoundTrip
  import opened RecipeCanon

  // ── Cutting at commas ─────────────────────────────────────────────────────────

  /** Parts that a scan for commas at depth zero keeps apart and whole: none has such a comma,
      and each but the last closes what it opens. */
  predicate Separable(parts: seq<string>) {
    forall i :: 0 <= i < |parts| ==> Quiet(parts[i], 0) && (i < |parts| - 1 ==> Depth(parts[i], 0) == 0)
  }

  /** The pieces between commas at depth zero, as they stand in the text. */
  function Pieces(s: string, current: string, depth: nat): seq<string>
    decreases |s|
  {
    if s == "" then [current]
    else if s[0] == ',' && depth == 0 then [current] + Pieces(s[1..], "", 0)
    else Pieces(s[1..], current + [s[0]], DepthStep(depth, s[0]))
  }

  lemma {:induction false} SplitIsPieces(s: string, current: string, d: nat)
    ensures NonEmpty(SplitFrom(s, current, d)) == NonEmpty(TrimAll(Pieces(s, current, d)))
    decreases |s|
  {
    if s == "" {
      assert TrimAll([current]) == [Trim(current)];
    } else if s[0] == ',' && d == 0 {
      SplitIsPieces(s[1..], "", 0);
      var rest := Pieces(s[1..], "", 0);
      assert TrimAll([current] + rest) == [Trim(current)] + TrimAll(rest);
    } else {
      SplitIsPieces(s[1..], current + [s[0]], DepthStep(d, s[0]));
    }
  }

  lemma {:induction false} PiecesJoin(s: string, current: string, d: nat)
    ensures Pieces(s, current, d) != [] && Join(Pieces(s, current, d), ",") == current + s
    decreases |s|
  {
    if s == "" {
    } else if s[0] == ',' && d == 0 {
      PiecesJoin(s[1..], "", 0);
      assert current + s == current + "," + ("" + s[1..]);
    } else {
      PiecesJoin(s[1..], current + [s[0]], DepthStep(d, s[0]));
      assert current + [s[0]] + s[1..] == current + s;
    }
  }

  lemma {:induction false} PiecesAreSeparable(s: string, current: string, d: nat)
    requires Quiet(current, 0) && Depth(current, 0) == d
    ensures Separable(Pieces(s, current, d))
    decreases |s|
  {
    if s == "" {
    } else if s[0] == ',' && d == 0 {
      PiecesAreSeparable(s[1..], "", 0);
    } else {
      DepthConcat(current, [s[0]], 0);
      PiecesAreSeparable(s[1..], current + [s[0]], DepthStep(d, s[0]));
    }
  }

  lemma {:induction false} PiecesPast(t: string, rest: string, current: string, d: nat)
    requires Quiet(t, d)
    ensures Pieces(t + rest, current, d) == Pieces(rest, current + t, Depth(t, d))
    decreases |t|
  {
    if t == "" {
      assert t + rest == rest && current + t == current;
    } else {
      assert (t + rest)[0] == t[0] && (t + rest)[1..] == t[1..] + rest;
      PiecesPast(t[1..], rest, current + [t[0]], DepthStep(d, t[0]));
      assert current + [t[0]] + t[1..] == current + t;
    }
  }

  /** Separable parts come back as the pieces of their join. */
  lemma {:induction false} PiecesOfJoin(parts: seq<string>)
    requires parts != [] && Separable(parts)
    ensures Pieces(Join(parts, ","), "", 0) == parts
  {
    var t := parts[0];
    assert "" + t == t;
    if |parts| == 1 {
      assert t + "" == t;
      PiecesPast(t, "", "", 0);
    } else {
      var rest := Join(parts[1..], ",");
      PiecesOfJoin(parts[1..]);
      assert Join(parts, ",") == t + ("," + rest);
      PiecesPast(t, "," + rest, "", 0);
      assert ("," + rest)[0] == ',' && ("," + rest)[1..] == rest;
    }
  }

  // ── Counting commas ───────────────────────────────────────────────────────────

  lemma {:induction false} CommasJoin(parts: seq<string>)
    requires parts != []
    ensures Count(',', Join(parts, ",")) == CountSum(',', parts) + |parts| - 1
  {
    if |parts| > 1 {
      CommasJoin(parts[1..]);
      CountConcat(',', parts[0], ",");
      CountConcat(',', parts[0] + ",", Join(parts[1..], ","));
    }
  }

  /** Dropping empty pieces drops nothing but white space. */
  lemma {:induction false} CountKept(c: char, parts: seq<string>)
    ensures CountSum(c, NonEmpty(TrimAll(parts))) <= CountSum(c, parts)
    ensures !IsSpace(c) ==> CountSum(c, NonEmpty(TrimAll(parts))) == CountSum(c, parts)
    ensures |NonEmpty(TrimAll(parts))| <= |parts|
  {
    if parts == [] {
      assert TrimAll(parts) == [];
    } else {
      var rest := NonEmpty(TrimAll(parts[1..]));
      CountTrim(c, parts[0]);
      CountKept(c, parts[1..]);
      assert TrimAll(parts) == [Trim(parts[0])] + TrimAll(parts[1..]);
      assert ([Trim(parts[0])] + rest)[1..] == rest && [] + rest == rest;
    }
  }

  lemma CommaFollows(a: string, r: string, b: string, t: string)
    requires a + "," + r == b + "," + t && |a| < |b|
    ensures b[..|a|] == a && b[|a|] == ','
  {
    var s := a + "," + r;
    assert s[|a|] == ',' && (b + "," + t)[|a|] == b[|a|];
    forall k | 0 <= k < |a| ensures b[k] == a[k] {
      assert s[k] == a[k] && (b + "," + t)[k] == b[k];
    }
  }

  /** Of two parts that start a text and end before a comma, the longer has more commas. */
  lemma LongerHasMore(a: string, r: string, b: string, t: string)
    requires a + "," + r == b + "," + t
    ensures |a| < |b| ==> Count(',', a) < Count(',', b)
  {
    hide Count;
    if |a| < |b| {
      CommaFollows(a, r, b, t);
      var rest := b[|a|..];
      assert b == a + rest;
      CountConcat(',', a, rest);
      OneComma(rest[1..]);
      assert rest == "," + rest[1..];
    }
  }

  lemma OneComma(rest: string)
    ensures Count(',', "," + rest) == 1 + Count(',', rest)
  {
    assert ("," + rest)[0] == ',' && ("," + rest)[1..] == rest;
  }

  /** A text is cut into parts in one way only, once the commas of each part are known. */
  lemma {:induction false} JoinDetermines(xs: seq<string>, ys: seq<string>)
    requires |xs| == |ys| && Join(xs, ",") == Join(ys, ",")
    requires forall i :: 0 <= i < |xs| ==> Count(',', xs[i]) == Count(',', ys[i])
    ensures xs == ys
  {
    if |xs| > 1 {
      var r, t := Join(xs[1..], ","), Join(ys[1..], ",");
      LongerHasMore(xs[0], r, ys[0], t);
      LongerHasMore(ys[0], t, xs[0], r);
      var s := xs[0] + "," + r;
      assert s == ys[0] + "," + t;
      assert s[..|xs[0]|] == xs[0] && (ys[0] + "," + t)[..|ys[0]|] == ys[0];
      assert s[|xs[0]| + 1..] == r && (ys[0] + "," + t)[|ys[0]| + 1..] == t;
      JoinDetermines(xs[1..], ys[1..]);
    }
  }

  // ── An action's text has no comma too many ────────────────────────────────────

  lemma {:induction false} InsertedSize(tokens: seq<string>, acc: map<string, string>)
    requires InsertParams(tokens, acc).Ok?
    ensures |InsertParams(tokens, acc).value| <= |acc| + |tokens|
  {
    if tokens != [] {
      var token := Trim(tokens[0]);
      var i := IndexOf(token, '=').value;
      var k, v := Trim(token[..i]), Trim(token[i + 1..]);
      assert acc[k := v].Keys == acc.Keys + {k};
      InsertedSize(tokens[1..], acc[k := v]);
    }
  }

  lemma SplitCount(s: string)
    ensures |Split(s, ",")| == Count(',', s) + 1
  {
    JoinSplit(s, ",");
    SplitHasNoComma(s);
    CommasJoin(Split(s, ","));
    CountSumNone(',', Split(s, ","));
  }

  lemma CommasOfAction(a: ActionDef)
    requires ActionShape(a)
    ensures Count(',', ActionToDsl(a)) == Count(',', a.name) + if a.params == map[] then 0 else |a.params| - 1
  {
    if a.params != map[] {
      var keys := SortedSeq(a.params.Keys);
      var texts := ParamTexts(a.params, keys);
      forall t | t in texts ensures ',' !in t {}
      CanonArgs(a.params);
      CountSumNone(',', texts);
      CommasJoin(texts);
      CountNone(',', "(");
      CountNone(',', ")");
      CountConcat(',', a.name, "(");
      CountConcat(',', a.name + "(", Join(texts, ","));
      CountConcat(',', a.name + "(" + Join(texts, ","), ")");
      assert |a.params| == |a.params.Keys|;
    }
  }

  /** Printing an action never takes more commas than it was read from. */
  lemma FewestCommas(token: string, stepIdx: nat)
    requires ParseAction(token, stepIdx).Ok?
    ensures Count(',', ActionToDsl(ParseAction(token, stepIdx).value)) <= Count(',', token)
  {
    hide ActionToDsl, Count, ActionShape, Trim, ParseParams;
    var a := ParseAction(token, stepIdx).value;
    ParsedActionShape(token, stepIdx);
    CommasOfAction(a);
    match IndexOf(token, '(')
    case None => CountTrim(',', token);
    case Some(open) =>
      var close := FindLast(token, ')').value;
      var args := token[open + 1..close];
      CountTrim(',', token[..open]);
      FewestParamCommas(args);
      CommasInside(token, open, close);
  }

  lemma FewestParamCommas(args: string)
    requires ParseParams(args).Ok?
    ensures |ParseParams(args).value| <= Count(',', args) + 1
  {
    SplitCount(args);
    if Trim(args) != "" { InsertedSize(Split(args, ","), map[]); }
  }

  lemma CommasInside(token: string, open: nat, close: nat)
    requires open < close < |token|
    ensures Count(',', token[..open]) + Count(',', token[open + 1..close]) <= Count(',', token)
  {
    hide Count;
    var a, b, c, d := token[..open], token[open..open + 1], token[open + 1..close], token[close..];
    assert token == a + b + c + d;
    CountConcat(',', a, b);
    CountConcat(',', a + b, c);
    CountConcat(',', a + b + c, d);
  }

  // ── One parallel step ─────────────────────────────────────────────────────────

  predicate Writable(a: ActionDef) {
    ActionShape(a) && (a.name != "" || a.params != map[])
  }

  /** The canonical texts with the blank that follows each comma. */
  function Spaced(texts: seq<string>): seq<string> {
    seq(|texts|, i requires 0 <= i < |texts| => (if i == 0 then "" else " ") + texts[i])
  }

  lemma SpacedJoin(texts: seq<string>)
    requires texts != []
    ensures Join(Spaced(texts), ",") == Join(texts, ", ")
  {
    JoinPrefixed(texts, Spaced(texts), " ", ",");
    assert "," + " " == ", ";
  }

  lemma SpacedSame(texts: seq<string>)
    ensures Separable(Spaced(texts)) <==> Separable(texts)
    ensures forall i :: 0 <= i < |texts| ==> Count(',', Spaced(texts)[i]) == Count(',', texts[i])
  {
    forall i | 0 <= i < |texts|
      ensures Count(',', Spaced(texts)[i]) == Count(',', texts[i])
      ensures Quiet(Spaced(texts)[i], 0) <==> Quiet(texts[i], 0)
      ensures Depth(Spaced(texts)[i], 0) == Depth(texts[i], 0)
    {
      var lead := if i == 0 then "" else " ";
      BlankLevel(lead, 0);
      DepthConcat(lead, texts[i], 0);
      BlankHasNone(lead, ',');
      CountNone(',', lead);
      CountConcat(',', lead, texts[i]);
    }
  }

  lemma SpacedTrims(texts: seq<string>)
    requires forall t :: t in texts ==> Trimmed(t)
    ensures TrimAll(Spaced(texts)) == texts
  {
    forall i | 0 <= i < |texts| ensures Trim(Spaced(texts)[i]) == texts[i] {
      var lead := if i == 0 then "" else " ";
      assert texts[i] in texts;
      assert lead + texts[i] + "" == Spaced(texts)[i];
      TrimPadded(lead, texts[i], "");
    }
  }

  lemma {:induction false} NonEmptyDrops(parts: seq<string>)
    ensures |NonEmpty(parts)| <= |parts|
    ensures |NonEmpty(parts)| == |parts| ==> NonEmpty(parts) == parts && forall i :: 0 <= i < |parts| ==> parts[i] != ""
  {
    if parts != [] { NonEmptyDrops(parts[1..]); }
  }

  /** Reading the canonical text back as the same actions means that it was cut exactly where
      it was joined: anywhere else some token would have a comma less than its action needs. */
  lemma ReadBackIsSeparable(actions: seq<ActionDef>, stepIdx: nat)
    requires actions != []
    requires Collect(ParseTokens(NonEmpty(SplitParallel(Join(ActionTexts(actions), ", "))), stepIdx)) == Ok(actions)
    ensures Separable(ActionTexts(actions)) && forall a :: a in actions ==> Writable(a)
  {
    hide ParseAction, Trim, ActionShape, Quiet, Depth, ActionToDsl, SplitFrom, NonEmpty, Count, Join;
    var texts := ActionTexts(actions);
    var inner := Join(texts, ", ");
    var pieces := Pieces(inner, "", 0);
    var tokens := NonEmpty(TrimAll(pieces));
    SplitIsPieces(inner, "", 0);
    TokensParsed(tokens, actions, stepIdx);
    PiecesJoin(inner, "", 0);
    SpacedJoin(texts);
    CommasJoin(pieces);
    CommasJoin(Spaced(texts));
    SpacedSame(texts);
    SumOfMore(',', Spaced(texts), texts);
    SumOfMore(',', texts, Spaced(texts));
    CountKept(',', pieces);
    SumOfMore(',', tokens, texts);
    NonEmptyDrops(TrimAll(pieces));
    assert "" + inner == inner;
    assert |pieces| == |texts| && CountSum(',', tokens) == CountSum(',', texts);
    forall i | 0 <= i < |pieces| ensures Count(',', pieces[i]) == Count(',', Spaced(texts)[i]) {
      CountTrim(',', pieces[i]);
    }
    JoinDetermines(pieces, Spaced(texts));
    BlankLevel("", 0);
    PiecesAreSeparable(inner, "", 0);
    NonEmptyTexts(actions, pieces);
  }

  lemma TokensParsed(tokens: seq<string>, actions: seq<ActionDef>, stepIdx: nat)
    requires Collect(ParseTokens(tokens, stepIdx)) == Ok(actions)
    ensures |tokens| == |actions|
    ensures forall i :: 0 <= i < |tokens| ==>
      ActionShape(actions[i]) && Count(',', tokens[i]) >= Count(',', ActionTexts(actions)[i])
  {
    hide ParseAction, Trim, ActionShape, ActionToDsl, Count;
    forall i | 0 <= i < |tokens|
      ensures ActionShape(actions[i]) && Count(',', tokens[i]) >= Count(',', ActionTexts(actions)[i]) {
      assert ParseTokens(tokens, stepIdx)[i] == Ok(actions[i]);
      ParsedActionShape(Trim(tokens[i]), stepIdx);
      FewestCommas(Trim(tokens[i]), stepIdx);
      CountTrim(',', tokens[i]);
    }
  }

  lemma NonEmptyTexts(actions: seq<ActionDef>, pieces: seq<string>)
    requires pieces == Spaced(ActionTexts(actions)) && |NonEmpty(TrimAll(pieces))| == |pieces|
    requires forall i :: 0 <= i < |actions| ==> ActionShape(actions[i])
    ensures forall a :: a in actions ==> Writable(a)
  {
    hide ActionShape, NonEmpty;
    var texts := ActionTexts(actions);
    forall t | t in texts ensures Trimmed(t) {
      var i :| 0 <= i < |texts| && texts[i] == t;
      ShapeTextTrimmed(actions[i]);
    }
    SpacedTrims(texts);
    NonEmptyDrops(texts);
    forall i | 0 <= i < |actions| ensures Writable(actions[i]) { assert texts[i] != ""; }
  }

  lemma SeparableReadsBack(actions: seq<ActionDef>, stepIdx: nat)
    requires actions != [] && Separable(ActionTexts(actions)) && forall a :: a in actions ==> Writable(a)
    ensures Collect(ParseTokens(NonEmpty(SplitParallel(Join(ActionTexts(actions), ", "))), stepIdx)) == Ok(actions)
  {
    hide ParseAction, Trim, ActionShape, Quiet, Depth, SplitFrom, NonEmpty, Join;
    var texts := ActionTexts(actions);
    SpacedJoin(texts);
    SpacedSame(texts);
    PiecesOfJoin(Spaced(texts));
    SplitIsPieces(Join(texts, ", "), "", 0);
    forall i | 0 <= i < |texts| ensures Trimmed(texts[i]) && texts[i] != "" {
      assert Writable(actions[i]);
      ShapeTextTrimmed(actions[i]);
    }
    SpacedTrims(texts);
    NonEmptyKeepsAll(texts);
    TokensRead(actions, stepIdx);
  }

  /** A parallel step survives printing exactly when it has an action, each of its actions has
      the shape of a parsed one and some text, and the texts can be told apart: read from left
      to right, none has a comma outside parentheses, and each but the last ends with all of
      its parentheses closed. */
  lemma ParallelRoundTripsIff(actions: seq<ActionDef>, stepIdx: nat)
    ensures ParseStep(StepToDsl(Parallel(actions)), stepIdx) == Ok(Parallel(actions)) <==>
      actions != [] && (forall a :: a in actions ==> Writable(a)) && Separable(ActionTexts(actions))
  {
    hide Collect, SplitParallel, NonEmpty, ActionShape, ActionToDsl, FindRepeatCaret, ParseAction,
      Separable, ParseTokens;
    var inner := Join(ActionTexts(actions), ", ");
    var body := "[" + inner + "]";
    assert body[1..|body| - 1] == inner;
    if ParseStep(body, stepIdx) == Ok(Parallel(actions)) {
      ReadBackIsSeparable(actions, stepIdx);
    }
    if actions != [] && (forall a :: a in actions ==> Writable(a)) && Separable(ActionTexts(actions)) {
      SeparableReadsBack(actions, stepIdx);
    }
  }

  lemma TokensRead(actions: seq<ActionDef>, stepIdx: nat)
    requires forall a :: a in actions ==> ActionShape(a)
    ensures Collect(ParseTokens(ActionTexts(actions), stepIdx)) == Ok(actions)
  {
    var results := ParseTokens(ActionTexts(actions), stepIdx);
    forall i | 0 <= i < |actions| ensures results[i] == Ok(actions[i]) {
      ShapeTextTrimmed(actions[i]);
      TrimTrimmed(ActionToDsl(actions[i]));
      ActionRoundTripsIff(actions[i], stepIdx);
    }
    CollectOk(results, actions);
  }
}
