/** The string operations of Rust's standard library that the recipe parser is built from:
    trim, find, rfind, split, replace and join, each with the facts the parser's proofs need.
    Positions count characters; every separator searched for is ASCII, so this is the same
    cut as Rust's byte position. */
module Text {

  datatype Option<+T> = None | Some(value: T)

  /** The Unicode White_Space property, which is what Rust's `trim` removes. */
  predicate IsSpace(c: char) {
    var code := c as int;
    || 9 <= code <= 13 || code == 32 || code == 0x85 || code == 0xA0 || code == 0x1680
    || 0x2000 <= code <= 0x200A || code == 0x2028 || code == 0x2029 || code == 0x202F
    || code == 0x205F || code == 0x3000
  }

  predicate Blank(s: string) {
    forall i :: 0 <= i < |s| ==> IsSpace(s[i])
  }

  predicate Trimmed(s: string) {
    s == "" || (!IsSpace(s[0]) && !IsSpace(s[|s| - 1]))
  }

  // ── trim ──────────────────────────────────────────────────────────────────────

  function TrimStart(s: string): string {
    if s != "" && IsSpace(s[0]) then TrimStart(s[1..]) else s
  }

  function TrimEnd(s: string): string {
    if s != "" && IsSpace(s[|s| - 1]) then TrimEnd(s[..|s| - 1]) else s
  }

  function Trim(s: string): string {
    TrimEnd(TrimStart(s))
  }

  lemma {:induction false} TrimStartCuts(lead: string, rest: string)
    requires Blank(lead) && (rest == "" || !IsSpace(rest[0]))
    ensures TrimStart(lead + rest) == rest
  {
    var s := lead + rest;
    if lead == "" {
      assert s == rest;
    } else {
      assert s[0] == lead[0] && s[1..] == lead[1..] + rest;
      TrimStartCuts(lead[1..], rest);
    }
  }

  lemma {:induction false} TrimEndCuts(rest: string, trail: string)
    requires Blank(trail) && (rest == "" || !IsSpace(rest[|rest| - 1]))
    ensures TrimEnd(rest + trail) == rest
  {
    var s := rest + trail;
    if trail == "" {
      assert s == rest;
    } else {
      var init := trail[..|trail| - 1];
      assert s[|s| - 1] == trail[|trail| - 1] && s[..|s| - 1] == rest + init;
      TrimEndCuts(rest, init);
    }
  }

  /** Trimming removes exactly the padding around a trimmed core. */
  lemma TrimPadded(lead: string, core: string, trail: string)
    requires Blank(lead) && Blank(trail) && Trimmed(core)
    ensures Trim(lead + core + trail) == core
  {
    var s := lead + core + trail;
    if core == "" {
      assert Blank(s) && s == s + "";
      TrimStartCuts(s, "");
    } else {
      assert s == lead + (core + trail);
      TrimStartCuts(lead, core + trail);
      TrimEndCuts(core, trail);
    }
  }

  lemma TrimTrimmed(s: string)
    requires Trimmed(s)
    ensures Trim(s) == s
  {
    TrimPadded("", s, "");
    assert "" + s + "" == s;
  }

  lemma {:induction false} TrimStartDecomposes(s: string) returns (lead: string)
    ensures Blank(lead) && s == lead + TrimStart(s)
    ensures TrimStart(s) == "" || !IsSpace(TrimStart(s)[0])
  {
    if s != "" && IsSpace(s[0]) {
      lead := TrimStartDecomposes(s[1..]);
      lead := [s[0]] + lead;
    } else {
      lead := "";
    }
  }

  lemma {:induction false} TrimEndDecomposes(s: string) returns (trail: string)
    ensures Blank(trail) && s == TrimEnd(s) + trail
    ensures TrimEnd(s) == "" || !IsSpace(TrimEnd(s)[|TrimEnd(s)| - 1])
  {
    if s != "" && IsSpace(s[|s| - 1]) {
      trail := TrimEndDecomposes(s[..|s| - 1]);
      trail := trail + [s[|s| - 1]];
    } else {
      trail := "";
    }
  }

  /** What `trim` returns has no space at either end, and lacks only blank padding. */
  lemma TrimDecomposes(s: string) returns (lead: string, trail: string)
    ensures Trimmed(Trim(s))
    ensures Blank(lead) && Blank(trail) && s == lead + Trim(s) + trail
  {
    lead := TrimStartDecomposes(s);
    trail := TrimEndDecomposes(TrimStart(s));
    assert Trim(s) != "" ==> Trim(s)[0] == TrimStart(s)[0];
  }

  // ── find, rfind, split, join ──────────────────────────────────────────────────

  /** `sub` occurs in `s` at position `i`. */
  predicate OccursAt(s: string, sub: string, i: nat) {
    i + |sub| <= |s| && s[i..i + |sub|] == sub
  }

  predicate Has(s: string, sub: string) {
    Find(s, sub).Some?
  }

  function FindFrom(s: string, sub: string, i: nat): (r: Option<nat>)
    requires i <= |s| + 1
    ensures r.Some? ==> i <= r.value && OccursAt(s, sub, r.value)
    ensures forall j: nat :: i <= j && (r.Some? ==> j < r.value) ==> !OccursAt(s, sub, j)
    decreases |s| + 1 - i
  {
    if i + |sub| > |s| then None
    else if OccursAt(s, sub, i) then Some(i)
    else FindFrom(s, sub, i + 1)
  }

  /** The leftmost occurrence. */
  function Find(s: string, sub: string): (r: Option<nat>)
    ensures r.Some? ==> OccursAt(s, sub, r.value)
    ensures forall j: nat :: (r.Some? ==> j < r.value) ==> !OccursAt(s, sub, j)
  {
    FindFrom(s, sub, 0)
  }

  /** The leftmost occurrence of a character. */
  function IndexOf(s: string, c: char): (r: Option<nat>)
    ensures r.Some? ==> r.value < |s| && s[r.value] == c
    ensures forall i :: 0 <= i < (if r.Some? then r.value else |s|) ==> s[i] != c
  {
    if s == "" then None
    else if s[0] == c then Some(0)
    else
      match IndexOf(s[1..], c)
      case None => None
      case Some(i) =>
        Some(i + 1)
  }

  /** The rightmost occurrence of a character. */
  function FindLast(s: string, c: char): (r: Option<nat>)
    ensures r.Some? ==> r.value < |s| && s[r.value] == c
    ensures forall i :: (if r.Some? then r.value + 1 else 0) <= i < |s| ==> s[i] != c
  {
    if s == "" then None
    else if s[|s| - 1] == c then Some(|s| - 1)
    else
      FindLast(s[..|s| - 1], c)
  }

  lemma FindUnique(s: string, sub: string, i: nat)
    requires OccursAt(s, sub, i)
    requires forall j: nat :: j < i ==> !OccursAt(s, sub, j)
    ensures Find(s, sub) == Some(i)
  {}

  /** Rust's `split`: cut at every leftmost, non-overlapping occurrence. */
  function Split(s: string, sep: string): (parts: seq<string>)
    requires sep != ""
    ensures |parts| >= 1
    decreases |s|
  {
    match Find(s, sep)
    case None => [s]
    case Some(i) => [s[..i]] + Split(s[i + |sep|..], sep)
  }

  function Join(parts: seq<string>, sep: string): string {
    if parts == [] then ""
    else if |parts| == 1 then parts[0]
    else parts[0] + sep + Join(parts[1..], sep)
  }

  /** Rust's `replace`. */
  function Replace(s: string, from: string, to: string): string
    requires from != ""
  {
    Join(Split(s, from), to)
  }

  /** A part that ends exactly where the separator written after it begins. */
  predicate CutsBefore(part: string, sep: string) {
    Find(part + sep, sep) == Some(|part|)
  }

  lemma FindAfterPart(part: string, sep: string, rest: string)
    requires sep != "" && CutsBefore(part, sep)
    ensures Find(part + sep + rest, sep) == Some(|part|)
  {
    var s := part + sep + rest;
    assert s[|part|..|part| + |sep|] == sep;
    forall j: nat | j < |part| ensures !OccursAt(s, sep, j) {
      assert !OccursAt(part + sep, sep, j);
      assert s[j..j + |sep|] == (part + sep)[j..j + |sep|];
    }
    FindUnique(s, sep, |part|);
  }

  /** Splitting undoes joining, when no part can be mistaken for a separator. */
  lemma {:induction false} SplitJoined(parts: seq<string>, sep: string)
    requires sep != "" && parts != []
    requires forall i :: 0 <= i < |parts| - 1 ==> CutsBefore(parts[i], sep)
    requires !Has(parts[|parts| - 1], sep)
    ensures Split(Join(parts, sep), sep) == parts
  {
    if |parts| == 1 {
    } else {
      var s := Join(parts, sep);
      var rest := Join(parts[1..], sep);
      FindAfterPart(parts[0], sep, rest);
      assert s[..|parts[0]|] == parts[0];
      assert s[|parts[0]| + |sep|..] == rest;
      forall i | 0 <= i < |parts[1..]| - 1 ensures CutsBefore(parts[1..][i], sep) {
        assert parts[1..][i] == parts[i + 1];
      }
      SplitJoined(parts[1..], sep);
    }
  }

  /** Joining undoes splitting, always. */
  lemma {:induction false} JoinSplit(s: string, sep: string)
    requires sep != ""
    ensures Join(Split(s, sep), sep) == s
    decreases |s|
  {
    match Find(s, sep)
    case None =>
    case Some(i) =>
      JoinSplit(s[i + |sep|..], sep);
      assert Split(s, sep)[1..] == Split(s[i + |sep|..], sep);
      assert s == s[..i] + sep + s[i + |sep|..];
  }

  // ── Parts that cut cleanly ────────────────────────────────────────────────────

  /** `x` directly followed by `y` at position `i`. */
  predicate PairAt(s: string, x: char, y: char, i: nat) {
    i + 1 < |s| && s[i] == x && s[i + 1] == y
  }

  /** No `x` directly followed by `y`. */
  ghost predicate Avoids(s: string, x: char, y: char) {
    forall i: nat :: !PairAt(s, x, y, i)
  }

  lemma AvoidsGlue(a: string, b: string, x: char, y: char)
    requires Avoids(a, x, y) && Avoids(b, x, y)
    requires a == "" || b == "" || a[|a| - 1] != x || b[0] != y
    ensures Avoids(a + b, x, y)
  {
    var s := a + b;
    forall i: nat ensures !PairAt(s, x, y, i) {
      assert !PairAt(a, x, y, i);
      if i >= |a| { assert !PairAt(b, x, y, i - |a|); }
    }
  }

  lemma CharCuts(part: string, c: char)
    requires c !in part
    ensures CutsBefore(part, [c]) && !Has(part, [c])
  {
    var s := part + [c];
    forall j: nat | j < |part| ensures !OccursAt(s, [c], j) && !OccursAt(part, [c], j) {
      assert s[j..j + 1] == [part[j]] == part[j..j + 1];
    }
    assert s[|part|..|part| + 1] == [c];
    FindUnique(s, [c], |part|);
  }

  lemma OccursPair(s: string, x: char, y: char, j: nat)
    ensures OccursAt(s, [x, y], j) <==> PairAt(s, x, y, j)
  {
    if j + 1 < |s| {
      assert s[j..j + 2] == [s[j], s[j + 1]];
      assert [s[j], s[j + 1]] == [x, y] <==> s[j] == x && s[j + 1] == y by {
        assert [s[j], s[j + 1]][0] == s[j] && [s[j], s[j + 1]][1] == s[j + 1];
        assert [x, y][0] == x && [x, y][1] == y;
      }
    }
  }

  lemma PairCuts(part: string, x: char, y: char)
    requires Avoids(part, x, y)
    requires x != y || part == "" || part[|part| - 1] != x
    ensures CutsBefore(part, [x, y]) && !Has(part, [x, y])
  {
    var s := part + [x, y];
    forall j: nat ensures OccursAt(s, [x, y], j) <==> PairAt(s, x, y, j) {
      OccursPair(s, x, y, j);
    }
    forall j: nat | j < |part| ensures !PairAt(s, x, y, j) {
      assert !PairAt(part, x, y, j);
    }
    FindUnique(s, [x, y], |part|);
    HasPair(part, x, y);
  }

  lemma HasPair(s: string, x: char, y: char)
    ensures Avoids(s, x, y) <==> !Has(s, [x, y])
  {
    forall j: nat ensures OccursAt(s, [x, y], j) <==> PairAt(s, x, y, j) {
      OccursPair(s, x, y, j);
    }
  }

  /** The first `c` of `before + [c] + after` when `before` has none. */
  lemma {:induction false} IndexOfAt(before: string, c: char, after: string)
    requires c !in before
    ensures IndexOf(before + [c] + after, c) == Some(|before|)
  {
    var s := before + [c] + after;
    if before == "" {
      assert s[0] == c;
    } else {
      assert s[0] == before[0] && s[1..] == before[1..] + [c] + after;
      IndexOfAt(before[1..], c, after);
    }
  }

  /** The last `c` of `before + [c] + after` when `after` has none. */
  lemma {:induction false} FindLastAt(before: string, c: char, after: string)
    requires c !in after
    ensures FindLast(before + [c] + after, c) == Some(|before|)
  {
    var s := before + [c] + after;
    if after == "" {
      assert s[|s| - 1] == c;
    } else {
      var init := after[..|after| - 1];
      assert s[|s| - 1] == after[|after| - 1] && s[..|s| - 1] == before + [c] + init;
      FindLastAt(before, c, init);
    }
  }

  /** No piece of a split contains the separator. */
  lemma {:induction false} SplitPiecesHaveNoSeparator(s: string, sep: string)
    requires sep != ""
    ensures forall i :: 0 <= i < |Split(s, sep)| ==> !Has(Split(s, sep)[i], sep)
    decreases |s|
  {
    match Find(s, sep)
    case None =>
    case Some(i) =>
      SplitPiecesHaveNoSeparator(s[i + |sep|..], sep);
      forall j: nat ensures !OccursAt(s[..i], sep, j) {
        if OccursAt(s[..i], sep, j) {
          assert s[..i][j..j + |sep|] == s[j..j + |sep|];
          assert OccursAt(s, sep, j);
        }
      }
  }
}
