/** What making every CRLF a line feed does to a text, character by character. */
module LineEnds {
  import opened Text
  import opened RecipeSpec
  import opened RecipeBook

  /** `Normalise`, from left to right. */
  function Lf(s: string): string {
    if s == "" then ""
    else if |s| >= 2 && s[0] == '\r' && s[1] == '\n' then "\n" + Lf(s[2..])
    else [s[0]] + Lf(s[1..])
  }

  /** The first step: a CRLF at the start, or any other character. */
  lemma LfFirst(s: string)
    requires s != ""
    ensures PairAt(s, '\r', '\n', 0) ==> Lf(s) == "\n" + Lf(s[2..])
    ensures !PairAt(s, '\r', '\n', 0) ==> Lf(s) == [s[0]] + Lf(s[1..])
  {}

  /** Cutting between a CR and a line feed is the only cut that matters. */
  lemma {:induction false} LfConcat(a: string, b: string)
    requires a == "" || b == "" || a[|a| - 1] != '\r' || b[0] != '\n'
    ensures Lf(a + b) == Lf(a) + Lf(b)
  {
    hide Lf;
    if a == "" {
      LfNothing();
      assert a + b == b && Lf(a) + Lf(b) == Lf(b);
    } else {
      var n := if PairAt(a, '\r', '\n', 0) then 2 else 1;
      LfFirst(a);
      LfFirst(a + b);
      assert PairAt(a + b, '\r', '\n', 0) <==> n == 2;
      assert (a + b)[n..] == a[n..] + b;
      LfConcat(a[n..], b);
    }
  }

  lemma LfNothing()
    ensures Lf("") == ""
  {}

  lemma {:induction false} LfKeeps(s: string)
    requires Avoids(s, '\r', '\n')
    ensures Lf(s) == s
  {
    if s != "" {
      assert !PairAt(s, '\r', '\n', 0);
      forall i: nat ensures !PairAt(s[1..], '\r', '\n', i) { assert !PairAt(s, '\r', '\n', i + 1); }
      LfKeeps(s[1..]);
      assert s == [s[0]] + s[1..];
    }
  }

  lemma NormaliseStep(s: string, i: nat)
    requires Find(s, "\r\n") == Some(i)
    ensures i + 2 <= |s| && Normalise(s) == s[..i] + "\n" + Normalise(s[i + 2..])
    ensures s == s[..i] + ("\r\n" + s[i + 2..])
  {
    assert s[i..i + 2] == "\r\n";
    var parts := Split(s[i + 2..], "\r\n");
    assert Split(s, "\r\n") == [s[..i]] + parts;
    assert ([s[..i]] + parts)[1..] == parts;
  }

  lemma LfCrlf(rest: string)
    ensures Lf("\r\n" + rest) == "\n" + Lf(rest)
  {
    var s := "\r\n" + rest;
    assert s[0] == '\r' && s[1] == '\n' && s[2..] == rest;
  }

  lemma {:induction false} NormaliseIsLf(s: string)
    ensures Normalise(s) == Lf(s)
    decreases |s|
  {
    hide Normalise, Lf, Find;
    assert ['\r', '\n'] == "\r\n";
    match Find(s, "\r\n")
    case None =>
      HasPair(s, '\r', '\n');
      LfKeeps(s);
      NormaliseClean(s);
    case Some(i) =>
      var first, rest := s[..i], s[i + 2..];
      NormaliseStep(s, i);
      NormaliseIsLf(rest);
      FirstAvoids(s, i);
      LfKeeps(first);
      LfCrlf(rest);
      LfConcat(first, "\r\n" + rest);
      assert first + ("\n" + Lf(rest)) == first + "\n" + Lf(rest);
  }

  lemma FirstAvoids(s: string, i: nat)
    requires Find(s, "\r\n") == Some(i)
    ensures Avoids(s[..i], '\r', '\n')
  {
    assert ['\r', '\n'] == "\r\n";
    forall j: nat ensures !PairAt(s[..i], '\r', '\n', j) { OccursPair(s, '\r', '\n', j); }
  }

  /** Only CRs are lost, and the ends stay what they are, white space or not. */
  lemma {:induction false} LfChars(s: string)
    ensures forall c :: c in Lf(s) ==> c in s
    ensures forall c :: c in s && c != '\r' ==> c in Lf(s)
  {
    if s == "" {
    } else if |s| >= 2 && s[0] == '\r' && s[1] == '\n' {
      LfChars(s[2..]);
      assert s == [s[0], s[1]] + s[2..];
    } else {
      LfChars(s[1..]);
      assert s == [s[0]] + s[1..];
    }
  }

  lemma {:induction false} LfEnds(s: string)
    requires s != ""
    ensures Lf(s) != "" && Lf(s)[|Lf(s)| - 1] == s[|s| - 1]
    ensures Lf(s)[0] == s[0] || (s[0] == '\r' && Lf(s)[0] == '\n')
  {
    if |s| >= 2 && s[0] == '\r' && s[1] == '\n' {
      if |s| > 2 { LfEnds(s[2..]); }
    } else if |s| > 1 {
      LfEnds(s[1..]);
    }
  }

  lemma LfTrimmed(s: string)
    requires Trimmed(s)
    ensures Trimmed(Lf(s)) && (Lf(s) == "" <==> s == "")
  {
    if s != "" { LfEnds(s); }
  }

  /** No pair arises but one that ends on the line feed. */
  lemma {:induction false} LfAvoids(s: string, x: char, y: char)
    requires Avoids(s, x, y) && y != '\n'
    ensures Avoids(Lf(s), x, y)
  {
    if s != "" {
      var n := if |s| >= 2 && s[0] == '\r' && s[1] == '\n' then 2 else 1;
      var rest := s[n..];
      forall i: nat ensures !PairAt(rest, x, y, i) { assert !PairAt(s, x, y, i + n); }
      LfAvoids(rest, x, y);
      if rest != "" {
        LfEnds(rest);
        assert !PairAt(s, x, y, n - 1);
      }
      forall i: nat ensures !PairAt(Lf(s), x, y, i) {
        if i > 0 { assert !PairAt(Lf(rest), x, y, i - 1); }
      }
    }
  }

  // ── LF CR LF, which becomes a blank line ──────────────────────────────────────

  predicate BreakAt(s: string, i: nat) {
    i + 2 < |s| && s[i] == '\n' && s[i + 1] == '\r' && s[i + 2] == '\n'
  }

  /** No LF CR LF inside. */
  ghost predicate Unbroken(s: string) {
    forall i: nat :: !BreakAt(s, i)
  }

  lemma {:induction false} LfUnbroken(s: string)
    requires Avoids(s, '\n', '\n') && Unbroken(s)
    ensures Avoids(Lf(s), '\n', '\n')
  {
    if s != "" {
      var n := if |s| >= 2 && s[0] == '\r' && s[1] == '\n' then 2 else 1;
      var rest := s[n..];
      forall i: nat ensures !PairAt(rest, '\n', '\n', i) { assert !PairAt(s, '\n', '\n', i + n); }
      forall i: nat ensures !BreakAt(rest, i) { assert !BreakAt(s, i + n); }
      LfUnbroken(rest);
      if rest != "" {
        LfEnds(rest);
        assert !PairAt(s, '\n', '\n', n - 1) && !BreakAt(s, n - 1);
        LfStart(rest);
      }
      forall i: nat ensures !PairAt(Lf(s), '\n', '\n', i) {
        if i > 0 { assert !PairAt(Lf(rest), '\n', '\n', i - 1); }
      }
    }
  }

  lemma LfStart(s: string)
    requires s != ""
    ensures Lf(s) != "" && (Lf(s)[0] == '\n' ==> s[0] == '\n' || (|s| >= 2 && s[0] == '\r' && s[1] == '\n'))
  {}

  predicate LineBreak(c: char) {
    c == '\n' || c == '\r'
  }

  lemma UnbrokenGlue(a: string, b: string)
    requires Unbroken(a) && Unbroken(b)
    requires a == "" || b == "" || !LineBreak(a[|a| - 1]) || !LineBreak(b[0])
    ensures Unbroken(a + b)
  {
    var s := a + b;
    forall i: nat ensures !BreakAt(s, i) {
      assert !BreakAt(a, i);
      if i >= |a| { assert !BreakAt(b, i - |a|); }
    }
  }

  lemma UnbrokenWithout(s: string)
    requires '\r' !in s || '\n' !in s
    ensures Unbroken(s)
  {}

  lemma UnbrokenBetween(a: string, sep: string, b: string)
    requires Unbroken(a) && Unbroken(b) && sep != "" && '\r' !in sep && '\n' !in sep
    ensures Unbroken(a + sep + b)
  {
    UnbrokenWithout(sep);
    UnbrokenGlue(a, sep);
    UnbrokenGlue(a + sep, b);
  }

  lemma {:induction false} UnbrokenJoin(parts: seq<string>, sep: string)
    requires sep != "" && '\r' !in sep && '\n' !in sep
    requires forall i :: 0 <= i < |parts| ==> Unbroken(parts[i])
    ensures Unbroken(Join(parts, sep))
  {
    if |parts| > 1 {
      UnbrokenJoin(parts[1..], sep);
      UnbrokenBetween(parts[0], sep, Join(parts[1..], sep));
    }
  }

  function LfAll(parts: seq<string>): seq<string> {
    seq(|parts|, i requires 0 <= i < |parts| => Lf(parts[i]))
  }

  lemma LfBetween(a: string, sep: string, b: string)
    requires sep != "" && '\r' !in sep && '\n' !in sep
    ensures Lf(a + sep + b) == Lf(a) + sep + Lf(b)
  {
    LfKeeps(sep);
    LfConcat(a, sep);
    LfConcat(a + sep, b);
  }

  lemma {:induction false} LfJoin(parts: seq<string>, sep: string)
    requires sep != "" && '\r' !in sep && '\n' !in sep
    ensures Lf(Join(parts, sep)) == Join(LfAll(parts), sep)
  {
    if |parts| > 1 {
      LfJoin(parts[1..], sep);
      LfBetween(parts[0], sep, Join(parts[1..], sep));
      assert LfAll(parts)[1..] == LfAll(parts[1..]);
    }
  }
}
