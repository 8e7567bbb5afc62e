/** How often a character occurs in a text, and in the parts a text is made of. */
module Counting {
  import opened Text

  function Count(c: char, s: string): nat {
    if s == "" then 0 else (if s[0] == c then 1 else 0) + Count(c, s[1..])
  }

  function CountSum(c: char, parts: seq<string>): nat {
    if parts == [] then 0 else Count(c, parts[0]) + CountSum(c, parts[1..])
  }

  lemma {:induction false} CountConcat(c: char, a: string, b: string)
    ensures Count(c, a + b) == Count(c, a) + Count(c, b)
  {
    if a == "" {
      assert a + b == b;
    } else {
      assert (a + b)[1..] == a[1..] + b;
      CountConcat(c, a[1..], b);
    }
  }

  lemma {:induction false} CountNone(c: char, s: string)
    requires c !in s
    ensures Count(c, s) == 0
  {
    if s != "" { CountNone(c, s[1..]); }
  }

  lemma {:induction false} CountSumNone(c: char, parts: seq<string>)
    requires forall p :: p in parts ==> c !in p
    ensures CountSum(c, parts) == 0
  {
    if parts != [] {
      CountNone(c, parts[0]);
      CountSumNone(c, parts[1..]);
    }
  }

  lemma CountFramed(c: char, a: string, sep: string, b: string)
    requires c !in sep
    ensures Count(c, a + sep + b) == Count(c, a) + Count(c, b)
  {
    CountNone(c, sep);
    CountConcat(c, a, sep);
    CountConcat(c, a + sep, b);
  }

  /** A separator without the character adds none. */
  lemma {:induction false} CountJoined(c: char, parts: seq<string>, sep: string)
    requires c !in sep
    ensures Count(c, Join(parts, sep)) == CountSum(c, parts)
  {
    if |parts| > 1 {
      CountJoined(c, parts[1..], sep);
      CountFramed(c, parts[0], sep, Join(parts[1..], sep));
    }
  }

  lemma CountTrim(c: char, s: string)
    ensures Count(c, Trim(s)) <= Count(c, s)
    ensures !IsSpace(c) ==> Count(c, Trim(s)) == Count(c, s)
  {
    var lead, trail := TrimDecomposes(s);
    CountConcat(c, lead, Trim(s));
    CountConcat(c, lead + Trim(s), trail);
    if !IsSpace(c) {
      assert c !in lead && c !in trail;
      CountNone(c, lead);
      CountNone(c, trail);
    }
  }

  lemma CountSlices(c: char, s: string, i: nat, j: nat)
    requires i <= j <= |s|
    ensures Count(c, s[..i]) + Count(c, s[j..]) <= Count(c, s)
    ensures Count(c, s[i..j]) <= Count(c, s)
  {
    assert s == s[..i] + s[i..j] + s[j..];
    CountConcat(c, s[..i], s[i..j]);
    CountConcat(c, s[..i] + s[i..j], s[j..]);
  }

  lemma {:induction false} SumOfMore(c: char, xs: seq<string>, ys: seq<string>)
    requires |xs| == |ys| && forall i :: 0 <= i < |xs| ==> Count(c, xs[i]) >= Count(c, ys[i])
    ensures CountSum(c, xs) >= CountSum(c, ys)
    ensures CountSum(c, xs) == CountSum(c, ys) ==> forall i :: 0 <= i < |xs| ==> Count(c, xs[i]) == Count(c, ys[i])
  {
    if xs != [] {
      SumOfMore(c, xs[1..], ys[1..]);
      if CountSum(c, xs) == CountSum(c, ys) {
        forall i | 0 <= i < |xs| ensures Count(c, xs[i]) == Count(c, ys[i]) {
          if i > 0 { assert xs[i] == xs[1..][i - 1] && ys[i] == ys[1..][i - 1]; }
        }
      }
    }
  }
}
