/**
 * The fragment of Go's regexp syntax that the tool-output patterns use: literal
 * characters and the digit class with a repetition count, `\d{min,max}` (max
 * None stands for `\d+`-style unbounded repetition).
 *
 * Matches(p, t) says that the whole of t is in the language of p. A search of
 * text s finds a span [i, e) with Matches(p, s[i..e]); Go reports the leftmost
 * start and, at that start, the match its backtracking order prefers. For a
 * pattern whose only freedom at a fixed start is its final greedy repetition
 * (both patterns here), that preferred match is the longest one, so the search
 * result is the leftmost-longest span.
 */
module Regex {
  import opened Wrappers
  import opened Digits

  datatype Atom = Char(c: char) | Digits(min: nat, max: Option<nat>)

  /** The pattern that matches exactly the text lit. */
  function Literal(lit: string): (p: seq<Atom>)
    ensures |p| == |lit|
    ensures forall k :: 0 <= k < |lit| ==> p[k] == Char(lit[k])
  {
    seq(|lit|, k requires 0 <= k < |lit| => Char(lit[k]))
  }

  ghost predicate Matches(p: seq<Atom>, t: string)
    decreases |p|, 1
  {
    if p == [] then t == []
    else match p[0]
      case Char(c) => |t| > 0 && t[0] == c && Matches(p[1..], t[1..])
      case Digits(lo, hi) => exists n :: RepeatThen(lo, hi, p[1..], t, n)
  }

  /** The repetition takes the first n characters of t, all digits, and rest matches what remains. */
  ghost predicate RepeatThen(lo: nat, hi: Option<nat>, rest: seq<Atom>, t: string, n: int)
    decreases |rest|, 2
  {
    0 <= n <= |t| && lo <= n && (hi.None? || n <= hi.value)
    && AllDigits(t[..n]) && Matches(rest, t[n..])
  }

  ghost predicate MatchSpan(p: seq<Atom>, s: string, i: nat, e: nat) {
    i <= e <= |s| && Matches(p, s[i..e])
  }

  /** [i, e) is the span a leftmost-longest search of s for p reports. */
  ghost predicate LeftmostLongest(p: seq<Atom>, s: string, i: nat, e: nat) {
    && MatchSpan(p, s, i, e)
    && (forall j: nat, f: nat :: j < i ==> !MatchSpan(p, s, j, f))
    && (forall f: nat :: e < f ==> !MatchSpan(p, s, i, f))
  }

  /** A literal prefix consumes exactly its own text. */
  lemma {:induction false} LiteralPrefix(lit: string, rest: seq<Atom>, t: string)
    ensures Matches(Literal(lit) + rest, t) <==>
            |lit| <= |t| && t[..|lit|] == lit && Matches(rest, t[|lit|..])
  {
    var p := Literal(lit) + rest;
    if lit == [] {
      assert p == rest;
      assert t[..0] == lit && t[0..] == t;
    } else {
      assert p[0] == Char(lit[0]);
      assert p[1..] == Literal(lit[1..]) + rest;
      if |t| > 0 {
        LiteralPrefix(lit[1..], rest, t[1..]);
        if |lit| <= |t| {
          assert t[1..][|lit| - 1..] == t[|lit|..];
          assert t[..|lit|] == [t[0]] + t[1..][..|lit| - 1];
          assert lit == [lit[0]] + lit[1..];
        }
      }
    }
  }

  /** The same, for a span [i, e) of a larger text. */
  lemma LiteralPrefixAt(lit: string, rest: seq<Atom>, s: string, i: nat, e: nat)
    requires i <= e <= |s|
    ensures Matches(Literal(lit) + rest, s[i..e]) <==>
            i + |lit| <= e && s[i..i + |lit|] == lit && Matches(rest, s[i + |lit|..e])
  {
    LiteralPrefix(lit, rest, s[i..e]);
    if i + |lit| <= e {
      assert s[i..e][..|lit|] == s[i..i + |lit|];
      assert s[i..e][|lit|..] == s[i + |lit|..e];
    }
  }

  lemma CharStep(c: char, rest: seq<Atom>, u: string)
    ensures Matches([Char(c)] + rest, u) <==> |u| > 0 && u[0] == c && Matches(rest, u[1..])
  {
    assert ([Char(c)] + rest)[0] == Char(c);
    assert ([Char(c)] + rest)[1..] == rest;
  }

  /** A pattern that starts with a digit repetition matches t when some split of t does. */
  lemma DigitsIntro(lo: nat, hi: Option<nat>, rest: seq<Atom>, t: string, n: int)
    requires RepeatThen(lo, hi, rest, t, n)
    ensures Matches([Digits(lo, hi)] + rest, t)
  {
    var p := [Digits(lo, hi)] + rest;
    assert p[0] == Digits(lo, hi);
    assert p[1..] == rest;
    assert RepeatThen(lo, hi, p[1..], t, n);
  }

  /** ... and only then. */
  lemma DigitsElim(lo: nat, hi: Option<nat>, rest: seq<Atom>, t: string)
    requires Matches([Digits(lo, hi)] + rest, t)
    ensures exists n :: RepeatThen(lo, hi, rest, t, n)
  {
    var p := [Digits(lo, hi)] + rest;
    assert p[0] == Digits(lo, hi);
    assert p[1..] == rest;
    var n :| RepeatThen(lo, hi, p[1..], t, n);
    assert RepeatThen(lo, hi, rest, t, n);
  }

  /**
   * A digit repetition followed by a non-digit character can only take the
   * whole run of digits at its start: backtracking into the run never helps.
   */
  lemma DigitsThenChar(lo: nat, hi: Option<nat>, c: char, rest: seq<Atom>, s: string, a: nat, e: nat)
    requires a <= e <= |s|
    requires !IsDigit(c)
    ensures Matches([Digits(lo, hi), Char(c)] + rest, s[a..e]) <==>
            var n := DigitRun(s, a);
            lo <= n && (hi.None? || n <= hi.value) && a + n < e && s[a + n] == c
            && Matches(rest, s[a + n + 1..e])
  {
    assert [Digits(lo, hi), Char(c)] + rest == [Digits(lo, hi)] + ([Char(c)] + rest);
    if Matches([Digits(lo, hi), Char(c)] + rest, s[a..e]) {
      DigitsThenCharTakesRun(lo, hi, c, rest, s, a, e);
    }
    var n := DigitRun(s, a);
    if lo <= n && (hi.None? || n <= hi.value) && a + n < e && s[a + n] == c
       && Matches(rest, s[a + n + 1..e]) {
      var t := s[a..e];
      CharStep(c, rest, t[n..]);
      assert t[n..][1..] == s[a + n + 1..e];
      assert t[..n] == s[a..a + n];
      assert RepeatThen(lo, hi, [Char(c)] + rest, t, n);
      DigitsIntro(lo, hi, [Char(c)] + rest, t, n);
    }
  }

  lemma DigitsThenCharTakesRun(lo: nat, hi: Option<nat>, c: char, rest: seq<Atom>, s: string, a: nat, e: nat)
    requires a <= e <= |s|
    requires !IsDigit(c)
    requires Matches([Digits(lo, hi)] + ([Char(c)] + rest), s[a..e])
    ensures var n := DigitRun(s, a);
            lo <= n && (hi.None? || n <= hi.value) && a + n < e && s[a + n] == c
            && Matches(rest, s[a + n + 1..e])
  {
    var t := s[a..e];
    DigitsElim(lo, hi, [Char(c)] + rest, t);
    var m :| RepeatThen(lo, hi, [Char(c)] + rest, t, m);
    WitnessIsRun(c, rest, s, a, e, m);
  }

  lemma WitnessIsRun(c: char, rest: seq<Atom>, s: string, a: nat, e: nat, m: nat)
    requires a + m <= e <= |s|
    requires !IsDigit(c)
    requires AllDigits(s[a..e][..m]) && Matches([Char(c)] + rest, s[a..e][m..])
    ensures DigitRun(s, a) == m && a + m < e && s[a + m] == c && Matches(rest, s[a + m + 1..e])
  {
    var t := s[a..e];
    CharStep(c, rest, t[m..]);
    assert t[m..][0] == s[a + m];
    assert t[m..][1..] == s[a + m + 1..e];
    assert t[..m] == s[a..a + m];
    DigitRunIsUnique(s, a, m);
  }

  /** A final digit repetition matches a span exactly when the span is digits of an allowed length. */
  lemma DigitsAtEnd(lo: nat, hi: Option<nat>, s: string, a: nat, e: nat)
    requires a <= e <= |s|
    ensures Matches([Digits(lo, hi)], s[a..e]) <==>
            lo <= e - a && (hi.None? || e - a <= hi.value) && e <= a + DigitRun(s, a)
  {
    var t := s[a..e];
    assert [Digits(lo, hi)][0] == Digits(lo, hi);
    assert [Digits(lo, hi)][1..] == [];
    AllDigitsWithinRun(s, a, e);
    assert [Digits(lo, hi)] + [] == [Digits(lo, hi)];
    if Matches([Digits(lo, hi)], t) {
      DigitsElim(lo, hi, [], t);
      var m :| RepeatThen(lo, hi, [], t, m);
      assert m == |t|;
      assert t[..m] == t;
    }
    if lo <= e - a && (hi.None? || e - a <= hi.value) && e <= a + DigitRun(s, a) {
      assert t[..|t|] == t;
      assert t[|t|..] == [];
      assert RepeatThen(lo, hi, [], t, |t|);
      DigitsIntro(lo, hi, [], t, |t|);
    }
  }
}
