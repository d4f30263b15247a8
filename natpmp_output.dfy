/**
 * The two extractors over the combined output of `natpmpc` (main.go:154-176):
 * the public port from `Mapped public port (\d+)` and the public IP address
 * from `Public IP address : (\d{1,3}\.\d{1,3}\.\d{1,3}\.\d{1,3})`.
 *
 * Each parser is a leftmost search over the output (FirstMatch) with a
 * deterministic matcher at each position; the lemmas at the end prove that
 * this computes the span a leftmost-longest regular-expression search reports
 * (Regex.LeftmostLongest), so that the captured group is the text after the
 * label in that span.
 */
module NatpmpOutput {
  import opened Wrappers
  import opened Digits
  import opened Regex

  const PortLabel: string := "Mapped public port "
  const IPLabel: string := "Public IP address : "

  /** The largest value `strconv.Atoi` returns, its `int` being 64 bits wide. */
  const MaxInt: nat := 0x7fff_ffff_ffff_ffff

  /** `\d{1,3}` */
  const Octet: Atom := Digits(1, Some(3))

  /** `Mapped public port (\d+)` */
  const PortPattern: seq<Atom> := Literal(PortLabel) + [Digits(1, None)]

  /** `\d{1,3}\.\d{1,3}\.\d{1,3}\.\d{1,3}` */
  const QuadPattern: seq<Atom> := [Octet, Char('.'), Octet, Char('.'), Octet, Char('.'), Octet]

  /** `Public IP address : (\d{1,3}\.\d{1,3}\.\d{1,3}\.\d{1,3})` */
  const IPPattern: seq<Atom> := Literal(IPLabel) + QuadPattern

  /**
   * NoPortMatch: "failed to parse public port from output";
   * PortOutOfRange: "invalid port number" (the range error of `strconv.Atoi`);
   * NoIPMatch: "failed to parse public IP address from output".
   */
  datatype ParseError = NoPortMatch | PortOutOfRange | NoIPMatch

  predicate HasLabelAt(s: string, lit: string, i: nat) {
    i + |lit| <= |s| && s[i..i + |lit|] == lit
  }

  /** The least position j in [i, n] that satisfies at, if there is one. */
  function FirstMatch(i: nat, n: nat, at: nat -> bool): (r: Option<nat>)
    ensures r.Some? ==> i <= r.value <= n && at(r.value)
    ensures r.Some? ==> forall j :: i <= j < r.value ==> !at(j)
    ensures r.None? ==> forall j :: i <= j <= n ==> !at(j)
    decreases n + 1 - i
  {
    if i > n then None
    else if at(i) then Some(i)
    else FirstMatch(i + 1, n, at)
  }

  // ---------------------------------------------------------------- port

  /** The port pattern can match starting at i: the label, then at least one digit. */
  predicate PortAt(s: string, i: nat) {
    HasLabelAt(s, PortLabel, i) && i + |PortLabel| < |s| && IsDigit(s[i + |PortLabel|])
  }

  /** Where the greedy `\d+` stops: the end of the digit run after the label. */
  function PortEnd(s: string, i: nat): (e: nat)
    requires PortAt(s, i)
    ensures i + |PortLabel| < e <= |s|
    ensures AllDigits(s[i + |PortLabel|..e])
  {
    var q := i + |PortLabel|;
    AllDigitsWithinRun(s, q, q + DigitRun(s, q));
    q + DigitRun(s, q)
  }

  /** The leftmost position where the port pattern matches. */
  function FirstPortAt(s: string): (r: Option<nat>)
    ensures r.Some? ==> PortAt(s, r.value) && forall j: nat :: j < r.value ==> !PortAt(s, j)
    ensures r.None? ==> forall j: nat :: !PortAt(s, j)
  {
    var at := (j: nat) => PortAt(s, j);
    var r := FirstMatch(0, |s|, at);
    assert r.Some? ==> forall j: nat :: j < r.value ==> !PortAt(s, j) by {
      if r.Some? {
        forall j: nat | j < r.value ensures !PortAt(s, j) { assert !at(j); }
      }
    }
    assert r.None? ==> forall j: nat :: !PortAt(s, j) by {
      if r.None? {
        forall j: nat ensures !PortAt(s, j) {
          if j <= |s| { assert !at(j); }
        }
      }
    }
    r
  }

  /**
   * `strconv.Atoi` on a non-empty run of ASCII digits: its value, or the range
   * error once the value is beyond a 64-bit `int`.
   */
  function Atoi(ds: string): (r: Result<nat, ParseError>)
    requires |ds| >= 1 && AllDigits(ds)
    ensures r.Ok? ==> r.value == DecimalValue(ds) && r.value <= MaxInt
    ensures r.Err? ==> r.error == PortOutOfRange && DecimalValue(ds) > MaxInt
  {
    var value := DecimalValue(ds);
    if value <= MaxInt then Ok(value) else Err(PortOutOfRange)
  }

  function ParsePublicPort(output: string): (r: Result<nat, ParseError>)
    ensures r.Ok? ==> r.value <= MaxInt
    ensures r.Err? ==> r.error == NoPortMatch || r.error == PortOutOfRange
  {
    match FirstPortAt(output)
    case None => Err(NoPortMatch)
    case Some(i) =>
      Atoi(output[i + |PortLabel|..PortEnd(output, i)])
  }

  // ------------------------------------------------------------------ IP

  /** After one to three digits and a dot starting at a: the position after the dot. */
  function OctetDotEnd(s: string, a: nat): (r: Option<nat>)
    requires a <= |s|
    ensures r.Some? ==> a + 2 <= r.value <= |s|
  {
    var n := DigitRun(s, a);
    if 1 <= n <= 3 && a + n < |s| && s[a + n] == '.' then Some(a + n + 1) else None
  }

  function Min(x: nat, y: nat): nat {
    if x <= y then x else y
  }

  /**
   * Where the greedy dotted quad starting at q ends: three dot-terminated
   * groups, each a whole digit run, then the first (up to) three digits of
   * the digit run that follows.
   */
  function QuadEnd(s: string, q: nat): (r: Option<nat>)
    requires q <= |s|
    ensures r.Some? ==> q + 7 <= r.value <= |s|
  {
    match OctetDotEnd(s, q)
    case None => None
    case Some(q2) =>
      match OctetDotEnd(s, q2)
      case None => None
      case Some(q3) =>
        match OctetDotEnd(s, q3)
        case None => None
        case Some(q4) =>
          var n := DigitRun(s, q4);
          if n == 0 then None else Some(q4 + Min(n, 3))
  }

  /** The IP pattern can match starting at i. */
  predicate IPAt(s: string, i: nat) {
    HasLabelAt(s, IPLabel, i) && QuadEnd(s, i + |IPLabel|).Some?
  }

  /** Where the IP address match starting at i ends. */
  function IPEnd(s: string, i: nat): (e: nat)
    requires IPAt(s, i)
    ensures i + |IPLabel| + 7 <= e <= |s|
  {
    QuadEnd(s, i + |IPLabel|).value
  }

  /** The leftmost position where the IP pattern matches. */
  function FirstIPAt(s: string): (r: Option<nat>)
    ensures r.Some? ==> IPAt(s, r.value) && forall j: nat :: j < r.value ==> !IPAt(s, j)
    ensures r.None? ==> forall j: nat :: !IPAt(s, j)
  {
    var at := (j: nat) => IPAt(s, j);
    var r := FirstMatch(0, |s|, at);
    assert r.Some? ==> forall j: nat :: j < r.value ==> !IPAt(s, j) by {
      if r.Some? {
        forall j: nat | j < r.value ensures !IPAt(s, j) { assert !at(j); }
      }
    }
    assert r.None? ==> forall j: nat :: !IPAt(s, j) by {
      if r.None? {
        forall j: nat ensures !IPAt(s, j) {
          if j <= |s| { assert !at(j); }
        }
      }
    }
    r
  }

  function ParsePublicIP(output: string): (r: Result<string, ParseError>)
    ensures r.Err? ==> r.error == NoIPMatch
  {
    match FirstIPAt(output)
    case None => Err(NoIPMatch)
    case Some(i) => Ok(output[i + |IPLabel|..IPEnd(output, i)])
  }

  // --------------------------------------- agreement with the regular expressions

  lemma PortSpanSound(s: string, i: nat)
    ensures PortAt(s, i) ==> MatchSpan(PortPattern, s, i, PortEnd(s, i))
  {
    if PortAt(s, i) {
      var e := PortEnd(s, i);
      LiteralPrefixAt(PortLabel, [Digits(1, None)], s, i, e);
      DigitsAtEnd(1, None, s, i + |PortLabel|, e);
    }
  }

  lemma PortSpanComplete(s: string, i: nat, e: nat)
    ensures MatchSpan(PortPattern, s, i, e) ==> PortAt(s, i) && e <= PortEnd(s, i)
  {
    if i <= e <= |s| {
      LiteralPrefixAt(PortLabel, [Digits(1, None)], s, i, e);
      if i + |PortLabel| <= e {
        DigitsAtEnd(1, None, s, i + |PortLabel|, e);
      }
    }
  }

  /** One `\d{1,3}\.` group of the quad: it takes the whole digit run and the dot after it. */
  lemma OctetDotStep(rest: seq<Atom>, s: string, a: nat, e: nat)
    requires a <= e <= |s|
    ensures Matches([Octet, Char('.')] + rest, s[a..e]) <==>
            OctetDotEnd(s, a).Some? && OctetDotEnd(s, a).value <= e
            && Matches(rest, s[OctetDotEnd(s, a).value..e])
  {
    DigitsThenChar(1, Some(3), '.', rest, s, a, e);
  }

  /** The final `\d{1,3}` group: up to three digits of the run. */
  lemma LastOctetStep(s: string, a: nat, e: nat)
    requires a <= e <= |s|
    ensures Matches([Octet], s[a..e]) <==> a + 1 <= e <= a + Min(DigitRun(s, a), 3)
  {
    DigitsAtEnd(1, Some(3), s, a, e);
  }

  const Tail3: seq<Atom> := [Octet]
  const Tail2: seq<Atom> := [Octet, Char('.')] + Tail3
  const Tail1: seq<Atom> := [Octet, Char('.')] + Tail2

  lemma QuadPatternShape()
    ensures QuadPattern == [Octet, Char('.')] + Tail1
  {
  }

  lemma QuadSound(s: string, q: nat)
    requires q <= |s|
    ensures QuadEnd(s, q).Some? ==> Matches(QuadPattern, s[q..QuadEnd(s, q).value])
  {
    if QuadEnd(s, q).Some? {
      var e := QuadEnd(s, q).value;
      var q2 := OctetDotEnd(s, q).value;
      var q3 := OctetDotEnd(s, q2).value;
      var q4 := OctetDotEnd(s, q3).value;
      LastOctetStep(s, q4, e);
      OctetDotStep(Tail3, s, q3, e);
      OctetDotStep(Tail2, s, q2, e);
      OctetDotStep(Tail1, s, q, e);
      QuadPatternShape();
    }
  }

  lemma QuadComplete(s: string, q: nat, e: nat)
    requires q <= e <= |s|
    ensures Matches(QuadPattern, s[q..e]) ==> QuadEnd(s, q).Some? && e <= QuadEnd(s, q).value
  {
    QuadPatternShape();
    if Matches(QuadPattern, s[q..e]) {
      OctetDotStep(Tail1, s, q, e);
      var q2 := OctetDotEnd(s, q).value;
      OctetDotStep(Tail2, s, q2, e);
      var q3 := OctetDotEnd(s, q2).value;
      OctetDotStep(Tail3, s, q3, e);
      var q4 := OctetDotEnd(s, q3).value;
      LastOctetStep(s, q4, e);
    }
  }

  lemma IPSpanSound(s: string, i: nat)
    ensures IPAt(s, i) ==> MatchSpan(IPPattern, s, i, IPEnd(s, i))
  {
    if IPAt(s, i) {
      LiteralPrefixAt(IPLabel, QuadPattern, s, i, IPEnd(s, i));
      QuadSound(s, i + |IPLabel|);
    }
  }

  lemma IPSpanComplete(s: string, i: nat, e: nat)
    ensures MatchSpan(IPPattern, s, i, e) ==> IPAt(s, i) && e <= IPEnd(s, i)
  {
    if i <= e <= |s| {
      LiteralPrefixAt(IPLabel, QuadPattern, s, i, e);
      if i + |IPLabel| <= e {
        QuadComplete(s, i + |IPLabel|, e);
      }
    }
  }

  // -------------------------------------------- the parsers are leftmost-longest searches

  /**
   * When the port pattern's leftmost-longest match is [i, e), the port parser
   * converts exactly the digits of that match and fails only if they exceed
   * the range of `strconv.Atoi`.
   */
  lemma ParsePublicPortIsLeftmostLongest(s: string, i: nat, e: nat)
    requires LeftmostLongest(PortPattern, s, i, e)
    ensures i + |PortLabel| < e <= |s| && AllDigits(s[i + |PortLabel|..e])
    ensures ParsePublicPort(s) == Atoi(s[i + |PortLabel|..e])
  {
    PortSpanComplete(s, i, e);
    PortSpanSound(s, i);
    forall j: nat | j < i ensures !PortAt(s, j) {
      PortSpanSound(s, j);
    }
    assert FirstPortAt(s) == Some(i);
  }

  /** The port parser reports no match exactly when the pattern matches nowhere; otherwise a leftmost-longest match exists. */
  lemma ParsePublicPortNoMatch(s: string)
    ensures ParsePublicPort(s) == Err(NoPortMatch) <==>
            forall i: nat, e: nat :: !MatchSpan(PortPattern, s, i, e)
    ensures ParsePublicPort(s) != Err(NoPortMatch) ==>
            exists i: nat, e: nat :: LeftmostLongest(PortPattern, s, i, e)
  {
    forall i: nat, e: nat | MatchSpan(PortPattern, s, i, e) ensures PortAt(s, i) {
      PortSpanComplete(s, i, e);
    }
    if ParsePublicPort(s) != Err(NoPortMatch) {
      var i := FirstPortAt(s).value;
      var e := PortEnd(s, i);
      PortSpanSound(s, i);
      forall j: nat, f: nat | j < i ensures !MatchSpan(PortPattern, s, j, f) {
        PortSpanComplete(s, j, f);
      }
      forall f: nat | e < f ensures !MatchSpan(PortPattern, s, i, f) {
        PortSpanComplete(s, i, f);
      }
      assert LeftmostLongest(PortPattern, s, i, e);
    }
  }

  /** When the IP pattern's leftmost-longest match is [i, e), the IP parser returns the text after the label in it. */
  lemma ParsePublicIPIsLeftmostLongest(s: string, i: nat, e: nat)
    requires LeftmostLongest(IPPattern, s, i, e)
    ensures i + |IPLabel| <= e <= |s|
    ensures ParsePublicIP(s) == Ok(s[i + |IPLabel|..e])
  {
    IPLeftmostIs(s, i, e);
    FirstIPIs(s, i);
    ParsePublicIPAt(s, i, e);
  }

  /** The leftmost-longest span of the IP pattern is a match of IPAt, ends at IPEnd, and no match of IPAt precedes it. */
  lemma IPLeftmostIs(s: string, i: nat, e: nat)
    requires LeftmostLongest(IPPattern, s, i, e)
    ensures IPAt(s, i) && IPEnd(s, i) == e
    ensures forall j: nat :: j < i ==> !IPAt(s, j)
  {
    IPSpanComplete(s, i, e);
    IPSpanSound(s, i);
    forall j: nat | j < i ensures !IPAt(s, j) {
      IPSpanSound(s, j);
    }
  }

  /** A match at i with no match before it is the leftmost match. */
  lemma FirstIPIs(s: string, i: nat)
    requires IPAt(s, i)
    requires forall j: nat :: j < i ==> !IPAt(s, j)
    ensures FirstIPAt(s) == Some(i)
  {
  }

  /** The IP parser returns the quad of the leftmost match. */
  lemma ParsePublicIPAt(s: string, i: nat, e: nat)
    requires FirstIPAt(s) == Some(i) && IPEnd(s, i) == e
    ensures ParsePublicIP(s) == Ok(s[i + |IPLabel|..e])
  {
  }

  /** The IP parser fails exactly when the pattern matches nowhere; otherwise a leftmost-longest match exists. */
  lemma ParsePublicIPNoMatch(s: string)
    ensures ParsePublicIP(s) == Err(NoIPMatch) <==>
            forall i: nat, e: nat :: !MatchSpan(IPPattern, s, i, e)
    ensures ParsePublicIP(s).Ok? ==>
            exists i: nat, e: nat :: LeftmostLongest(IPPattern, s, i, e)
  {
    forall i: nat, e: nat | MatchSpan(IPPattern, s, i, e) ensures IPAt(s, i) {
      IPSpanComplete(s, i, e);
    }
    if ParsePublicIP(s).Ok? {
      var i := FirstIPAt(s).value;
      var e := IPEnd(s, i);
      IPSpanSound(s, i);
      forall j: nat, f: nat | j < i ensures !MatchSpan(IPPattern, s, j, f) {
        IPSpanComplete(s, j, f);
      }
      forall f: nat | e < f ensures !MatchSpan(IPPattern, s, i, f) {
        IPSpanComplete(s, i, f);
      }
      assert LeftmostLongest(IPPattern, s, i, e);
    }
  }

  // ------------------------------------------------------------ what the results look like

  /** The dot-separated fields of t, as `strings.Split(t, ".")` would give them. */
  function Fields(t: string): (r: seq<string>)
    ensures |r| >= 1
    decreases |t|
  {
    if t == [] then [[]]
    else
      var r := Fields(t[1..]);
      if t[0] == '.' then [[]] + r else [[t[0]] + r[0]] + r[1..]
  }

  /** Exactly three dots, and one to three digits in each of the four fields. */
  predicate IsDottedQuad(t: string) {
    var f := Fields(t);
    |f| == 4 && forall k :: 0 <= k < 4 ==> 1 <= |f[k]| <= 3 && AllDigits(f[k])
  }

  lemma {:induction false} FieldsOfDigits(g: string)
    requires AllDigits(g)
    ensures Fields(g) == [g]
    decreases |g|
  {
    if g != [] {
      FieldsOfDigits(g[1..]);
      assert [g[0]] + g[1..] == g;
    }
  }

  lemma {:induction false} FieldsAfterDigits(g: string, rest: string)
    requires AllDigits(g)
    ensures Fields(g + "." + rest) == [g] + Fields(rest)
    decreases |g|
  {
    var t := g + "." + rest;
    if g == [] {
      assert t[0] == '.' && t[1..] == rest;
    } else {
      assert t[0] == g[0];
      assert t[1..] == g[1..] + "." + rest;
      FieldsAfterDigits(g[1..], rest);
      assert [g[0]] + g[1..] == g;
    }
  }

  /** A dot-terminated group of the quad, from a to b, contributes one field of one to three digits. */
  lemma GroupField(s: string, a: nat, b: nat, e: nat)
    requires a <= |s| && OctetDotEnd(s, a) == Some(b) && b <= e <= |s|
    ensures 1 <= |s[a..b - 1]| <= 3 && AllDigits(s[a..b - 1])
    ensures Fields(s[a..e]) == [s[a..b - 1]] + Fields(s[b..e])
  {
    AllDigitsWithinRun(s, a, b - 1);
    assert s[a..e] == s[a..b - 1] + "." + s[b..e];
    FieldsAfterDigits(s[a..b - 1], s[b..e]);
  }

  /** The last group of the quad is one field of one to three digits. */
  lemma LastField(s: string, a: nat, e: nat)
    requires a + 1 <= e <= |s| && e <= a + Min(DigitRun(s, a), 3)
    ensures 1 <= |s[a..e]| <= 3 && AllDigits(s[a..e])
    ensures Fields(s[a..e]) == [s[a..e]]
  {
    AllDigitsWithinRun(s, a, e);
    FieldsOfDigits(s[a..e]);
  }

  /** Four fields of one to three digits each make a dotted quad. */
  lemma FourFields(t: string, f1: string, f2: string, f3: string, f4: string)
    requires Fields(t) == [f1] + ([f2] + ([f3] + [f4]))
    requires 1 <= |f1| <= 3 && AllDigits(f1) && 1 <= |f2| <= 3 && AllDigits(f2)
    requires 1 <= |f3| <= 3 && AllDigits(f3) && 1 <= |f4| <= 3 && AllDigits(f4)
    ensures IsDottedQuad(t)
  {
    var f := Fields(t);
    assert f[0] == f1 && f[1] == f2 && f[2] == f3 && f[3] == f4;
  }

  lemma QuadFields(s: string, q: nat)
    requires q <= |s| && QuadEnd(s, q).Some?
    ensures IsDottedQuad(s[q..QuadEnd(s, q).value])
  {
    var e := QuadEnd(s, q).value;
    var q2 := OctetDotEnd(s, q).value;
    var q3 := OctetDotEnd(s, q2).value;
    var q4 := OctetDotEnd(s, q3).value;
    GroupField(s, q, q2, e);
    GroupField(s, q2, q3, e);
    GroupField(s, q3, q4, e);
    LastField(s, q4, e);
    FourFields(s[q..e], s[q..q2 - 1], s[q2..q3 - 1], s[q3..q4 - 1], s[q4..e]);
  }

  /**
   * Every address the IP parser returns has exactly three dots and one to three
   * digits in each group; nothing checks that a group is at most 255.
   */
  lemma ParsedIPIsDottedQuad(s: string)
    ensures ParsePublicIP(s).Ok? ==> IsDottedQuad(ParsePublicIP(s).value)
  {
    if ParsePublicIP(s).Ok? {
      QuadFields(s, FirstIPAt(s).value + |IPLabel|);
    }
  }

  /**
   * The port parser on output whose first occurrence of the label is followed
   * by the digit run ds: it returns the value of ds, leading zeros and all,
   * unless that value is beyond the range of `strconv.Atoi`. The bound 65535
   * is not checked.
   */
  lemma ParsePublicPortReadsDigits(output: string, pre: string, ds: string, post: string)
    requires output == pre + PortLabel + ds + post
    requires 1 <= |ds| && AllDigits(ds)
    requires !StartsWithDigit(post)
    requires forall j: nat :: j < |pre| ==> !HasLabelAt(output, PortLabel, j)
    ensures ParsePublicPort(output) ==
              Atoi(ds)
  {
    ThreePartLayout(output, pre, PortLabel, ds, post);
    DigitRunIs(output, |pre| + |PortLabel|, ds);
    PortReadAt(output, |pre|, ds);
  }

  /** Where the parts of s == a + b + c + d sit. */
  lemma ThreePartLayout(s: string, a: string, b: string, c: string, d: string)
    requires s == a + b + c + d
    ensures |s| == |a| + |b| + |c| + |d|
    ensures s[|a|..|a| + |b|] == b && s[|a| + |b|..|a| + |b| + |c|] == c
    ensures s[|a| + |b|..] == c + d
    ensures d != [] ==> s[|a| + |b| + |c|] == d[0]
  {
    assert s[|a| + |b|..|a| + |b| + |c|] == c;
    assert s[|a| + |b|..] == c + d;
  }

  /** ds at position q of s, and no digit right after it: ds is the whole digit run at q. */
  lemma DigitRunIs(s: string, q: nat, ds: string)
    requires q + |ds| <= |s| && s[q..q + |ds|] == ds && AllDigits(ds)
    requires q + |ds| == |s| || !IsDigit(s[q + |ds|])
    ensures DigitRun(s, q) == |ds|
  {
    forall k | q <= k < q + |ds| ensures IsDigit(s[k]) {
      assert s[k] == s[q..q + |ds|][k - q];
    }
    DigitRunIsUnique(s, q, |ds|);
  }

  /** A match at i with no label before it is the leftmost match. */
  lemma FirstPortIs(s: string, i: nat)
    requires PortAt(s, i)
    requires forall j: nat :: j < i ==> !HasLabelAt(s, PortLabel, j)
    ensures FirstPortAt(s) == Some(i)
  {
  }

  /** The label at i, then the whole digit run ds, and no earlier label: the port parser reads ds. */
  lemma PortReadAt(s: string, i: nat, ds: string)
    requires i + |PortLabel| + |ds| <= |s|
    requires s[i..i + |PortLabel|] == PortLabel
    requires s[i + |PortLabel|..i + |PortLabel| + |ds|] == ds && 1 <= |ds| && AllDigits(ds)
    requires DigitRun(s, i + |PortLabel|) == |ds|
    requires forall j: nat :: j < i ==> !HasLabelAt(s, PortLabel, j)
    ensures ParsePublicPort(s) ==
              Atoi(ds)
  {
    assert s[i + |PortLabel|] == ds[0];
    FirstPortIs(s, i);
    ParsePublicPortAt(s, i);
  }

  /** The port parser reads the digit run of the leftmost match. */
  lemma ParsePublicPortAt(s: string, i: nat)
    requires FirstPortAt(s) == Some(i)
    ensures ParsePublicPort(s) == Atoi(s[i + |PortLabel|..PortEnd(s, i)])
  {
  }

  /** Reading back a port as `natpmpc` prints it gives that port. */
  lemma ParsePublicPortReadsPrintedPort(output: string, pre: string, n: nat, post: string)
    requires output == pre + PortLabel + Decimal(n) + post
    requires !StartsWithDigit(post)
    requires forall j: nat :: j < |pre| ==> !HasLabelAt(output, PortLabel, j)
    ensures ParsePublicPort(output) == if n <= MaxInt then Ok(n) else Err(PortOutOfRange)
  {
    ParsePublicPortReadsDigits(output, pre, Decimal(n), post);
    DecimalValueOfDecimal(n);
  }

  /** A digit run of at most 18 digits always fits, so the range error needs at least 19 digits. */
  lemma ShortPortRunsFit(s: string, i: nat, e: nat)
    requires LeftmostLongest(PortPattern, s, i, e)
    requires e <= i + |PortLabel| + 18
    ensures ParsePublicPort(s).Ok?
  {
    ParsePublicPortIsLeftmostLongest(s, i, e);
    var ds := s[i + |PortLabel|..e];
    DecimalValueBound(ds);
    Pow10Monotone(|ds|, 18);
    EighteenDigitsFit();
  }

  /** Every value of at most 18 digits is within the range of `strconv.Atoi`. */
  lemma EighteenDigitsFit()
    ensures Pow10(18) <= MaxInt
  {
    assert Pow10(6) == 1_000_000;
    assert Pow10(12) == 1_000_000_000_000;
    assert Pow10(18) == 1_000_000_000_000_000_000;
  }

  /** A group of one to three digits from a, followed by a dot: the next group starts at b. */
  lemma GroupAt(s: string, a: nat, b: nat, g: string)
    requires b == a + |g| + 1 <= |s| && s[a..b - 1] == g && s[b - 1] == '.'
    requires 1 <= |g| <= 3 && AllDigits(g)
    ensures OctetDotEnd(s, a) == Some(b)
  {
    forall k | a <= k < a + |g| ensures IsDigit(s[k]) {
      assert s[k] == s[a..b - 1][k - a];
    }
    DigitRunIsUnique(s, a, |g|);
  }

  /** The last group at position a of s: the parser keeps its (at most three) digits. */
  lemma LastGroupAt(s: string, a: nat, e: nat, g: string)
    requires e == a + |g| <= |s| && s[a..e] == g
    requires 1 <= |g| <= 3 && AllDigits(g)
    requires |g| == 3 || e == |s| || !IsDigit(s[e])
    ensures DigitRun(s, a) >= 1 && a + Min(DigitRun(s, a), 3) == e
  {
    forall k | a <= k < e ensures IsDigit(s[k]) {
      assert s[k] == s[a..e][k - a];
    }
    if e == |s| || !IsDigit(s[e]) {
      DigitRunIsUnique(s, a, |g|);
    }
  }

  /** Three dot-terminated groups and a non-empty digit run after them make a quad. */
  lemma QuadEndFrom(s: string, q: nat, q2: nat, q3: nat, q4: nat, e: nat)
    requires q <= |s|
    requires OctetDotEnd(s, q) == Some(q2) && q2 <= |s| && OctetDotEnd(s, q2) == Some(q3)
    requires q3 <= |s| && OctetDotEnd(s, q3) == Some(q4) && q4 <= |s| && DigitRun(s, q4) >= 1
    requires e == q4 + Min(DigitRun(s, q4), 3)
    ensures QuadEnd(s, q) == Some(e)
  {
  }

  /** The text the IP parser captures for groups g1..g4. */
  function Quad(g1: string, g2: string, g3: string, g4: string): string {
    g1 + "." + g2 + "." + g3 + "." + g4
  }

  /** Where each group and dot of Quad(g1, g2, g3, g4) + post sits. */
  lemma QuadLayout(t: string, g1: string, g2: string, g3: string, g4: string, post: string)
    requires t == Quad(g1, g2, g3, g4) + post
    ensures |t| == |g1| + |g2| + |g3| + |g4| + 3 + |post|
    ensures t[..|g1|] == g1 && t[|g1|] == '.'
    ensures t[|g1| + 1..|g1| + 1 + |g2|] == g2 && t[|g1| + 1 + |g2|] == '.'
    ensures t[|g1| + |g2| + 2..|g1| + |g2| + 2 + |g3|] == g3 && t[|g1| + |g2| + 2 + |g3|] == '.'
    ensures t[|g1| + |g2| + |g3| + 3..|g1| + |g2| + |g3| + 3 + |g4|] == g4
    ensures t[|g1| + |g2| + |g3| + |g4| + 3..] == post
  {
    var u := g1 + "." + g2 + "." + g3 + "." + g4;
    assert t == u + post;
    assert t[..|u|] == u;
    assert t[|u|..] == post;
  }

  /** A slice of s[q..] is a slice of s. */
  lemma SliceShift(s: string, q: nat, a: nat, b: nat)
    requires q <= |s| && a <= b <= |s| - q
    ensures s[q..][a..b] == s[q + a..q + b]
  {
  }

  /** Where each group and dot of s[q..] == Quad(g1, g2, g3, g4) + post sits in s: the groups start at q, q2, q3, q4 and end at e. */
  lemma QuadPositions(s: string, q: nat, q2: nat, q3: nat, q4: nat, e: nat,
                      g1: string, g2: string, g3: string, g4: string, post: string)
    requires q <= |s| && s[q..] == Quad(g1, g2, g3, g4) + post
    requires q2 == q + |g1| + 1 && q3 == q2 + |g2| + 1 && q4 == q3 + |g3| + 1 && e == q4 + |g4|
    ensures e + |post| == |s|
    ensures s[q..q2 - 1] == g1 && s[q2 - 1] == '.'
    ensures s[q2..q3 - 1] == g2 && s[q3 - 1] == '.'
    ensures s[q3..q4 - 1] == g3 && s[q4 - 1] == '.'
    ensures s[q4..e] == g4
    ensures post != [] ==> s[e] == post[0]
  {
    var t := s[q..];
    QuadLayout(t, g1, g2, g3, g4, post);
    SliceShift(s, q, 0, |g1|);
    SliceShift(s, q, q2 - q, q2 - q + |g2|);
    SliceShift(s, q, q3 - q, q3 - q + |g3|);
    SliceShift(s, q, q4 - q, q4 - q + |g4|);
    if post != [] {
      assert s[e] == t[e - q..][0];
    }
  }

  /** Four digit groups separated by dots, starting at q, q2, q3 and q4 of s: the quad ends at e. */
  lemma QuadAtPositions(s: string, q: nat, q2: nat, q3: nat, q4: nat, e: nat,
                        g1: string, g2: string, g3: string, g4: string)
    requires q2 == q + |g1| + 1 && q3 == q2 + |g2| + 1 && q4 == q3 + |g3| + 1 && e == q4 + |g4| <= |s|
    requires s[q..q2 - 1] == g1 && s[q2 - 1] == '.'
    requires s[q2..q3 - 1] == g2 && s[q3 - 1] == '.'
    requires s[q3..q4 - 1] == g3 && s[q4 - 1] == '.'
    requires s[q4..e] == g4
    requires 1 <= |g1| <= 3 && AllDigits(g1) && 1 <= |g2| <= 3 && AllDigits(g2)
    requires 1 <= |g3| <= 3 && AllDigits(g3) && 1 <= |g4| <= 3 && AllDigits(g4)
    requires |g4| == 3 || e == |s| || !IsDigit(s[e])
    ensures QuadEnd(s, q) == Some(e)
  {
    GroupAt(s, q, q2, g1);
    GroupAt(s, q2, q3, g2);
    GroupAt(s, q3, q4, g3);
    LastGroupAt(s, q4, e, g4);
    QuadEndFrom(s, q, q2, q3, q4, e);
  }

  /** Four digit groups separated by dots at position q of s: the quad ends after the fourth group. */
  lemma QuadAt(s: string, q: nat, e: nat, g1: string, g2: string, g3: string, g4: string, post: string)
    requires q <= |s| && s[q..] == Quad(g1, g2, g3, g4) + post && e == q + |Quad(g1, g2, g3, g4)|
    requires 1 <= |g1| <= 3 && AllDigits(g1) && 1 <= |g2| <= 3 && AllDigits(g2)
    requires 1 <= |g3| <= 3 && AllDigits(g3) && 1 <= |g4| <= 3 && AllDigits(g4)
    requires |g4| == 3 || !StartsWithDigit(post)
    ensures QuadEnd(s, q) == Some(e)
  {
    var q2 := q + |g1| + 1;
    var q3 := q2 + |g2| + 1;
    var q4 := q3 + |g3| + 1;
    QuadPositions(s, q, q2, q3, q4, e, g1, g2, g3, g4, post);
    QuadAtPositions(s, q, q2, q3, q4, e, g1, g2, g3, g4);
  }

  /**
   * The IP parser on output whose first occurrence of the label is followed by
   * four digit groups g1..g4 separated by dots: it returns them. A last group
   * of three digits is returned even when more digits follow it (a longer run
   * is cut to its first three digits), and group values are not range-checked.
   */
  lemma ParsePublicIPReadsQuad(output: string, pre: string, g1: string, g2: string, g3: string, g4: string, post: string)
    requires output == pre + IPLabel + Quad(g1, g2, g3, g4) + post
    requires 1 <= |g1| <= 3 && AllDigits(g1) && 1 <= |g2| <= 3 && AllDigits(g2)
    requires 1 <= |g3| <= 3 && AllDigits(g3) && 1 <= |g4| <= 3 && AllDigits(g4)
    requires |g4| == 3 || !StartsWithDigit(post)
    requires forall j: nat :: j < |pre| ==> !HasLabelAt(output, IPLabel, j)
    ensures ParsePublicIP(output) == Ok(Quad(g1, g2, g3, g4))
  {
    var quad := Quad(g1, g2, g3, g4);
    var e := IPLayout(output, pre, g1, g2, g3, g4, post);
    IPReadAt(output, |pre|, e, quad);
  }

  /** Where the label and the quad of pre + IPLabel + Quad(g1, g2, g3, g4) + post sit, and where the quad ends. */
  lemma IPLayout(s: string, pre: string, g1: string, g2: string, g3: string, g4: string, post: string)
    returns (e: nat)
    requires s == pre + IPLabel + Quad(g1, g2, g3, g4) + post
    requires 1 <= |g1| <= 3 && AllDigits(g1) && 1 <= |g2| <= 3 && AllDigits(g2)
    requires 1 <= |g3| <= 3 && AllDigits(g3) && 1 <= |g4| <= 3 && AllDigits(g4)
    requires |g4| == 3 || !StartsWithDigit(post)
    ensures |pre| + |IPLabel| <= e <= |s| && s[|pre|..|pre| + |IPLabel|] == IPLabel
    ensures s[|pre| + |IPLabel|..e] == Quad(g1, g2, g3, g4)
    ensures QuadEnd(s, |pre| + |IPLabel|) == Some(e)
  {
    e := |pre| + |IPLabel| + |Quad(g1, g2, g3, g4)|;
    ThreePartLayout(s, pre, IPLabel, Quad(g1, g2, g3, g4), post);
    QuadAt(s, |pre| + |IPLabel|, e, g1, g2, g3, g4, post);
  }

  /** The label at i, then a quad from the end of the label to e, and no earlier label: the IP parser returns the quad. */
  lemma IPReadAt(s: string, i: nat, e: nat, quad: string)
    requires i + |IPLabel| <= e <= |s| && s[i..i + |IPLabel|] == IPLabel
    requires QuadEnd(s, i + |IPLabel|) == Some(e) && s[i + |IPLabel|..e] == quad
    requires forall j: nat :: j < i ==> !HasLabelAt(s, IPLabel, j)
    ensures ParsePublicIP(s) == Ok(quad)
  {
    FirstIPIs(s, i);
    ParsePublicIPAt(s, i, e);
  }

  // ------------------------------------------------------------- examples

  /** How `natpmpc` prints the ports of the examples below. */
  lemma PrintedExamplePorts()
    ensures Decimal(54321) == "54321" && Decimal(70000) == "70000"
  {
    assert Decimal(54) == "54";
    assert Decimal(5432) == "5432";
    assert Decimal(70) == "70";
    assert Decimal(7000) == "7000";
  }

  /** A mapping reply of `natpmpc`: the port after the label is read. */
  lemma PortExampleReply()
    ensures ParsePublicPort("Mapped public port 54321 protocol TCP") == Ok(54321)
  {
    var output := "Mapped public port 54321 protocol TCP";
    var post := " protocol TCP";
    PrintedExamplePorts();
    assert output == "" + PortLabel + "54321" + post;
    ParsePublicPortReadsPrintedPort(output, "", 54321, post);
  }

  /** A port above 65535 is accepted. */
  lemma PortExampleAboveRange()
    ensures ParsePublicPort("Mapped public port 70000") == Ok(70000)
  {
    var output := "Mapped public port 70000";
    PrintedExamplePorts();
    assert output == "" + PortLabel + "70000" + "";
    ParsePublicPortReadsPrintedPort(output, "", 70000, "");
  }

  /** Leading zeros are accepted. */
  lemma PortExampleLeadingZeros()
    ensures ParsePublicPort("Mapped public port 007") == Ok(7)
  {
    var output := "Mapped public port 007";
    assert output == "" + PortLabel + "007" + "";
    ParsePublicPortReadsDigits(output, "", "007", "");
    ValueWithLeadingZeros();
  }

  /** The digits 007 have the value 7. */
  lemma ValueWithLeadingZeros()
    ensures DecimalValue("007") == 7
  {
    LeadingZeroIgnored("07");
    LeadingZeroIgnored("7");
    assert "0" + "07" == "007" && "0" + "7" == "07";
    assert DecimalValue("7") == 7;
  }

  /** A reply of `natpmpc` naming the public address. */
  lemma IPExampleReply()
    ensures ParsePublicIP("Public IP address : 203.0.113.7") == Ok("203.0.113.7")
  {
    var output := "Public IP address : 203.0.113.7";
    assert Quad("203", "0", "113", "7") == "203.0.113.7";
    assert output == "" + IPLabel + Quad("203", "0", "113", "7") + "";
    ParsePublicIPReadsQuad(output, "", "203", "0", "113", "7", "");
  }

  /** A longer last digit run is cut to its first three digits. */
  lemma IPExampleLongLastGroup()
    ensures ParsePublicIP("Public IP address : 1.2.3.4567") == Ok("1.2.3.456")
  {
    var output := "Public IP address : 1.2.3.4567";
    assert Quad("1", "2", "3", "456") == "1.2.3.456";
    assert output == "" + IPLabel + Quad("1", "2", "3", "456") + "7";
    ParsePublicIPReadsQuad(output, "", "1", "2", "3", "456", "7");
  }

  /** Groups are not range-checked. */
  lemma IPExampleNoRangeCheck()
    ensures ParsePublicIP("Public IP address : 999.999.999.999") == Ok("999.999.999.999")
  {
    var output := "Public IP address : 999.999.999.999";
    assert Quad("999", "999", "999", "999") == "999.999.999.999";
    assert output == "" + IPLabel + Quad("999", "999", "999", "999") + "";
    ParsePublicIPReadsQuad(output, "", "999", "999", "999", "999", "");
  }
}
