/**
  The fragment of JavaScript regular expressions that the student schemas use:
  a pattern anchored at both ends (`^...$`, no multiline flag) that is a
  concatenation of character classes, each with a quantifier `{n}`, `+` or `*`.
  `Matches(p, s)` is the language of such a pattern: `RegExp.test` succeeds on
  `s` exactly when `s` splits into consecutive pieces, one per atom, each piece
  made of characters of its atom's class and of a length its quantifier allows.
 */
module Regex {

  /** ASCII letter, as in the class `[A-Za-z]`. */
  predicate IsAsciiLetter(c: char) {
    ('A' <= c <= 'Z') || ('a' <= c <= 'z')
  }

  /** ASCII upper-case letter, as in `[A-Z]`. */
  predicate IsAsciiUpper(c: char) {
    'A' <= c <= 'Z'
  }

  /** ASCII digit: JavaScript's `\d` is exactly `[0-9]`. */
  predicate IsAsciiDigit(c: char) {
    '0' <= c <= '9'
  }

  /**
    JavaScript's `\s`: the ECMAScript WhiteSpace code points (tab, vertical
    tab, form feed, space, no-break space, zero width no-break space and the
    Unicode space separators) together with the LineTerminator code points.
   */
  predicate IsWhitespace(c: char) {
    c == '\t' || c == '\n' || c == '\U{000B}' || c == '\U{000C}' || c == '\r' || c == ' '
    || c == '\U{00A0}' || c == '\U{1680}' || ('\U{2000}' <= c <= '\U{200A}')
    || c == '\U{2028}' || c == '\U{2029}' || c == '\U{202F}' || c == '\U{205F}'
    || c == '\U{3000}' || c == '\U{FEFF}'
  }

  /** One member of a bracketed class: a range `a-z` (a single character is the range `c-c`) or `\s`. */
  datatype ClassItem = Range(lo: char, hi: char) | Space

  /** A bracketed class `[...]`, listed item by item. */
  type CharClass = seq<ClassItem>

  predicate InItem(c: char, item: ClassItem) {
    match item
    case Range(lo, hi) => lo <= c <= hi
    case Space => IsWhitespace(c)
  }

  predicate InClass(c: char, cls: CharClass) {
    exists i :: 0 <= i < |cls| && InItem(c, cls[i])
  }

  /** Every character of `s` belongs to `cls`. */
  predicate AllIn(s: string, cls: CharClass) {
    forall i :: 0 <= i < |s| ==> InClass(s[i], cls)
  }

  /** `{n}` repeats its class exactly n times; `AtLeast(1)` is `+` and `AtLeast(0)` is `*`. */
  datatype Quant = Exactly(n: nat) | AtLeast(min: nat)

  const Plus: Quant := AtLeast(1)
  const Star: Quant := AtLeast(0)

  datatype Atom = Atom(cls: CharClass, q: Quant)

  /** An anchored pattern `^atom1 atom2 ...$`. */
  type Pattern = seq<Atom>

  /** The fewest characters a quantifier admits. */
  function QuantMin(q: Quant): nat {
    match q
    case Exactly(n) => n
    case AtLeast(m) => m
  }

  /** Whether a run of `len` characters satisfies the quantifier. */
  predicate QuantAllows(q: Quant, len: nat) {
    match q
    case Exactly(n) => len == n
    case AtLeast(m) => m <= len
  }

  /** `RegExp.test` for an anchored pattern: the whole of `s` must be consumed. */
  predicate Matches(p: Pattern, s: string)
    decreases |p|
  {
    if p == [] then s == []
    else
      var a := p[0];
      exists k :: 0 <= k <= |s| && QuantAllows(a.q, k) && AllIn(s[..k], a.cls) && Matches(p[1..], s[k..])
  }

  /** The shortest string a pattern can match has this many characters. */
  function MinLength(p: Pattern): nat {
    if p == [] then 0 else QuantMin(p[0].q) + MinLength(p[1..])
  }

  /** A pattern built only from `{n}` quantifiers. */
  predicate IsFixed(p: Pattern) {
    forall i :: 0 <= i < |p| ==> p[i].q.Exactly?
  }

  /** No string shorter than `MinLength(p)` matches: in particular `+` rejects the empty string. */
  lemma {:induction false} MatchesAtLeastMinLength(p: Pattern, s: string)
    requires Matches(p, s)
    ensures |s| >= MinLength(p)
    decreases |p|
  {
    if p != [] {
      var k :| 0 <= k <= |s| && QuantAllows(p[0].q, k) && AllIn(s[..k], p[0].cls) && Matches(p[1..], s[k..]);
      MatchesAtLeastMinLength(p[1..], s[k..]);
    }
  }

  /** A pattern of `{n}` atoms only forces the length of every string it matches. */
  lemma {:induction false} FixedPatternForcesLength(p: Pattern, s: string)
    requires IsFixed(p)
    requires Matches(p, s)
    ensures |s| == MinLength(p)
    decreases |p|
  {
    if p != [] {
      var k :| 0 <= k <= |s| && QuantAllows(p[0].q, k) && AllIn(s[..k], p[0].cls) && Matches(p[1..], s[k..]);
      assert IsFixed(p[1..]) by {
        forall i | 0 <= i < |p[1..]| ensures p[1..][i].q.Exactly? {
          assert p[1..][i] == p[i + 1];
        }
      }
      FixedPatternForcesLength(p[1..], s[k..]);
    }
  }

  /** A pattern with a single atom matches exactly the strings of its class whose length the quantifier allows. */
  lemma SingleAtomMatches(cls: CharClass, q: Quant, s: string)
    ensures Matches([Atom(cls, q)], s) <==> QuantAllows(q, |s|) && AllIn(s, cls)
  {
    var p := [Atom(cls, q)];
    assert p[1..] == [];
    if Matches(p, s) {
      var k :| 0 <= k <= |s| && QuantAllows(q, k) && AllIn(s[..k], cls) && Matches(p[1..], s[k..]);
      assert k == |s|;
      assert s[..k] == s;
    }
    if QuantAllows(q, |s|) && AllIn(s, cls) {
      assert s[..|s|] == s;
      assert s[|s|..] == [];
    }
  }

  /**
    Matching a pattern whose first atom is `{n}`: the first `n` characters belong
    to that atom's class and the rest matches the remaining atoms.
   */
  lemma ExactHeadMatches(cls: CharClass, n: nat, rest: Pattern, s: string)
    ensures Matches([Atom(cls, Exactly(n))] + rest, s)
        <==> n <= |s| && AllIn(s[..n], cls) && Matches(rest, s[n..])
  {
    var p := [Atom(cls, Exactly(n))] + rest;
    assert p[0] == Atom(cls, Exactly(n));
    assert p[1..] == rest;
  }
}
