/**
 * The fragment of JavaScript regular expressions that the validators use:
 * a pattern anchored at the start (`^`), made of character classes each
 * repeated between a minimum and an optional maximum number of times
 * (`[...]`, `[...]{n}`, `[...]{n,}`, `[...]{n,m}`, `[...]+`), and either
 * anchored at the end (`$`) or not. `RegExp.prototype.test` asks only
 * whether some match exists, so the semantics below is the existence of a
 * split of the input into one run per class, not the order in which a
 * backtracking engine tries the splits.
 */
module Patterns {
  import opened Wrappers

  /** The character classes the validators use. */
  datatype CharClass =
    | Literal(c: char)   // `@` and `\.`
    | Digit              // `\d` and `[0-9]`: ASCII digits only
    | Alnum              // `[a-zA-Z0-9äöüÄÖÜ]`
    | NotSpaceNorAt      // `[^\s@]`

  /** One class with its repetition bounds; `max == None` is unbounded. */
  datatype Piece = Piece(cls: CharClass, min: nat, max: Option<nat>)

  /** `^` pieces, then `$` when `anchoredEnd`. */
  datatype Pattern = Pattern(pieces: seq<Piece>, anchoredEnd: bool)

  predicate IsAsciiDigit(c: char) {
    '0' <= c <= '9'
  }

  predicate IsAsciiLetter(c: char) {
    'a' <= c <= 'z' || 'A' <= c <= 'Z'
  }

  /** ä ö ü Ä Ö Ü (not ß). */
  predicate IsUmlaut(c: char) {
    c == '\U{E4}' || c == '\U{F6}' || c == '\U{FC}' || c == '\U{C4}' || c == '\U{D6}' || c == '\U{DC}'
  }

  /**
   * JavaScript's `\s`: the WhiteSpace and LineTerminator code points of
   * ECMAScript, that is tab, line feed, vertical tab, form feed, carriage
   * return, the space separators (category Zs), the line and paragraph
   * separators and the byte order mark.
   */
  predicate IsJsWhitespace(c: char) {
    || c == '\t' || c == '\n' || c == '\U{B}' || c == '\U{C}' || c == '\r'
    || c == ' ' || c == '\U{A0}' || c == '\U{1680}' || ('\U{2000}' <= c <= '\U{200A}')
    || c == '\U{2028}' || c == '\U{2029}' || c == '\U{202F}' || c == '\U{205F}'
    || c == '\U{3000}' || c == '\U{FEFF}'
  }

  predicate InClass(cls: CharClass, c: char) {
    match cls
    case Literal(d) => c == d
    case Digit => IsAsciiDigit(c)
    case Alnum => IsAsciiLetter(c) || IsAsciiDigit(c) || IsUmlaut(c)
    case NotSpaceNorAt => !IsJsWhitespace(c) && c != '@'
  }

  /** Every character of `t` is in `cls`. */
  predicate AllIn(cls: CharClass, t: string) {
    forall i | 0 <= i < |t| :: InClass(cls, t[i])
  }

  /** `t` is one run of `p`: the right length and only characters of its class. */
  predicate Fits(p: Piece, t: string) {
    && p.min <= |t|
    && (p.max.Some? ==> |t| <= p.max.value)
    && AllIn(p.cls, t)
  }

  /** The whole of `s` splits into one run per piece, in order. */
  predicate MatchesAll(ps: seq<Piece>, s: string)
    decreases |ps|
  {
    if ps == [] then s == []
    else exists k | 0 <= k <= |s| :: Fits(ps[0], s[..k]) && MatchesAll(ps[1..], s[k..])
  }

  /** `re.test(s)` for a pattern that starts with `^`. */
  predicate Test(re: Pattern, s: string) {
    if re.anchoredEnd then MatchesAll(re.pieces, s)
    else exists n | 0 <= n <= |s| :: MatchesAll(re.pieces, s[..n])
  }

  /** Matching a pattern that starts with `p`: some prefix is one run of `p`. */
  lemma Unfold(p: Piece, ps: seq<Piece>, s: string)
    ensures MatchesAll([p] + ps, s) <==>
      exists k | 0 <= k <= |s| :: Fits(p, s[..k]) && MatchesAll(ps, s[k..])
  {
    assert ([p] + ps)[0] == p && ([p] + ps)[1..] == ps;
  }

  /** A piece of fixed width `n` (`{n}`) consumes exactly the next `n` characters. */
  lemma FixedStep(p: Piece, ps: seq<Piece>, s: string)
    requires p.max == Some(p.min)
    ensures MatchesAll([p] + ps, s) <==>
      p.min <= |s| && AllIn(p.cls, s[..p.min]) && MatchesAll(ps, s[p.min..])
  {
    Unfold(p, ps, s);
    if p.min <= |s| && AllIn(p.cls, s[..p.min]) && MatchesAll(ps, s[p.min..]) {
      assert Fits(p, s[..p.min]);
    }
  }

  /** The last piece must consume the rest of the input. */
  lemma LastStep(p: Piece, s: string)
    ensures MatchesAll([p], s) <==> Fits(p, s)
  {
    assert [p] == [p] + [];
    Unfold(p, [], s);
    if Fits(p, s) {
      assert s[..|s|] == s && s[|s|..] == [];
    }
  }

  /** The runs of a class, glued together, stay in that class. */
  lemma AllInSplit(cls: CharClass, s: string, k: nat)
    requires k <= |s|
    ensures AllIn(cls, s) <==> AllIn(cls, s[..k]) && AllIn(cls, s[k..])
  {
    if AllIn(cls, s[..k]) && AllIn(cls, s[k..]) {
      forall i | 0 <= i < |s| ensures InClass(cls, s[i]) {
        if i < k { assert s[i] == s[..k][i]; } else { assert s[i] == s[k..][i - k]; }
      }
    }
  }
}
