/**
 * The fragment of `java.util.regex` the connection-pool patterns use, with
 * `Matcher.matches()` (the whole string must match): literal text, `.`,
 * `[\w\d]+`, `[\w\d\.]+` and `.*`. The anchors `^` and `$` add nothing to a
 * whole-string match and are left out of the patterns.
 */
module Regex {
  import opened JavaStrings

  /** `[\w\d]` (a word character) and `[\w\d\.]` (a word character or a dot). */
  datatype CharClass = Word | WordOrDot

  predicate IsWordChar(c: char) {
    'a' <= c <= 'z' || 'A' <= c <= 'Z' || '0' <= c <= '9' || c == '_'
  }

  predicate InClass(cls: CharClass, c: char) {
    IsWordChar(c) || (cls == WordOrDot && c == '.')
  }

  predicate AllInClass(cls: CharClass, s: string) {
    forall i :: 0 <= i < |s| ==> InClass(cls, s[i])
  }

  datatype Atom =
    | Lit(text: string)         // characters matched literally (escaped metacharacters included)
    | AnyChar                   // `.`
    | OneOrMore(cls: CharClass) // `[...]+`
    | AnyString                 // `.*`

  type Pattern = seq<Atom>

  /** `pattern.matcher(s).matches()`. */
  predicate Matches(p: Pattern, s: string)
    decreases |p|
  {
    if p == [] then s == ""
    else match p[0]
      case Lit(l) => StartsWith(s, l) && Matches(p[1..], s[|l|..])
      case AnyChar => s != "" && Matches(p[1..], s[1..])
      case OneOrMore(cls) => exists k :: 1 <= k <= |s| && AllInClass(cls, s[..k]) && Matches(p[1..], s[k..])
      case AnyString => exists k :: 0 <= k <= |s| && Matches(p[1..], s[k..])
  }

  /** A pattern that begins with literal text only matches strings that begin with it. */
  lemma LiteralPrefix(l: string, rest: Pattern, s: string)
    ensures Matches([Lit(l)] + rest, s) ==> StartsWith(s, l)
  {
    assert ([Lit(l)] + rest)[0] == Lit(l);
  }
}
