/** The fragment of `java.util.regex` the validators use: an anchored
    pattern that is a sequence of character classes, each repeated between
    a minimum and an optional maximum number of times (`x?` is {0,1}, a
    plain character {1,1}, `x+` {1,} and `x{m,n}` {m,n}).  `matches()` holds
    when some way of cutting the whole string into consecutive pieces gives
    each class a piece of allowed length made only of its characters. */
module Regex {
  import opened Common

  /** The character classes of the two validator patterns. */
  datatype Class =
    | EmailLocal    // [A-Za-z0-9+_.-]
    | EmailDomain   // [A-Za-z0-9.-]
    | Letter        // [A-Za-z]
    | Digit         // [0-9]
    | Separator     // [-\s.]
    | Exactly(c: char)

  predicate IsAsciiLetter(c: char) { 'A' <= c <= 'Z' || 'a' <= c <= 'z' }

  /** `\s`: space, tab, line feed, vertical tab, form feed, carriage return. */
  predicate IsSpace(c: char) {
    c == ' ' || c == '\t' || c == '\n' || c == '\U{B}' || c == '\U{C}' || c == '\r'
  }

  predicate InClass(cls: Class, c: char) {
    match cls
    case EmailLocal => IsAsciiLetter(c) || IsDigit(c) || c == '+' || c == '_' || c == '.' || c == '-'
    case EmailDomain => IsAsciiLetter(c) || IsDigit(c) || c == '.' || c == '-'
    case Letter => IsAsciiLetter(c)
    case Digit => IsDigit(c)
    case Separator => c == '-' || c == '.' || IsSpace(c)
    case Exactly(d) => c == d
  }

  datatype Item = Item(cls: Class, min: nat, max: Option<nat>)

  /** A pattern: its classes in order. */
  datatype Pattern = End | Then(item: Item, rest: Pattern)

  predicate AllIn(s: string, cls: Class) {
    forall i :: 0 <= i < |s| ==> InClass(cls, s[i])
  }

  predicate Fits(it: Item, k: nat) {
    it.min <= k && (it.max.None? || k <= it.max.value)
  }

  /** `Pattern.matcher(s).matches()`. */
  predicate Matches(p: Pattern, s: string) {
    match p
    case End => s == []
    case Then(it, rest) => exists k :: 0 <= k <= |s| && Fits(it, k) && AllIn(s[..k], it.cls) && Matches(rest, s[k..])
  }

  /** The shortest length a match can have. */
  function MinLen(p: Pattern): nat {
    match p
    case End => 0
    case Then(it, rest) => it.min + MinLen(rest)
  }

  /** Every class has a maximum. */
  predicate Bounded(p: Pattern) {
    match p
    case End => true
    case Then(it, rest) => it.max.Some? && Bounded(rest)
  }

  /** The longest length a match of a bounded pattern can have. */
  function MaxLen(p: Pattern): nat
    requires Bounded(p)
  {
    match p
    case End => 0
    case Then(it, rest) => it.max.value + MaxLen(rest)
  }

  /** A matched string is at least as long as the pattern's minimum and, for
      a bounded pattern, at most as long as its maximum. */
  lemma {:induction false} MatchLength(p: Pattern, s: string)
    requires Matches(p, s)
    ensures MinLen(p) <= |s|
    ensures Bounded(p) ==> |s| <= MaxLen(p)
  {
    if p.Then? {
      var k :| 0 <= k <= |s| && Fits(p.item, k) && AllIn(s[..k], p.item.cls) && Matches(p.rest, s[k..]);
      MatchLength(p.rest, s[k..]);
    }
  }

  /** Some class of the pattern admits `c`. */
  predicate InSome(p: Pattern, c: char) {
    match p
    case End => false
    case Then(it, rest) => InClass(it.cls, c) || InSome(rest, c)
  }

  /** Every character of a matched string belongs to one of the classes. */
  lemma {:induction false} MatchChars(p: Pattern, s: string)
    requires Matches(p, s)
    ensures forall i :: 0 <= i < |s| ==> InSome(p, s[i])
  {
    if p.Then? {
      var k :| 0 <= k <= |s| && Fits(p.item, k) && AllIn(s[..k], p.item.cls) && Matches(p.rest, s[k..]);
      MatchChars(p.rest, s[k..]);
      forall i | 0 <= i < |s| ensures InSome(p, s[i]) {
        if i < k {
          assert s[..k][i] == s[i];
        } else {
          assert s[k..][i - k] == s[i];
        }
      }
    }
  }

  /** The last class of a pattern that has one. */
  function Last(p: Pattern): Item
    requires p.Then?
  {
    if p.rest.End? then p.item else Last(p.rest)
  }

  /** When the last class must occur at least once, a matched string is not
      empty and ends with a character of that class. */
  lemma {:induction false} MatchEnd(p: Pattern, s: string)
    requires p.Then? && Matches(p, s) && Last(p).min >= 1
    ensures |s| > 0 && InClass(Last(p).cls, s[|s| - 1])
  {
    var k :| 0 <= k <= |s| && Fits(p.item, k) && AllIn(s[..k], p.item.cls) && Matches(p.rest, s[k..]);
    if p.rest.End? {
      assert s[k..] == [];
      assert k == |s| && k >= p.item.min >= 1;
      assert InClass(p.item.cls, s[..k][k - 1]);
      assert s[..k][k - 1] == s[|s| - 1];
    } else {
      var t := s[k..];
      MatchEnd(p.rest, t);
      assert t[|t| - 1] == s[|s| - 1];
    }
  }

  /** Matching one more leading piece. */
  lemma MatchCons(it: Item, rest: Pattern, piece: string, tail: string)
    requires Fits(it, |piece|) && AllIn(piece, it.cls) && Matches(rest, tail)
    ensures Matches(Then(it, rest), piece + tail)
  {
    var s := piece + tail;
    assert s[..|piece|] == piece && s[|piece|..] == tail;
  }
}
