/** Shared vocabulary of the model: optional values, the Java exceptions the
    services throw, the few java.lang.String operations the core relies on,
    decimal rendering and parsing of integers, and a stable sort by key. */
module Common {

  /** A Java reference that may be null. */
  datatype Option<+T> = None | Some(value: T)

  /** The exception classes thrown by the modelled code. */
  datatype Exception =
    | IllegalArgument
    | IllegalState
    | Security
    | NumberFormat
    | NullPointer
    /** `RuntimeException`, which `AbstractDAO.save` throws when the database
        refuses the row. */
    | Runtime

  /** A call that either returns a value or throws. */
  datatype Result<+T> = Ok(value: T) | Fail(exc: Exception)

  /** A `void` call that either returns normally or throws. */
  datatype Outcome = Done | Thrown(exc: Exception)

  /** The value of a Java `long`. */
  const LONG_MIN: int := -0x8000_0000_0000_0000
  const LONG_MAX: int := 0x7fff_ffff_ffff_ffff
  /** The value of a Java `int`. */
  const INT_MIN: int := -0x8000_0000
  const INT_MAX: int := 0x7fff_ffff

  type Int32 = x: int | INT_MIN <= x <= INT_MAX

  // ---------------------------------------------------------------------------
  // java.lang.String

  /** `String.trim` drops every leading and trailing character whose code is at
      most U+0020. */
  predicate IsTrimmable(c: char) { c <= ' ' }

  function TrimLeft(s: string): (r: string)
    ensures |r| <= |s| && r == s[|s| - |r|..]
    ensures r == [] || !IsTrimmable(r[0])
    ensures forall i :: 0 <= i < |s| - |r| ==> IsTrimmable(s[i])
  {
    if s == [] || !IsTrimmable(s[0]) then s else TrimLeft(s[1..])
  }

  function TrimRight(s: string): (r: string)
    ensures |r| <= |s| && r == s[..|r|]
    ensures r == [] || !IsTrimmable(r[|r| - 1])
    ensures forall i :: |r| <= i < |s| ==> IsTrimmable(s[i])
  {
    if s == [] || !IsTrimmable(s[|s| - 1]) then s else TrimRight(s[..|s| - 1])
  }

  function Trim(s: string): string {
    TrimRight(TrimLeft(s))
  }

  /** A string has no surrounding blanks when trimming leaves it unchanged. */
  predicate IsTrimmed(s: string) {
    s == [] || (!IsTrimmable(s[0]) && !IsTrimmable(s[|s| - 1]))
  }

  lemma TrimOfTrimmed(s: string)
    requires IsTrimmed(s)
    ensures Trim(s) == s
  {
  }

  /** `s.trim().isEmpty()`: the string holds only characters up to U+0020. */
  predicate IsBlank(s: string) {
    Trim(s) == []
  }

  lemma {:induction false} BlankIffAllTrimmable(s: string)
    ensures IsBlank(s) <==> forall i :: 0 <= i < |s| ==> IsTrimmable(s[i])
  {
    var l := TrimLeft(s);
    if l == [] {
      assert Trim(s) == TrimRight([]) == [];
    } else {
      assert !IsTrimmable(l[0]) && l[0] == s[|s| - |l|];
      assert forall i :: |TrimRight(l)| <= i < |l| ==> IsTrimmable(l[i]);
    }
  }

  /** `String.contains`. */
  predicate Contains(s: string, sub: string) {
    exists i :: 0 <= i <= |s| - |sub| && OccursAt(s, sub, i)
  }

  predicate OccursAt(s: string, sub: string, i: int) {
    0 <= i && i + |sub| <= |s| && s[i..i + |sub|] == sub
  }

  predicate ContainsChar(s: string, c: char) {
    c in s
  }

  lemma ContainsCharIsContains(s: string, c: char)
    ensures Contains(s, [c]) <==> ContainsChar(s, c)
  {
    if c in s {
      var i :| 0 <= i < |s| && s[i] == c;
      assert OccursAt(s, [c], i);
    }
    if Contains(s, [c]) {
      var i :| 0 <= i <= |s| - 1 && OccursAt(s, [c], i);
      assert s[i] == s[i..i + 1][0] == c;
    }
  }

  /** ASCII case mapping (`String.toLowerCase` / `toUpperCase` restricted to the
      Latin letters). */
  function LowerChar(c: char): char {
    if 'A' <= c <= 'Z' then (c as int + 32) as char else c
  }

  function UpperChar(c: char): char {
    if 'a' <= c <= 'z' then (c as int - 32) as char else c
  }

  function ToLower(s: string): (r: string)
    ensures |r| == |s| && forall i :: 0 <= i < |s| ==> r[i] == LowerChar(s[i])
  {
    seq(|s|, i requires 0 <= i < |s| => LowerChar(s[i]))
  }

  function ToUpper(s: string): (r: string)
    ensures |r| == |s| && forall i :: 0 <= i < |s| ==> r[i] == UpperChar(s[i])
  {
    seq(|s|, i requires 0 <= i < |s| => UpperChar(s[i]))
  }

  /** `a.equalsIgnoreCase(b)` on ASCII text. */
  predicate EqualsIgnoreCase(a: string, b: string) {
    ToLower(a) == ToLower(b)
  }

  // ---------------------------------------------------------------------------
  // Decimal rendering (`String.valueOf(long)`) and parsing (`Long.parseLong`)

  predicate IsDigit(c: char) { '0' <= c <= '9' }

  predicate AllDigits(s: string) {
    forall i :: 0 <= i < |s| ==> IsDigit(s[i])
  }

  function DigitChar(d: nat): (c: char)
    requires d < 10
    ensures IsDigit(c)
  {
    ('0' as int + d) as char
  }

  function NatToString(n: nat): (r: string)
    ensures |r| >= 1 && AllDigits(r)
  {
    if n < 10 then [DigitChar(n)] else NatToString(n / 10) + [DigitChar(n % 10)]
  }

  function IntToString(i: int): (r: string)
    ensures |r| >= 1
  {
    if i < 0 then "-" + NatToString(-i) else NatToString(i)
  }

  /** The value of a non-empty run of decimal digits. */
  function DigitsValue(s: string): nat
    requires AllDigits(s)
  {
    if s == [] then 0 else DigitsValue(s[..|s| - 1]) * 10 + (s[|s| - 1] as int - '0' as int)
  }

  lemma {:induction false} DigitsValueOfNatToString(n: nat)
    ensures DigitsValue(NatToString(n)) == n
  {
    if n >= 10 {
      var s := NatToString(n);
      assert s[..|s| - 1] == NatToString(n / 10);
      DigitsValueOfNatToString(n / 10);
    }
  }

  /** `String.valueOf` of a `Long` that may be null. */
  function LongText(v: Option<int>): string {
    if v.Some? then IntToString(v.value) else "null"
  }

  /** `Long.parseLong` (with lo/hi the bounds of `long`) or `Integer.parseInt`
      (bounds of `int`): an optional sign and at least one ASCII digit, the value
      within [lo, hi]; anything else throws NumberFormatException (None). */
  function ParseInteger(s: string, lo: int, hi: int): (r: Option<int>)
    ensures r.Some? ==> lo <= r.value <= hi
  {
    if s == [] then None
    else if s[0] == '-' || s[0] == '+' then
      if |s| == 1 || !AllDigits(s[1..]) then None
      else
        var d: int := DigitsValue(s[1..]);
        var v := if s[0] == '-' then -d else d;
        if lo <= v <= hi then Some(v) else None
    else if !AllDigits(s) then None
    else
      var v := DigitsValue(s);
      if lo <= v <= hi then Some(v) else None
  }

  function ParseLong(s: string): Option<int> {
    ParseInteger(s, LONG_MIN, LONG_MAX)
  }

  /** Rendering then parsing a number within the bounds gives it back. */
  lemma ParseIntegerOfIntToString(i: int, lo: int, hi: int)
    requires lo <= i <= hi
    ensures ParseInteger(IntToString(i), lo, hi) == Some(i)
  {
    var s := IntToString(i);
    if i < 0 {
      var t := NatToString(-i);
      assert s == "-" + t && s[1..] == t;
      DigitsValueOfNatToString(-i);
      assert ParseInteger(s, lo, hi) == Some(0 - DigitsValue(t));
    } else {
      assert s == NatToString(i) && IsDigit(s[0]);
      DigitsValueOfNatToString(i);
      assert ParseInteger(s, lo, hi) == Some(DigitsValue(s));
    }
  }

  // ---------------------------------------------------------------------------
  // Splitting

  /** Every piece of `s` between occurrences of `sep` (the pieces keep the
      empty ones), as `split` computes before it drops trailing empty strings. */
  function SplitAll(s: string, sep: char): (r: seq<string>)
    ensures |r| >= 1
    ensures forall i :: 0 <= i < |r| ==> sep !in r[i]
    decreases |s|
  {
    if sep !in s then [s]
    else
      var k := IndexOf(s, sep);
      [s[..k]] + SplitAll(s[k + 1..], sep)
  }

  /** Index of the first occurrence of `c`. */
  function IndexOf(s: string, c: char): (k: nat)
    requires c in s
    ensures k < |s| && s[k] == c
    ensures forall j :: 0 <= j < k ==> s[j] != c
  {
    if s[0] == c then 0 else 1 + IndexOf(s[1..], c)
  }

  function DropTrailingEmpty(ss: seq<string>): (r: seq<string>)
    ensures |r| <= |ss| && r == ss[..|r|]
    ensures r == [] || r[|r| - 1] != []
  {
    if ss == [] || ss[|ss| - 1] != [] then ss else DropTrailingEmpty(ss[..|ss| - 1])
  }

  /** `String.split(sep)`: the pieces, trailing empty ones dropped; a string
      without the separator stays one piece. */
  function JavaSplit(s: string, sep: char): seq<string> {
    if sep !in s then [s] else DropTrailingEmpty(SplitAll(s, sep))
  }

  lemma SplitAllCons(a: string, sep: char, rest: string)
    requires sep !in a
    ensures SplitAll(a + [sep] + rest, sep) == [a] + SplitAll(rest, sep)
  {
    var s := a + [sep] + rest;
    assert s[|a|] == sep;
    assert forall j :: 0 <= j < |a| ==> s[j] == a[j];
    var k := IndexOf(s, sep);
    assert k == |a|;
    assert s[..k] == a;
    assert s[k + 1..] == rest;
  }

  /** `String.startsWith`. */
  predicate StartsWith(s: string, prefix: string) {
    |prefix| <= |s| && s[..|prefix|] == prefix
  }

  /** Lines each followed by the separator, as a `StringBuilder` or a
      `PrintWriter.println` sequence writes them. */
  function JoinLines(ls: seq<string>, sep: char): string {
    if ls == [] then "" else ls[0] + [sep] + JoinLines(ls[1..], sep)
  }

  /** Writing one more line appends it and its separator to the text. */
  lemma {:induction false} JoinLinesSnoc(ls: seq<string>, l: string, sep: char)
    ensures JoinLines(ls + [l], sep) == JoinLines(ls, sep) + l + [sep]
  {
    if ls != [] {
      assert (ls + [l])[1..] == ls[1..] + [l];
      JoinLinesSnoc(ls[1..], l, sep);
    }
  }

  /** Splitting text written line by line gives the lines back, followed by
      the empty piece after the last separator. */
  lemma {:induction false} SplitAllJoinLines(ls: seq<string>, sep: char)
    requires forall i :: 0 <= i < |ls| ==> sep !in ls[i]
    ensures SplitAll(JoinLines(ls, sep), sep) == ls + [""]
  {
    if ls != [] {
      SplitAllCons(ls[0], sep, JoinLines(ls[1..], sep));
      SplitAllJoinLines(ls[1..], sep);
      assert ls == [ls[0]] + ls[1..];
    }
  }

  /** `text.split(sep)` of text written line by line returns the lines, when
      the last one is not empty. */
  lemma JavaSplitJoinLines(ls: seq<string>, sep: char)
    requires ls != [] && ls[|ls| - 1] != []
    requires forall i :: 0 <= i < |ls| ==> sep !in ls[i]
    ensures JavaSplit(JoinLines(ls, sep), sep) == ls
  {
    var text := JoinLines(ls, sep);
    SplitAllJoinLines(ls, sep);
    assert text == ls[0] + [sep] + JoinLines(ls[1..], sep);
    assert sep in text by {
      assert text[|ls[0]|] == sep;
    }
    var all := ls + [""];
    assert all[..|all| - 1] == ls;
    assert DropTrailingEmpty(all) == DropTrailingEmpty(ls);
  }

  /** Different numbers have different decimal renderings. */
  lemma IntToStringInjective(a: int, b: int)
    requires IntToString(a) == IntToString(b)
    ensures a == b
  {
    var sa, sb := NatToString(if a < 0 then -a else a), NatToString(if b < 0 then -b else b);
    assert IsDigit(sa[0]) && IsDigit(sb[0]);
    assert IntToString(a)[0] == (if a < 0 then '-' else sa[0]);
    assert IntToString(b)[0] == (if b < 0 then '-' else sb[0]);
    if a < 0 {
      assert IntToString(a)[1..] == sa && IntToString(b)[1..] == sb;
    }
    DigitsValueOfNatToString(if a < 0 then -a else a);
    DigitsValueOfNatToString(if b < 0 then -b else b);
  }

  /** The decimal rendering of a number has no surrounding blanks. */
  lemma IntToStringTrimmed(i: int)
    ensures IsTrimmed(IntToString(i)) && '\n' !in IntToString(i) && ':' !in IntToString(i)
  {
    var d := NatToString(if i < 0 then -i else i);
    assert IsDigit(d[0]) && IsDigit(d[|d| - 1]);
    assert forall j :: 0 <= j < |d| ==> d[j] != '\n' && d[j] != ':';
    if i < 0 {
      var s := IntToString(i);
      assert s == "-" + d;
      assert forall j :: 1 <= j < |s| ==> s[j] == d[j - 1];
    }
  }

  // ---------------------------------------------------------------------------
  // Filtering and counting

  function Filter<T>(s: seq<T>, p: T -> bool): (r: seq<T>)
    ensures |r| <= |s|
    ensures forall i :: 0 <= i < |r| ==> r[i] in s && p(r[i])
    ensures forall i :: 0 <= i < |s| && p(s[i]) ==> s[i] in r
  {
    if s == [] then [] else (if p(s[0]) then [s[0]] else []) + Filter(s[1..], p)
  }

  lemma FilterAppend<T>(a: seq<T>, b: seq<T>, p: T -> bool)
    ensures Filter(a + b, p) == Filter(a, p) + Filter(b, p)
  {
    if a == [] {
      assert a + b == b;
    } else {
      assert (a + b)[1..] == a[1..] + b;
    }
  }

  /** One more step of a filtering loop over a prefix. */
  lemma FilterPrefixStep<T>(s: seq<T>, i: nat, p: T -> bool)
    requires i < |s|
    ensures Filter(s[..i + 1], p) == Filter(s[..i], p) + (if p(s[i]) then [s[i]] else [])
  {
    assert s[..i + 1] == s[..i] + [s[i]];
    FilterAppend(s[..i], [s[i]], p);
    assert [s[i]][1..] == [];
  }

  function Count<T>(s: seq<T>, p: T -> bool): nat {
    |Filter(s, p)|
  }

  // ---------------------------------------------------------------------------
  // Stable insertion sort by an integer key (`List.sort` / `ORDER BY`)

  predicate SortedBy<T>(s: seq<T>, key: T -> int) {
    forall i, j :: 0 <= i < j < |s| ==> key(s[i]) <= key(s[j])
  }

  /** Number of leading elements whose key is below that of `x`. */
  function FirstNotBelow<T>(x: T, s: seq<T>, key: T -> int): (k: nat)
    ensures k <= |s|
    ensures forall i :: 0 <= i < k ==> key(s[i]) < key(x)
    ensures k < |s| ==> key(x) <= key(s[k])
  {
    if s == [] || key(x) <= key(s[0]) then 0 else 1 + FirstNotBelow(x, s[1..], key)
  }

  /** Insert `x` before the first element whose key is not below its own, so
      that equal keys keep their relative order. */
  function InsertBy<T>(x: T, s: seq<T>, key: T -> int): (r: seq<T>)
    requires SortedBy(s, key)
    ensures SortedBy(r, key)
    ensures multiset(r) == multiset(s) + multiset{x}
  {
    var k := FirstNotBelow(x, s, key);
    InsertAtSorted(x, s, key, k);
    s[..k] + [x] + s[k..]
  }

  /** Placing `x` after exactly the elements keyed below it keeps the
      sequence sorted and adds one `x`. */
  lemma InsertAtSorted<T>(x: T, s: seq<T>, key: T -> int, k: nat)
    requires SortedBy(s, key) && k <= |s|
    requires forall i :: 0 <= i < k ==> key(s[i]) < key(x)
    requires k < |s| ==> key(x) <= key(s[k])
    ensures SortedBy(s[..k] + [x] + s[k..], key)
    ensures multiset(s[..k] + [x] + s[k..]) == multiset(s) + multiset{x}
  {
    var r := s[..k] + [x] + s[k..];
    forall i, j | 0 <= i < j < |r| ensures key(r[i]) <= key(r[j]) {
      InsertedAt(x, s, k, i);
      InsertedAt(x, s, k, j);
      if i < k && j == k {
      } else if i <= k && j > k {
        assert key(x) <= key(s[k]) <= key(s[j - 1]);
      }
    }
    InsertedCount(x, s, k);
  }

  lemma InsertedCount<T>(x: T, s: seq<T>, k: nat)
    requires k <= |s|
    ensures multiset(s[..k] + [x] + s[k..]) == multiset(s) + multiset{x}
  {
    assert s == s[..k] + s[k..];
  }

  /** Where each element of `s` with `x` inserted at `k` comes from. */
  lemma InsertedAt<T>(x: T, s: seq<T>, k: nat, i: nat)
    requires k <= |s| && i <= |s|
    ensures (s[..k] + [x] + s[k..])[i] == if i < k then s[i] else if i == k then x else s[i - 1]
  {
  }

  function SortBy<T>(s: seq<T>, key: T -> int): (r: seq<T>)
    ensures SortedBy(r, key)
    ensures multiset(r) == multiset(s)
  {
    if s == [] then []
    else
      assert s == [s[0]] + s[1..];
      InsertBy(s[0], SortBy(s[1..], key), key)
  }

  /** `stream().filter(p).sorted(by key)`: exactly the elements satisfying
      `p`, each as often as in `s`, in ascending key order. */
  function SortedFilter<T>(s: seq<T>, p: T -> bool, key: T -> int): (r: seq<T>)
    ensures forall i :: 0 <= i < |r| ==> r[i] in s && p(r[i])
    ensures forall i :: 0 <= i < |s| && p(s[i]) ==> s[i] in r
    ensures multiset(r) == multiset(Filter(s, p))
    ensures SortedBy(r, key)
  {
    var f := Filter(s, p);
    var r := SortBy(f, key);
    forall x | x in f ensures x in r {
      assert x in multiset(f);
    }
    forall i | 0 <= i < |r| ensures r[i] in s && p(r[i]) {
      assert r[i] in multiset(r);
      assert r[i] in f;
      var j :| 0 <= j < |f| && f[j] == r[i];
    }
    r
  }

  /** Concatenation is associative. */
  lemma AppendAssoc<T>(a: seq<T>, b: seq<T>, c: seq<T>)
    ensures a + b + c == a + (b + c)
  {
  }

  /** `f` applied to each of the first `n` elements of `s`, in order. */
  function MapPrefix<T, U>(f: T -> U, s: seq<T>, n: nat): (r: seq<U>)
    requires n <= |s|
    ensures |r| == n
  {
    if n == 0 then [] else MapPrefix(f, s, n - 1) + [f(s[n - 1])]
  }

  /** Element `j` of the mapped prefix is `f` of element `j`. */
  lemma {:induction false} MapPrefixAt<T, U>(f: T -> U, s: seq<T>, n: nat, j: nat)
    requires j < n <= |s|
    ensures MapPrefix(f, s, n)[j] == f(s[j])
  {
    if j < n - 1 {
      MapPrefixAt(f, s, n - 1, j);
    }
  }

  /** Indexing into a sequence with one element appended. */
  lemma SnocIndex<T>(a: seq<T>, x: T, j: nat)
    requires j <= |a|
    ensures (a + [x])[j] == if j < |a| then a[j] else x
  {
  }
}
