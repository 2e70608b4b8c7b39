/**
 * The JavaScript string operations the dashboard relies on, over `seq<char>`:
 * `toLowerCase`, `startsWith`, `endsWith`, `includes`, `trim`, `split`/`join`
 * with a one-character separator, `replace(/\s+/g, '-')`, `replace(/\./g, '-')`,
 * ``${n}`` for integers and `Number(...)` for the strings it produces, and the
 * code-point order that stands in for `localeCompare`.
 */
module Text {
  import opened Common

  // ---------------------------------------------------------------------------
  // Characters

  /** The characters JavaScript's `trim` and the regular expression `\s` treat as white space. */
  predicate IsWhitespace(c: char) {
    c == ' ' || c == '\t' || c == '\n' || c == '\r' || c == '\U{000B}' || c == '\U{000C}'
    || c == '\U{00A0}' || c == '\U{1680}' || ('\U{2000}' <= c <= '\U{200A}')
    || c == '\U{2028}' || c == '\U{2029}' || c == '\U{202F}' || c == '\U{205F}'
    || c == '\U{3000}' || c == '\U{FEFF}'
  }

  /** Lower-cases an ASCII capital letter and leaves every other character alone. */
  function LowerChar(c: char): (r: char)
    ensures 'A' <= c <= 'Z' ==> r as int == c as int + 32
    ensures !('A' <= c <= 'Z') ==> r == c
  {
    if 'A' <= c <= 'Z' then (c as int + 32) as char else c
  }

  /** `toLowerCase`, restricted to ASCII letters. */
  function ToLower(s: string): (r: string)
    ensures |r| == |s|
    ensures forall i :: 0 <= i < |s| ==> r[i] == LowerChar(s[i])
  {
    seq(|s|, i requires 0 <= i < |s| => LowerChar(s[i]))
  }

  /** Lower-casing a lower-cased string changes nothing. */
  lemma ToLowerIdempotent(s: string)
    ensures ToLower(ToLower(s)) == ToLower(s)
  {
    assert forall i :: 0 <= i < |s| ==> LowerChar(LowerChar(s[i])) == LowerChar(s[i]);
  }

  // ---------------------------------------------------------------------------
  // Prefixes, suffixes, substrings

  predicate StartsWith(s: string, prefix: string) {
    |prefix| <= |s| && s[..|prefix|] == prefix
  }

  predicate EndsWith(s: string, suffix: string) {
    |suffix| <= |s| && s[|s| - |suffix|..] == suffix
  }

  /** A string made of three pieces starts with the first two and ends with the last two. */
  lemma ThreeParts(a: string, b: string, c: string)
    ensures StartsWith(a + b + c, a + b) && EndsWith(a + b + c, b + c)
  {
    assert (a + b + c)[..|a + b|] == a + b;
    assert (a + b + c)[|a + b + c| - |b + c|..] == b + c;
  }

  /** `s.includes(sub)`: `sub` occurs somewhere in `s`. */
  predicate Includes(s: string, sub: string) {
    exists i | 0 <= i <= |s| :: OccursAt(s, sub, i)
  }

  /** `sub` occurs in `s` starting at position `i`. */
  predicate OccursAt(s: string, sub: string, i: int) {
    0 <= i && i + |sub| <= |s| && s[i..i + |sub|] == sub
  }

  // ---------------------------------------------------------------------------
  // trim

  /** The length of the run of white space `s` starts with. */
  function LeadingWhitespace(s: string): (n: nat)
    ensures n <= |s|
    ensures forall i :: 0 <= i < n ==> IsWhitespace(s[i])
    ensures n < |s| ==> !IsWhitespace(s[n])
    decreases |s|
  {
    if s != [] && IsWhitespace(s[0]) then
      var m := LeadingWhitespace(s[1..]);
      assert forall i :: 1 <= i < m + 1 ==> s[i] == s[1..][i - 1];
      assert m + 1 < |s| ==> s[m + 1] == s[1..][m];
      m + 1
    else 0
  }

  /** `trimStart`: the text from its first character that is not white space. */
  function TrimStart(s: string): (r: string)
    ensures |r| <= |s| && r == s[|s| - |r|..]
    ensures r == [] || !IsWhitespace(r[0])
    ensures s != [] && IsWhitespace(s[0]) ==> |r| < |s|
  {
    s[LeadingWhitespace(s)..]
  }

  function TrimEnd(s: string): (r: string)
    ensures |r| <= |s| && r == s[..|r|]
    ensures r == [] || !IsWhitespace(r[|r| - 1])
    decreases |s|
  {
    if s != [] && IsWhitespace(s[|s| - 1]) then
      var r := TrimEnd(s[..|s| - 1]);
      assert s[..|s| - 1][..|r|] == s[..|r|];
      r
    else s
  }

  /** What `TrimStart` drops is white space. */
  lemma TrimStartDropsWhitespace(s: string)
    ensures forall i :: 0 <= i < |s| - |TrimStart(s)| ==> IsWhitespace(s[i])
  {
    assert |s| - |TrimStart(s)| == LeadingWhitespace(s);
  }

  /** What `TrimEnd` drops is white space. */
  lemma {:induction false} TrimEndDropsWhitespace(s: string)
    ensures forall i :: |TrimEnd(s)| <= i < |s| ==> IsWhitespace(s[i])
    decreases |s|
  {
    if s != [] && IsWhitespace(s[|s| - 1]) {
      TrimEndDropsWhitespace(s[..|s| - 1]);
      forall i | |TrimEnd(s)| <= i < |s| - 1
        ensures IsWhitespace(s[i])
      {
        assert s[i] == s[..|s| - 1][i];
      }
    }
  }

  /** `trim`: the string without its leading and trailing white space. */
  function Trim(s: string): string {
    TrimEnd(TrimStart(s))
  }

  /** What `trim` returns neither starts nor ends with white space, and is a piece of its input. */
  lemma TrimShape(s: string)
    ensures var t := Trim(s);
      && (t == [] || (!IsWhitespace(t[0]) && !IsWhitespace(t[|t| - 1])))
      && Includes(s, t)
  {
    var a := TrimStart(s);
    var t := TrimEnd(a);
    var k := |s| - |a|;
    if t != [] {
      assert t[0] == a[0];
    }
    assert s[k..k + |t|] == s[k..][..|t|] == a[..|t|] == t;
    assert OccursAt(s, t, k);
  }

  /** A string without white space at either end is its own trim. */
  lemma {:induction false} TrimOfTrimmed(t: string)
    requires t == [] || (!IsWhitespace(t[0]) && !IsWhitespace(t[|t| - 1]))
    ensures Trim(t) == t
  {
  }

  /** Trimming twice is trimming once. */
  lemma TrimIdempotent(s: string)
    ensures Trim(Trim(s)) == Trim(s)
  {
    TrimShape(s);
    TrimOfTrimmed(Trim(s));
  }

  // ---------------------------------------------------------------------------
  // split / join with a one-character separator

  /** `s.split(sep)`: never empty; `"".split(sep)` is `[""]`. */
  function Split(s: string, sep: char): (parts: seq<string>)
    ensures |parts| >= 1
    ensures forall i :: 0 <= i < |parts| ==> sep !in parts[i]
    decreases |s|
  {
    if s == [] then [""]
    else if s[0] == sep then [""] + Split(s[1..], sep)
    else
      var rest := Split(s[1..], sep);
      [[s[0]] + rest[0]] + rest[1..]
  }

  /** `parts.join(sep)`. */
  function Join(parts: seq<string>, sep: char): string
    decreases |parts|
  {
    if parts == [] then ""
    else if |parts| == 1 then parts[0]
    else parts[0] + [sep] + Join(parts[1..], sep)
  }

  /** Splitting and joining again gives back the original string. */
  lemma {:induction false} JoinSplit(s: string, sep: char)
    ensures Join(Split(s, sep), sep) == s
    decreases |s|
  {
    if s != [] {
      JoinSplit(s[1..], sep);
      var rest := Split(s[1..], sep);
      if s[0] == sep {
        assert Split(s, sep) == [""] + rest;
        assert Join([""] + rest, sep) == "" + [sep] + Join(rest, sep);
        assert s == [s[0]] + s[1..];
      } else {
        var parts := Split(s, sep);
        assert parts == [[s[0]] + rest[0]] + rest[1..];
        if |rest| == 1 {
          assert Join(parts, sep) == [s[0]] + rest[0];
        } else {
          assert parts[1..] == rest[1..];
          assert Join(rest, sep) == rest[0] + [sep] + Join(rest[1..], sep);
        }
        assert s == [s[0]] + s[1..];
      }
    }
  }

  /** A string without the separator splits into itself alone. */
  lemma {:induction false} SplitWithoutSeparator(s: string, sep: char)
    requires sep !in s
    ensures Split(s, sep) == [s]
    decreases |s|
  {
    if s != [] {
      SplitWithoutSeparator(s[1..], sep);
      assert s == [s[0]] + s[1..];
    }
  }

  /** One step of `Split`: the first character either ends the first part or joins it. */
  lemma SplitCons(c: char, t: string, sep: char)
    ensures var rest := Split(t, sep);
      Split([c] + t, sep) == if c == sep then [""] + rest else [[c] + rest[0]] + rest[1..]
  {
    assert ([c] + t)[1..] == t;
  }

  /** Splitting `a + sep + b` splits `a` and `b` separately. */
  lemma {:induction false} SplitConcat(a: string, b: string, sep: char)
    ensures Split(a + [sep] + b, sep) == Split(a, sep) + Split(b, sep)
    decreases |a|
  {
    if a == [] {
      assert a + [sep] + b == [sep] + b;
      SplitCons(sep, b, sep);
    } else {
      var t := a[1..] + [sep] + b;
      assert a + [sep] + b == [a[0]] + t;
      assert a == [a[0]] + a[1..];
      SplitCons(a[0], t, sep);
      SplitCons(a[0], a[1..], sep);
      SplitConcat(a[1..], b, sep);
      SplitAppendStep(a[0], sep, Split(a[1..], sep), Split(b, sep));
    }
  }

  /** The sequence algebra of the inductive step of `SplitConcat`. */
  lemma SplitAppendStep(c: char, sep: char, init: seq<string>, tail: seq<string>)
    requires |init| >= 1
    ensures var rest := init + tail;
      (if c == sep then [""] + rest else [[c] + rest[0]] + rest[1..])
      == (if c == sep then [""] + init else [[c] + init[0]] + init[1..]) + tail
  {
    var rest := init + tail;
    assert rest[0] == init[0];
    assert rest[1..] == init[1..] + tail;
  }

  /** A separator inside `s` splits it into at least two parts. */
  lemma {:induction false} SplitContaining(s: string, sep: char)
    requires sep in s
    ensures |Split(s, sep)| >= 2
    decreases |s|
  {
    if s[0] != sep {
      assert sep in s[1..];
      SplitContaining(s[1..], sep);
    }
  }

  /** Joining parts that hold no separator and splitting again gives back the parts. */
  lemma {:induction false} SplitJoin(parts: seq<string>, sep: char)
    requires |parts| >= 1
    requires forall i :: 0 <= i < |parts| ==> sep !in parts[i]
    ensures Split(Join(parts, sep), sep) == parts
    decreases |parts|
  {
    if |parts| == 1 {
      SplitWithoutSeparator(parts[0], sep);
    } else {
      SplitJoin(parts[1..], sep);
      SplitWithoutSeparator(parts[0], sep);
      SplitConcat(parts[0], Join(parts[1..], sep), sep);
      assert parts == [parts[0]] + parts[1..];
    }
  }

  /**
   * The last part of a split is the text after the last separator: a suffix of `s`
   * without the separator, preceded in `s` by the separator unless it is all of `s`.
   */
  predicate LastPartShape(s: string, sep: char) {
    var parts := Split(s, sep);
    PartAfterLast(s, parts[|parts| - 1], sep)
  }

  /** `l` ends `s`, holds no separator, and is preceded in `s` by the separator unless it is all of `s`. */
  predicate PartAfterLast(s: string, l: string, sep: char) {
    EndsWith(s, l) && sep !in l && (|l| < |s| ==> s[|s| - |l| - 1] == sep)
  }

  lemma {:induction false} SplitLast(s: string, sep: char)
    ensures LastPartShape(s, sep)
    decreases |s|
  {
    if s != [] {
      SplitLast(s[1..], sep);
      LastPartStep(s[0], s[1..], sep);
      assert [s[0]] + s[1..] == s;
    }
  }

  /** The shape of the last part survives putting a character in front. */
  lemma LastPartStep(c: char, t: string, sep: char)
    requires LastPartShape(t, sep)
    ensures LastPartShape([c] + t, sep)
  {
    var rest := Split(t, sep);
    var parts := Split([c] + t, sep);
    LastOfSplitCons(c, t, sep);
    SplitPartCount(t, sep);
    LastPartFromParts(c, t, sep, rest, parts);
  }

  /** A split has one part exactly when the string holds no separator, and that part is then the string. */
  lemma SplitPartCount(t: string, sep: char)
    ensures |Split(t, sep)| == 1 ==> Split(t, sep) == [t]
    ensures |Split(t, sep)| > 1 ==> sep in t
  {
    if sep !in t {
      SplitWithoutSeparator(t, sep);
    } else if |Split(t, sep)| == 1 {
      JoinSplit(t, sep);
    }
  }

  /** The step of `LastPartStep`, stated over the two splits as plain sequences. */
  lemma LastPartFromParts(c: char, t: string, sep: char, rest: seq<string>, parts: seq<string>)
    requires |rest| >= 1 && |parts| >= 1
    requires PartAfterLast(t, rest[|rest| - 1], sep)
    requires c == sep || |rest| > 1 ==> parts[|parts| - 1] == rest[|rest| - 1]
    requires c != sep && |rest| == 1 ==> parts == [[c] + rest[0]]
    requires |rest| == 1 ==> rest == [t]
    requires |rest| > 1 ==> sep in t
    ensures PartAfterLast([c] + t, parts[|parts| - 1], sep)
  {
    var l := rest[|rest| - 1];
    if c != sep && |rest| == 1 {
      assert parts[|parts| - 1] == [c] + t;
      assert sep !in [c] + t;
    } else {
      if c != sep {
        assert l != t;
      }
      SuffixAfterSeparator(c, t, l, sep);
    }
  }

  /** A separator-free suffix that follows a separator still does so with a character put in front. */
  lemma SuffixAfterSeparator(c: char, t: string, l: string, sep: char)
    requires PartAfterLast(t, l, sep)
    requires c == sep || |l| < |t|
    ensures PartAfterLast([c] + t, l, sep)
  {
    var s := [c] + t;
    assert s[1..] == t;
    SuffixOfTail(s, l);
  }

  /** How the last part of a split changes when a character is put in front. */
  lemma LastOfSplitCons(c: char, t: string, sep: char)
    ensures var rest := Split(t, sep);
      var parts := Split([c] + t, sep);
      && (c == sep || |rest| > 1 ==> parts[|parts| - 1] == rest[|rest| - 1])
      && (c != sep && |rest| == 1 ==> parts == [[c] + rest[0]])
  {
    SplitCons(c, t, sep);
    var rest := Split(t, sep);
    if c != sep {
      var parts := [[c] + rest[0]] + rest[1..];
      assert |parts| == |rest|;
      if |rest| > 1 {
        assert parts[|parts| - 1] == rest[1..][|rest| - 2];
      }
    }
  }

  /** A suffix of the tail is a suffix of the whole, at the same distance from the end. */
  lemma SuffixOfTail(s: string, l: string)
    requires s != [] && EndsWith(s[1..], l)
    ensures EndsWith(s, l)
    ensures |l| < |s| - 1 ==> s[|s| - |l| - 1] == s[1..][|s| - 1 - |l| - 1]
  {
    assert s[|s| - |l|..] == s[1..][|s| - 1 - |l|..];
  }

  /** The last element, which `pop()` returns. */
  function Last<T>(s: seq<T>): T
    requires |s| > 0
  {
    s[|s| - 1]
  }

  /** `Array.prototype.indexOf`: the first position of `x`, or -1 when it is absent. */
  function IndexOf<T(==)>(s: seq<T>, x: T): (i: int)
    ensures -1 <= i < |s|
    ensures i == -1 <==> x !in s
    ensures i >= 0 ==> s[i] == x && x !in s[..i]
    decreases |s|
  {
    if s == [] then -1
    else if s[0] == x then 0
    else
      var j := IndexOf(s[1..], x);
      if j == -1 then -1 else j + 1
  }

  // ---------------------------------------------------------------------------
  // replace

  /** `s.replace(/<from>/g, to)` for a single character. */
  function ReplaceChar(s: string, from: char, to: char): (r: string)
    ensures |r| == |s|
    ensures forall i :: 0 <= i < |s| ==> r[i] == if s[i] == from then to else s[i]
  {
    seq(|s|, i requires 0 <= i < |s| => if s[i] == from then to else s[i])
  }

  /** `s.replace(/\s+/g, '-')`: every maximal run of white space becomes one `-`. */
  function DashWhitespace(s: string): (r: string)
    ensures forall i :: 0 <= i < |r| ==> !IsWhitespace(r[i])
    ensures (forall i :: 0 <= i < |s| ==> !IsWhitespace(s[i])) ==> r == s
    ensures |r| <= |s| && (r == [] <==> s == [])
    decreases |s|
  {
    if s == [] then []
    else if IsWhitespace(s[0]) then
      var t := TrimStart(s);
      var r := DashWhitespace(t);
      assert |r| <= |t| < |s|;
      assert forall i :: 1 <= i < |r| + 1 ==> ("-" + r)[i] == r[i - 1];
      "-" + r
    else
      var r := DashWhitespace(s[1..]);
      assert forall i :: 1 <= i < |r| + 1 ==> ([s[0]] + r)[i] == r[i - 1];
      assert forall i :: 1 <= i < |s| ==> s[1..][i - 1] == s[i];
      [s[0]] + r
  }

  /** A character that is not white space is kept as it is. */
  lemma DashWhitespaceKeeps(c: char, s: string)
    requires !IsWhitespace(c)
    ensures DashWhitespace([c] + s) == [c] + DashWhitespace(s)
  {
    assert ([c] + s)[1..] == s;
  }

  /** A maximal run of white space becomes a single '-'. */
  lemma DashWhitespaceRun(w: string, s: string)
    requires w != [] && forall i :: 0 <= i < |w| ==> IsWhitespace(w[i])
    requires s == [] || !IsWhitespace(s[0])
    ensures DashWhitespace(w + s) == "-" + DashWhitespace(s)
  {
    assert (w + s)[0] == w[0];
    TrimStartWhitespacePrefix(w, s);
  }

  /** `TrimStart` drops a leading run of white space and stops at the first other character. */
  lemma TrimStartWhitespacePrefix(w: string, s: string)
    requires forall i :: 0 <= i < |w| ==> IsWhitespace(w[i])
    requires s == [] || !IsWhitespace(s[0])
    ensures TrimStart(w + s) == s
  {
    assert LeadingWhitespace(w + s) == |w|;
    assert (w + s)[|w|..] == s;
  }

  // ---------------------------------------------------------------------------
  // Integers as decimal text

  function DigitChar(d: nat): (c: char)
    requires d < 10
    ensures '0' <= c <= '9'
  {
    ('0' as int + d) as char
  }

  function DigitValue(c: char): nat {
    if '0' <= c <= '9' then c as int - '0' as int else 0
  }

  /** The decimal digits of `n`, without leading zeros. */
  function NatToString(n: nat): (s: string)
    ensures |s| >= 1
    ensures forall i :: 0 <= i < |s| ==> '0' <= s[i] <= '9'
    decreases n
  {
    if n < 10 then [DigitChar(n)] else NatToString(n / 10) + [DigitChar(n % 10)]
  }

  /** ``${i}`` for an integer: a minus sign before the digits of a negative number. */
  function IntToString(i: int): (s: string)
    ensures |s| >= 1
    ensures forall k :: 0 <= k < |s| ==> s[k] == '-' || '0' <= s[k] <= '9'
  {
    if i < 0 then "-" + NatToString(-i) else NatToString(i)
  }

  /** The value of a string of decimal digits. */
  function ParseDigits(s: string): nat
    decreases |s|
  {
    if s == [] then 0 else ParseDigits(s[..|s| - 1]) * 10 + DigitValue(s[|s| - 1])
  }

  /** `Number(s)` on the strings `IntToString` produces. */
  function ParseInt(s: string): int {
    if |s| > 0 && s[0] == '-' then 0 - ParseDigits(s[1..]) else ParseDigits(s)
  }

  lemma {:induction false} ParseNatToString(n: nat)
    ensures ParseDigits(NatToString(n)) == n
    decreases n
  {
    if n >= 10 {
      ParseNatToString(n / 10);
      var s := NatToString(n / 10) + [DigitChar(n % 10)];
      assert s[..|s| - 1] == NatToString(n / 10);
    }
  }

  /** Printing an integer and reading it back with `Number` gives the integer. */
  lemma ParseIntToString(i: int)
    ensures ParseInt(IntToString(i)) == i
  {
    if i < 0 {
      ParseNatToString(-i);
      assert ("-" + NatToString(-i))[1..] == NatToString(-i);
    } else {
      ParseNatToString(i);
    }
  }

  // ---------------------------------------------------------------------------
  // Order on strings (the stand-in for localeCompare)

  /** `a` comes no later than `b` in code-point lexicographic order. */
  predicate LexLe(a: string, b: string)
    decreases |a|
  {
    a == [] || (b != [] && (a[0] < b[0] || (a[0] == b[0] && LexLe(a[1..], b[1..]))))
  }

  lemma {:induction false} LexLeTotal(a: string, b: string)
    ensures LexLe(a, b) || LexLe(b, a)
    decreases |a|
  {
    if a != [] && b != [] && a[0] == b[0] {
      LexLeTotal(a[1..], b[1..]);
    }
  }

  lemma {:induction false} LexLeTransitive(a: string, b: string, c: string)
    requires LexLe(a, b) && LexLe(b, c)
    ensures LexLe(a, c)
    decreases |a|
  {
    if a != [] && a[0] == b[0] && b[0] == c[0] {
      LexLeTransitive(a[1..], b[1..], c[1..]);
    }
  }
}
