/**
 * The JavaScript built-ins the tab code leans on, written out so that the
 * models of the source files can state exactly what they compute:
 * `trim`, `toUpperCase` (ASCII letters only), `startsWith`/`endsWith`,
 * `replace` of a first occurrence, `split` on a character and on `/\s+/`,
 * `parseInt(_, 10)`, number-to-string conversion, `join`, `indexOf` and the
 * truncating remainder operator `%`.
 */
module JsBuiltins {
  import opened Wrappers

  // ---------------------------------------------------------------------------
  // Characters

  /** The characters matched by the regular expression class `\s`; `trim` removes the same set. */
  predicate IsWhitespace(c: char) {
    c == ' ' || c == '\t' || c == '\n' || c == '\r' || c == '\U{B}' || c == '\U{C}'
    || c == '\U{A0}' || c == '\U{1680}' || ('\U{2000}' <= c <= '\U{200A}')
    || c == '\U{2028}' || c == '\U{2029}' || c == '\U{202F}' || c == '\U{205F}'
    || c == '\U{3000}' || c == '\U{FEFF}'
  }

  predicate IsDigit(c: char) {
    48 <= c as int <= 57
  }

  /** The regular expression class `\w`: ASCII letters, digits and the underscore. */
  predicate IsWordChar(c: char) {
    ('a' <= c <= 'z') || ('A' <= c <= 'Z') || IsDigit(c) || c == '_'
  }

  function UpperChar(c: char): char {
    if 'a' <= c <= 'z' then (c as int - 32) as char else c
  }

  // ---------------------------------------------------------------------------
  // Whole strings

  /**
   * `toUpperCase`, for ASCII letters: no lower-case letter is left, each
   * lower-case letter becomes its capital (32 code points lower), and every
   * other character stays where and what it was.
   */
  function ToUpper(s: string): (r: string)
    ensures |r| == |s|
    ensures forall i :: 0 <= i < |r| ==> !('a' <= r[i] <= 'z')
    ensures forall i :: 0 <= i < |s| && 'a' <= s[i] <= 'z' ==> r[i] as int == s[i] as int - 32
    ensures forall i :: 0 <= i < |s| && !('a' <= s[i] <= 'z') ==> r[i] == s[i]
  {
    seq(|s|, i requires 0 <= i < |s| => UpperChar(s[i]))
  }

  function TrimStart(s: string): (r: string)
    ensures |r| <= |s| && r == s[|s| - |r|..]
    ensures r == [] || !IsWhitespace(r[0])
    ensures forall i :: 0 <= i < |s| - |r| ==> IsWhitespace(s[i])
  {
    if |s| > 0 && IsWhitespace(s[0]) then TrimStart(s[1..]) else s
  }

  function TrimEnd(s: string): (r: string)
    ensures |r| <= |s| && r == s[..|r|]
    ensures r == [] || !IsWhitespace(r[|r| - 1])
    ensures forall i :: |r| <= i < |s| ==> IsWhitespace(s[i])
  {
    if |s| > 0 && IsWhitespace(s[|s| - 1]) then TrimEnd(s[..|s| - 1]) else s
  }

  /** `trim`: leading and trailing whitespace removed. */
  function Trim(s: string): (r: string)
    ensures r == [] || (!IsWhitespace(r[0]) && !IsWhitespace(r[|r| - 1]))
  {
    TrimEnd(TrimStart(s))
  }

  predicate StartsWith(s: string, prefix: string) {
    |prefix| <= |s| && s[..|prefix|] == prefix
  }

  predicate EndsWith(s: string, suffix: string) {
    |suffix| <= |s| && s[|s| - |suffix|..] == suffix
  }

  predicate OccursAt(s: string, pat: string, k: nat) {
    k + |pat| <= |s| && s[k..k + |pat|] == pat
  }

  /** The first position at or after `from` where `pat` occurs in `s`. */
  function FindFrom(s: string, pat: string, from: nat): (r: Option<nat>)
    requires from <= |s|
    decreases |s| - from
    ensures r.Some? ==> from <= r.value && OccursAt(s, pat, r.value)
    ensures r.Some? ==> forall k :: from <= k < r.value ==> !OccursAt(s, pat, k)
    ensures r.None? ==> forall k :: from <= k <= |s| ==> !OccursAt(s, pat, k)
  {
    if from + |pat| > |s| then None
    else if s[from..from + |pat|] == pat then Some(from)
    else if from == |s| then None
    else FindFrom(s, pat, from + 1)
  }

  /** `s.replace(pat, "")` with a string pattern: only the first occurrence is removed. */
  function RemoveFirst(s: string, pat: string): string {
    match FindFrom(s, pat, 0)
    case None => s
    case Some(k) => s[..k] + s[k + |pat|..]
  }

  lemma {:induction false} RemoveFirstOfPrefix(s: string, pat: string)
    requires StartsWith(s, pat)
    ensures RemoveFirst(s, pat) == s[|pat|..]
  {
    assert OccursAt(s, pat, 0);
  }

  /** `s.replace(/[^\w]/g, "")`. */
  function KeepWordChars(s: string): (r: string)
    ensures forall i :: 0 <= i < |r| ==> IsWordChar(r[i])
  {
    if s == [] then []
    else if IsWordChar(s[0]) then [s[0]] + KeepWordChars(s[1..])
    else KeepWordChars(s[1..])
  }

  /** Removing the non-word characters of a single character keeps it exactly when it is a word character. */
  lemma {:induction false} KeepWordCharsOne(c: char)
    ensures IsWordChar(c) ==> KeepWordChars([c]) == [c]
    ensures !IsWordChar(c) ==> KeepWordChars([c]) == []
  {
    assert [c][1..] == [];
  }

  /** The regular-expression replace works character by character, so it distributes over concatenation. */
  lemma {:induction false} KeepWordCharsAppend(a: string, b: string)
    decreases |a|
    ensures KeepWordChars(a + b) == KeepWordChars(a) + KeepWordChars(b)
  {
    if a != [] {
      assert (a + b)[0] == a[0] && (a + b)[1..] == a[1..] + b;
      KeepWordCharsAppend(a[1..], b);
    } else {
      assert a + b == b;
    }
  }

  // ---------------------------------------------------------------------------
  // Splitting and joining

  /** Splitting at every character satisfying `isSep`; `split` with a one-character separator. */
  function SplitWhen(s: string, isSep: char -> bool): (r: seq<string>)
    ensures |r| >= 1
  {
    if s == [] then [""]
    else
      var rest := SplitWhen(s[1..], isSep);
      if isSep(s[0]) then [""] + rest else [[s[0]] + rest[0]] + rest[1..]
  }

  function Split(s: string, sep: char): (r: seq<string>)
    ensures |r| >= 1
  {
    SplitWhen(s, c => c == sep)
  }

  function DropEmpty(parts: seq<string>): (r: seq<string>)
    ensures forall i :: 0 <= i < |r| ==> r[i] != []
  {
    if parts == [] then []
    else if parts[0] == [] then DropEmpty(parts[1..])
    else [parts[0]] + DropEmpty(parts[1..])
  }

  /**
   * `s.split(/\s+/)`: a run of whitespace separates two pieces, so only a
   * leading or a trailing run yields an empty first or last piece.
   */
  function SplitWhitespace(s: string): (r: seq<string>)
    ensures |r| >= 1
  {
    var parts := SplitWhen(s, IsWhitespace);
    if |parts| <= 2 then parts
    else [parts[0]] + DropEmpty(parts[1..|parts| - 1]) + [parts[|parts| - 1]]
  }

  function Join(parts: seq<string>, sep: string): string {
    if parts == [] then ""
    else if |parts| == 1 then parts[0]
    else parts[0] + sep + Join(parts[1..], sep)
  }

  lemma {:induction false} JoinSplitWhen(s: string, isSep: char -> bool, sep: char)
    requires forall c :: isSep(c) <==> c == sep
    ensures Join(SplitWhen(s, isSep), [sep]) == s
    ensures forall i :: 0 <= i < |SplitWhen(s, isSep)| ==> sep !in SplitWhen(s, isSep)[i]
  {
    if s != [] {
      var rest := SplitWhen(s[1..], isSep);
      JoinSplitWhen(s[1..], isSep, sep);
      if isSep(s[0]) {
        assert SplitWhen(s, isSep) == [""] + rest;
        assert ([""] + rest)[1..] == rest;
      } else {
        var r := [[s[0]] + rest[0]] + rest[1..];
        assert SplitWhen(s, isSep) == r;
        if |rest| == 1 {
          assert r == [[s[0]] + rest[0]];
        } else {
          assert r[1..] == rest[1..];
          assert Join(rest, [sep]) == rest[0] + [sep] + Join(rest[1..], [sep]);
        }
        assert forall i :: 1 <= i < |r| ==> r[i] == rest[i];
      }
    }
  }

  /** `split` and `join` with the same one-character separator undo each other. */
  lemma {:induction false} SplitJoin(s: string, sep: char)
    ensures Join(Split(s, sep), [sep]) == s
    ensures forall i :: 0 <= i < |Split(s, sep)| ==> sep !in Split(s, sep)[i]
  {
    JoinSplitWhen(s, c => c == sep, sep);
  }

  /** A piece with no separator in it is glued onto the first piece of what follows. */
  lemma {:induction false} SplitWhenPrefix(p: string, s: string, isSep: char -> bool)
    requires forall i :: 0 <= i < |p| ==> !isSep(p[i])
    decreases |p|
    ensures SplitWhen(p + s, isSep) == [p + SplitWhen(s, isSep)[0]] + SplitWhen(s, isSep)[1..]
  {
    if p == [] {
      assert p + s == s && p + SplitWhen(s, isSep)[0] == SplitWhen(s, isSep)[0];
      assert [SplitWhen(s, isSep)[0]] + SplitWhen(s, isSep)[1..] == SplitWhen(s, isSep);
    } else {
      assert (p + s)[0] == p[0] && (p + s)[1..] == p[1..] + s;
      SplitWhenPrefix(p[1..], s, isSep);
      var rest := SplitWhen(p[1..] + s, isSep);
      assert rest[0] == p[1..] + SplitWhen(s, isSep)[0] && rest[1..] == SplitWhen(s, isSep)[1..];
      assert !isSep(p[0]);
      assert SplitWhen(p + s, isSep) == [[p[0]] + rest[0]] + rest[1..];
      assert [p[0]] + (p[1..] + SplitWhen(s, isSep)[0]) == p + SplitWhen(s, isSep)[0];
    }
  }

  /** Splitting pieces that hold no separator, joined by one, gives the pieces back. */
  lemma {:induction false} SplitWhenJoin(parts: seq<string>, isSep: char -> bool, sep: char)
    requires |parts| >= 1 && isSep(sep)
    requires forall k, i :: 0 <= k < |parts| && 0 <= i < |parts[k]| ==> !isSep(parts[k][i])
    decreases |parts|
    ensures SplitWhen(Join(parts, [sep]), isSep) == parts
  {
    if |parts| == 1 {
      assert Join(parts, [sep]) == parts[0] + [];
      SplitWhenPrefix(parts[0], [], isSep);
    } else {
      var rest := Join(parts[1..], [sep]);
      assert Join(parts, [sep]) == parts[0] + ([sep] + rest);
      SplitWhenPrefix(parts[0], [sep] + rest, isSep);
      assert ([sep] + rest)[1..] == rest;
      SplitWhenJoin(parts[1..], isSep, sep);
      assert SplitWhen([sep] + rest, isSep) == [""] + parts[1..];
      assert parts[0] + "" == parts[0];
      assert [parts[0]] + parts[1..] == parts;
    }
  }

  /** `split` undoes `join` when no piece holds the separator. */
  lemma {:induction false} SplitOfJoin(parts: seq<string>, sep: char)
    requires |parts| >= 1
    requires forall k :: 0 <= k < |parts| ==> sep !in parts[k]
    ensures Split(Join(parts, [sep]), sep) == parts
  {
    SplitWhenJoin(parts, c => c == sep, sep);
  }

  lemma {:induction false} DropEmptyOfNonEmpty(parts: seq<string>)
    requires forall k :: 0 <= k < |parts| ==> parts[k] != []
    decreases |parts|
    ensures DropEmpty(parts) == parts
  {
    if parts != [] {
      DropEmptyOfNonEmpty(parts[1..]);
    }
  }

  /** Splitting on whitespace undoes joining non-empty, whitespace-free tokens with one space. */
  lemma {:induction false} SplitWhitespaceOfJoin(tokens: seq<string>)
    requires |tokens| >= 1
    requires forall k :: 0 <= k < |tokens| ==> tokens[k] != []
    requires forall k, i :: 0 <= k < |tokens| && 0 <= i < |tokens[k]| ==> !IsWhitespace(tokens[k][i])
    ensures SplitWhitespace(Join(tokens, " ")) == tokens
  {
    SplitWhenJoin(tokens, IsWhitespace, ' ');
    if |tokens| > 2 {
      DropEmptyOfNonEmpty(tokens[1..|tokens| - 1]);
      assert [tokens[0]] + tokens[1..|tokens| - 1] + [tokens[|tokens| - 1]] == tokens;
    }
  }

  // ---------------------------------------------------------------------------
  // Numbers

  /**
   * JavaScript's `%`: the remainder takes the sign of the dividend. A
   * negative dividend with a non-zero Euclidean remainder `m` leaves `m - b`.
   */
  function JsRem(a: int, b: int): (r: int)
    requires b > 0
    ensures a >= 0 ==> r == a % b
    ensures a < 0 ==> -b < r <= 0 && (r == 0 <==> a % b == 0)
  {
    if a >= 0 || a % b == 0 then a % b else a % b - b
  }

  function DigitChar(d: nat): char
    requires d < 10
  {
    ('0' as int + d) as char
  }

  function DigitValue(c: char): nat
    requires IsDigit(c)
  {
    c as int - '0' as int
  }

  predicate AllDigits(s: string) {
    forall i :: 0 <= i < |s| ==> IsDigit(s[i])
  }

  /** The value of a string of decimal digits, most significant first. */
  function DigitsValue(ds: string): nat
    requires AllDigits(ds)
  {
    if ds == [] then 0 else DigitsValue(ds[..|ds| - 1]) * 10 + DigitValue(ds[|ds| - 1])
  }

  /** The longest prefix of `s` made of digits. */
  function LeadingDigits(s: string): (r: string)
    ensures |r| <= |s| && r == s[..|r|] && AllDigits(r)
    ensures |r| == |s| || !IsDigit(s[|r|])
  {
    if s != [] && IsDigit(s[0]) then [s[0]] + LeadingDigits(s[1..]) else []
  }

  /**
   * `parseInt(s, 10)`: leading whitespace, an optional sign, then as many
   * digits as there are; `None` stands for `NaN` (no digit at all).
   */
  function ParseInt(s: string): Option<int> {
    var t := TrimStart(s);
    var negative := |t| > 0 && t[0] == '-';
    var body := if |t| > 0 && (t[0] == '-' || t[0] == '+') then t[1..] else t;
    var ds := LeadingDigits(body);
    var v: int := if ds == [] then 0 else DigitsValue(ds);
    if ds == [] then None
    else if negative then Some(-v)
    else Some(v)
  }

  /** The decimal spelling of a natural number, as `String(n)` gives it. */
  function NatToString(n: nat): (r: string)
    ensures |r| >= 1 && AllDigits(r)
  {
    if n < 10 then [DigitChar(n)] else NatToString(n / 10) + [DigitChar(n % 10)]
  }

  function IntToString(i: int): (r: string)
    ensures |r| >= 1
  {
    if i < 0 then "-" + NatToString(-i) else NatToString(i)
  }

  lemma {:induction false} DigitsValueOfNatToString(n: nat)
    ensures DigitsValue(NatToString(n)) == n
  {
    if n >= 10 {
      var s := NatToString(n);
      assert s[..|s| - 1] == NatToString(n / 10);
      DigitsValueOfNatToString(n / 10);
    }
  }

  /** Reading back a spelled-out integer gives the integer. */
  lemma {:induction false} ParseIntOfIntToString(i: int)
    ensures ParseInt(IntToString(i)) == Some(i)
  {
    var n: nat := if i < 0 then -i else i;
    var ds := NatToString(n);
    var t := IntToString(i);
    assert TrimStart(t) == t by {
      assert IsDigit(ds[0]);
    }
    LeadingDigitsOfDigits(ds);
    DigitsValueOfNatToString(n);
    if i < 0 {
      assert t[1..] == ds;
    } else {
      assert t == ds;
    }
  }

  lemma {:induction false} LeadingDigitsOfDigits(s: string)
    requires AllDigits(s)
    ensures LeadingDigits(s) == s
  {
    if s != [] {
      LeadingDigitsOfDigits(s[1..]);
    }
  }

  lemma {:induction false} NatToStringInjective(m: nat, n: nat)
    requires NatToString(m) == NatToString(n)
    ensures m == n
  {
    DigitsValueOfNatToString(m);
    DigitsValueOfNatToString(n);
  }

  function NumbersToStrings(xs: seq<int>): seq<string> {
    if xs == [] then [] else [IntToString(xs[0])] + NumbersToStrings(xs[1..])
  }

  /** `xs.join(sep)` on an array of numbers. */
  function JoinNumbers(xs: seq<int>, sep: string): string {
    Join(NumbersToStrings(xs), sep)
  }

  lemma {:induction false} JoinNonEmpty(parts: seq<string>, sep: string)
    requires parts != []
    ensures Join(parts, sep) == parts[0] + (if |parts| == 1 then "" else sep + Join(parts[1..], sep))
  {
  }

  /**
   * Joining with "-" loses nothing when the second list has no negative
   * number: a negative number would put a "-" where a digit stands.
   */
  lemma {:induction false} JoinNumbersDashInjective(xs: seq<int>, ys: seq<int>)
    requires forall i :: 0 <= i < |ys| ==> ys[i] >= 0
    requires JoinNumbers(xs, "-") == JoinNumbers(ys, "-")
    ensures xs == ys
  {
    var ps, qs := NumbersToStrings(xs), NumbersToStrings(ys);
    if xs == [] || ys == [] {
      if xs != [] {
        JoinNonEmpty(ps, "-");
      }
      if ys != [] {
        JoinNonEmpty(qs, "-");
      }
    } else {
      JoinNonEmpty(ps, "-");
      JoinNonEmpty(qs, "-");
      var a, b := ps[0], qs[0];
      var r1 := if |ps| == 1 then "" else "-" + Join(ps[1..], "-");
      var r2 := if |qs| == 1 then "" else "-" + Join(qs[1..], "-");
      var s := a + r1;
      assert s == b + r2;
      assert b == NatToString(ys[0]);
      assert forall k :: 0 <= k < |b| ==> s[k] == b[k];
      assert a[0] == s[0] && IsDigit(s[0]);
      assert xs[0] >= 0;  // a signed spelling would start with '-'
      assert a == NatToString(xs[0]);
      assert forall k :: 0 <= k < |a| ==> s[k] == a[k];
      assert |a| == |s| || s[|a|] == '-';
      assert |b| == |s| || s[|b|] == '-';
      assert |a| == |b|;
      assert a == s[..|a|] == b;
      NatToStringInjective(xs[0], ys[0]);
      assert r1 == s[|a|..] == r2;
      if |ps| > 1 {
        assert r2 != [];
        assert Join(ps[1..], "-") == r1[1..] == r2[1..] == Join(qs[1..], "-");
        assert ps[1..] == NumbersToStrings(xs[1..]);
        assert qs[1..] == NumbersToStrings(ys[1..]);
        JoinNumbersDashInjective(xs[1..], ys[1..]);
      } else {
        assert r2 == [];
      }
    }
  }

  // ---------------------------------------------------------------------------
  // Searching

  /**
   * The first position at or after `from` holding `x`, or -1. What the
   * result means is stated by the lemmas below rather than here, so that a
   * lookup in a fixed table does not drag those facts into every proof.
   */
  function IndexOfFrom<T(==)>(xs: seq<T>, x: T, from: nat): (r: int)
    requires from <= |xs|
    decreases |xs| - from
    ensures r == -1 || from <= r < |xs|
  {
    if from == |xs| then -1
    else if xs[from] == x then from
    else IndexOfFrom(xs, x, from + 1)
  }

  /** `xs.indexOf(x)`: the first position of `x`, or -1. */
  function IndexOf<T(==)>(xs: seq<T>, x: T): (r: int)
    ensures -1 <= r < |xs|
  {
    IndexOfFrom(xs, x, 0)
  }

  lemma {:induction false} IndexOfFromIsFirst<T>(xs: seq<T>, x: T, from: nat)
    requires from <= |xs|
    decreases |xs| - from
    ensures IndexOfFrom(xs, x, from) >= 0 ==>
      xs[IndexOfFrom(xs, x, from)] == x && x !in xs[from..IndexOfFrom(xs, x, from)]
    ensures IndexOfFrom(xs, x, from) == -1 <==> x !in xs[from..]
  {
    if from < |xs| && xs[from] != x {
      IndexOfFromIsFirst(xs, x, from + 1);
      var k := IndexOfFrom(xs, x, from + 1);
      assert xs[from..] == [xs[from]] + xs[from + 1..];
      assert k >= 0 ==> xs[from..k] == [xs[from]] + xs[from + 1..k];
    }
  }

  /** `indexOf` finds `x` exactly when it occurs, and then at no earlier position. */
  lemma {:induction false} IndexOfIsFirst<T>(xs: seq<T>, x: T)
    ensures IndexOf(xs, x) >= 0 ==> xs[IndexOf(xs, x)] == x && x !in xs[..IndexOf(xs, x)]
    ensures IndexOf(xs, x) == -1 <==> x !in xs
  {
    IndexOfFromIsFirst(xs, x, 0);
    assert xs[0..] == xs;
    var r := IndexOf(xs, x);
    assert r >= 0 ==> xs[0..r] == xs[..r];
  }

  /** A position holding `x` with no earlier occurrence is what `indexOf` returns. */
  lemma {:induction false} IndexOfFirstOccurrence<T>(xs: seq<T>, x: T, i: nat)
    requires i < |xs| && xs[i] == x && x !in xs[..i]
    ensures IndexOf(xs, x) == i
  {
    IndexOfIsFirst(xs, x);
    assert xs[..i + 1][i] == x;
  }
}
