/**
 * The java.lang.String and java.lang.Long operations the application relies on,
 * written out as functions on sequences of characters: trim, toLowerCase,
 * replace, startsWith, lastIndexOf, split (with and without a limit) and
 * Long.parseLong.
 */
module JavaText {
  import opened Wrappers

  // ---------------------------------------------------------------------------
  // trim
  // ---------------------------------------------------------------------------

  /** String.trim removes every leading and trailing char at or below U+0020. */
  predicate IsTrimmed(c: char) {
    c <= ' '
  }

  /** A string that String.trim turns into "" (every char at or below U+0020). */
  predicate IsBlank(s: string) {
    forall i :: 0 <= i < |s| ==> IsTrimmed(s[i])
  }

  function TrimStart(s: string): (r: string)
    ensures |r| <= |s| && r == s[|s| - |r|..]
    ensures r == [] || !IsTrimmed(r[0])
    decreases |s|
  {
    if s != [] && IsTrimmed(s[0]) then TrimStart(s[1..]) else s
  }

  function TrimEnd(s: string): (r: string)
    ensures |r| <= |s| && r == s[..|r|]
    ensures r == [] || !IsTrimmed(r[|r| - 1])
    decreases |s|
  {
    if s != [] && IsTrimmed(s[|s| - 1]) then TrimEnd(s[..|s| - 1]) else s
  }

  /** What TrimStart drops is blank. */
  lemma {:induction false} TrimStartDropsBlanks(s: string)
    ensures IsBlank(s[..|s| - |TrimStart(s)|])
    decreases |s|
  {
    if s != [] && IsTrimmed(s[0]) {
      TrimStartDropsBlanks(s[1..]);
      var n := |s| - |TrimStart(s)|;
      assert forall i :: 1 <= i < n ==> s[..n][i] == s[1..][..n - 1][i - 1];
    }
  }

  /** What TrimEnd drops is blank. */
  lemma {:induction false} TrimEndDropsBlanks(s: string)
    ensures IsBlank(s[|TrimEnd(s)|..])
    decreases |s|
  {
    if s != [] && IsTrimmed(s[|s| - 1]) {
      TrimEndDropsBlanks(s[..|s| - 1]);
      var n := |TrimEnd(s)|;
      assert forall i :: n <= i < |s| - 1 ==> s[i] == s[..|s| - 1][i];
    }
  }

  /** String.trim: the longest infix that neither starts nor ends with a char at or below U+0020. */
  function Trim(s: string): (r: string)
    ensures |r| <= |s|
    ensures r == [] || (!IsTrimmed(r[0]) && !IsTrimmed(r[|r| - 1]))
  {
    var t := TrimStart(s);
    var r := TrimEnd(t);
    assert r == [] || r[0] == t[0];
    r
  }

  /** Trim gives "" exactly for a blank string. */
  lemma TrimEmptyIffBlank(s: string)
    ensures Trim(s) == [] <==> IsBlank(s)
  {
    var t := TrimStart(s);
    var k := |s| - |t|;
    if !IsBlank(s) {
      TrimStartDropsBlanks(s);
      assert s == s[..k] + t;
      BlankAppend(s[..k], t);
      TrimEndOfNonBlank(t);
    }
  }

  /** TrimEnd of a string that is not blank is not empty. */
  lemma TrimEndOfNonBlank(t: string)
    requires !IsBlank(t)
    ensures TrimEnd(t) != []
  {
    TrimEndDropsBlanks(t);
    assert t[0..] == t;
  }

  /** A concatenation is blank exactly when both parts are. */
  lemma BlankAppend(a: string, b: string)
    ensures IsBlank(a + b) <==> IsBlank(a) && IsBlank(b)
  {
    if IsBlank(a + b) {
      assert forall i :: 0 <= i < |a| ==> a[i] == (a + b)[i];
      assert forall i :: 0 <= i < |b| ==> b[i] == (a + b)[|a| + i];
    }
  }

  /** The infix Trim keeps lies between two blank stretches of s. */
  lemma TrimIsInfix(s: string)
    ensures exists i :: 0 <= i <= |s| - |Trim(s)| && s == s[..i] + Trim(s) + s[i + |Trim(s)|..]
                        && IsBlank(s[..i]) && IsBlank(s[i + |Trim(s)|..])
  {
    var t := TrimStart(s);
    var i := |s| - |t|;
    var r := TrimEnd(t);
    assert r == Trim(s);
    TrimStartDropsBlanks(s);
    TrimEndDropsBlanks(t);
    PrefixOfSuffix(s, i, t, r);
    assert 0 <= i <= |s| - |r| && s == s[..i] + r + s[i + |r|..] && IsBlank(s[..i]) && IsBlank(s[i + |r|..]);
  }

  /** A prefix r of the suffix t of s from i sits in s between s[..i] and what follows it in t. */
  lemma PrefixOfSuffix<T>(s: seq<T>, i: nat, t: seq<T>, r: seq<T>)
    requires i <= |s| && t == s[i..] && |r| <= |t| && r == t[..|r|]
    ensures s == s[..i] + r + s[i + |r|..] && s[i + |r|..] == t[|r|..]
  {
    assert s == s[..i] + s[i..i + |r|] + s[i + |r|..];
  }

  /** Trimming twice is trimming once. */
  lemma TrimIdempotent(s: string)
    ensures Trim(Trim(s)) == Trim(s)
  {
    TrimKeepsTrimmed(Trim(s));
  }

  /** A string that neither starts nor ends with a char at or below U+0020 is its own trim. */
  lemma TrimKeepsTrimmed(s: string)
    requires s == [] || (!IsTrimmed(s[0]) && !IsTrimmed(s[|s| - 1]))
    ensures Trim(s) == s
  {
    if s != [] {
      assert TrimStart(s) == s;
      assert TrimEnd(s) == s;
    }
  }

  /** Blank padding on either side does not change the trimmed text. */
  lemma {:induction false} TrimIgnoresPadding(left: string, s: string, right: string)
    requires IsBlank(left) && IsBlank(right)
    ensures Trim(left + s + right) == Trim(s)
  {
    assert left + s + right == left + (s + right);
    TrimStartSkipsBlank(left, s + right);
    assert TrimStart(left + s + right) == TrimStart(s + right);
    var t := TrimStart(s + right);
    if TrimStart(s) == [] {
      TrimStartDropsBlanks(s);
      assert s[..|s|] == s;
      BlankAppend(s, right);
      TrimStartOfBlank(s + right);
    } else {
      TrimStartIgnoresSuffix(s, right);
      TrimEndSkipsBlank(TrimStart(s), right);
    }
  }

  /** A blank string trims to nothing at its start. */
  lemma {:induction false} TrimStartOfBlank(s: string)
    requires IsBlank(s)
    ensures TrimStart(s) == []
    decreases |s|
  {
    if s != [] {
      TrimStartOfBlank(s[1..]);
    }
  }

  lemma {:induction false} TrimStartSkipsBlank(left: string, s: string)
    requires IsBlank(left)
    ensures TrimStart(left + s) == TrimStart(s)
    decreases |left|
  {
    if left != [] {
      assert (left + s)[1..] == left[1..] + s;
      TrimStartSkipsBlank(left[1..], s);
    } else {
      assert left + s == s;
    }
  }

  lemma {:induction false} TrimStartIgnoresSuffix(s: string, right: string)
    requires TrimStart(s) != []
    ensures TrimStart(s + right) == TrimStart(s) + right
    decreases |s|
  {
    assert s != [];
    if IsTrimmed(s[0]) {
      assert (s + right)[1..] == s[1..] + right;
      TrimStartIgnoresSuffix(s[1..], right);
    }
  }

  lemma {:induction false} TrimEndSkipsBlank(s: string, right: string)
    requires IsBlank(right)
    ensures TrimEnd(s + right) == TrimEnd(s)
    decreases |right|
  {
    if right == [] {
      assert s + right == s;
    } else {
      var shorter := right[..|right| - 1];
      assert (s + right)[..|s + right| - 1] == s + shorter;
      TrimEndSkipsBlank(s, shorter);
    }
  }

  // ---------------------------------------------------------------------------
  // toLowerCase, startsWith, lastIndexOf
  // ---------------------------------------------------------------------------

  /** Lower-casing of one char (the ASCII letters; every other char is its own lower case here). */
  function LowerChar(c: char): char {
    if 'A' <= c <= 'Z' then (c as int - 'A' as int + 'a' as int) as char else c
  }

  /** String.toLowerCase, char by char. */
  function ToLowerCase(s: string): (r: string)
    ensures |r| == |s|
    ensures forall i :: 0 <= i < |s| ==> r[i] == LowerChar(s[i])
  {
    seq(|s|, i requires 0 <= i < |s| => LowerChar(s[i]))
  }

  /** A lower-cased string holds no upper-case ASCII letter, so lower-casing it again changes nothing. */
  lemma ToLowerCaseIdempotent(s: string)
    ensures forall i :: 0 <= i < |s| ==> !('A' <= ToLowerCase(s)[i] <= 'Z')
    ensures ToLowerCase(ToLowerCase(s)) == ToLowerCase(s)
  {
  }

  /** Lower-casing keeps blank chars blank and the others non-blank, so it commutes with trim. */
  lemma LowerCaseCommutesWithTrim(s: string)
    ensures ToLowerCase(Trim(s)) == Trim(ToLowerCase(s))
  {
    LowerCaseCommutesWithTrimStart(s);
    LowerCaseCommutesWithTrimEnd(TrimStart(s));
  }

  lemma {:induction false} LowerCaseCommutesWithTrimStart(s: string)
    ensures ToLowerCase(TrimStart(s)) == TrimStart(ToLowerCase(s))
    decreases |s|
  {
    if s != [] {
      assert ToLowerCase(s)[1..] == ToLowerCase(s[1..]);
      LowerCaseCommutesWithTrimStart(s[1..]);
    }
  }

  lemma {:induction false} LowerCaseCommutesWithTrimEnd(s: string)
    ensures ToLowerCase(TrimEnd(s)) == TrimEnd(ToLowerCase(s))
    decreases |s|
  {
    if s != [] {
      assert ToLowerCase(s)[..|s| - 1] == ToLowerCase(s[..|s| - 1]);
      LowerCaseCommutesWithTrimEnd(s[..|s| - 1]);
    }
  }

  /** String.startsWith. */
  predicate StartsWith(s: string, prefix: string) {
    |prefix| <= |s| && s[..|prefix|] == prefix
  }

  /** A text starts with prefix exactly when it is prefix followed by something. */
  lemma StartsWithIffPrefixed(s: string, prefix: string, rest: string)
    ensures StartsWith(prefix + rest, prefix)
    ensures StartsWith(s, prefix) ==> s == prefix + s[|prefix|..]
  {
    assert (prefix + rest)[..|prefix|] == prefix;
  }

  /** String.lastIndexOf(c): the last position of c, or None for -1. */
  function LastIndexOf(s: string, c: char): (r: Option<nat>)
    ensures r.None? <==> c !in s
    ensures r.Some? ==> r.value < |s| && s[r.value] == c && c !in s[r.value + 1..]
    decreases |s|
  {
    if s == [] then None
    else if s[|s| - 1] == c then Some(|s| - 1)
    else
      var r := LastIndexOf(s[..|s| - 1], c);
      assert s == s[..|s| - 1] + [s[|s| - 1]];
      assert r.Some? ==> s[r.value + 1..] == s[..|s| - 1][r.value + 1..] + [s[|s| - 1]];
      r
  }

  // ---------------------------------------------------------------------------
  // replace
  // ---------------------------------------------------------------------------

  /**
   * String.replace(target, replacement): every occurrence of target, found
   * left to right without overlap and without rescanning replaced text, is
   * replaced. An empty target matches before every char and at the end.
   */
  function Replace(s: string, target: string, replacement: string): string
    decreases |s|
  {
    if target == [] then
      (if s == [] then replacement else replacement + [s[0]] + Replace(s[1..], target, replacement))
    else if |s| < |target| then s
    else if s[..|target|] == target then replacement + Replace(s[|target|..], target, replacement)
    else [s[0]] + Replace(s[1..], target, replacement)
  }

  /** A text without the first char of a non-empty target holds no occurrence of it: replace changes nothing. */
  lemma {:induction false} ReplaceWithoutOccurrence(s: string, target: string, replacement: string)
    requires target != [] && target[0] !in s
    ensures Replace(s, target, replacement) == s
    decreases |s|
  {
    if |s| >= |target| {
      assert s[..|target|][0] == s[0];
      ReplaceWithoutOccurrence(s[1..], target, replacement);
      assert s == [s[0]] + s[1..];
    }
  }

  /** Replacing a non-empty target by something no longer never makes the text longer. */
  lemma {:induction false} ReplaceNeverGrows(s: string, target: string, replacement: string)
    requires target != [] && |replacement| <= |target|
    ensures |Replace(s, target, replacement)| <= |s|
    decreases |s|
  {
    if |s| >= |target| {
      if s[..|target|] == target {
        ReplaceNeverGrows(s[|target|..], target, replacement);
      } else {
        ReplaceNeverGrows(s[1..], target, replacement);
      }
    }
  }

  // ---------------------------------------------------------------------------
  // split on a single char
  // ---------------------------------------------------------------------------

  /** The pieces of s between consecutive occurrences of sep: one more piece than there are seps. */
  function SplitAt(s: string, sep: char): (r: seq<string>)
    ensures |r| >= 1
    ensures forall i :: 0 <= i < |r| ==> sep !in r[i]
    decreases |s|
  {
    if s == [] then [""]
    else
      var rest := SplitAt(s[1..], sep);
      if s[0] == sep then [""] + rest
      else [[s[0]] + rest[0]] + rest[1..]
  }

  /** Joining pieces back with sep between them. */
  function Join(pieces: seq<string>, sep: char): string
    requires |pieces| >= 1
    decreases |pieces|
  {
    if |pieces| == 1 then pieces[0] else pieces[0] + [sep] + Join(pieces[1..], sep)
  }

  /** SplitAt loses nothing: joining its pieces with sep gives back s. */
  lemma {:induction false} SplitAtJoin(s: string, sep: char)
    ensures Join(SplitAt(s, sep), sep) == s
    decreases |s|
  {
    if s != [] {
      var rest := SplitAt(s[1..], sep);
      SplitAtJoin(s[1..], sep);
      if s[0] == sep {
        assert SplitAt(s, sep)[1..] == rest;
      } else {
        var r := SplitAt(s, sep);
        if |rest| == 1 {
          assert r == [[s[0]] + rest[0]];
        } else {
          assert r[1..] == rest[1..];
          assert Join(rest, sep) == rest[0] + [sep] + Join(rest[1..], sep);
        }
      }
    }
  }

  /** A prefix without sep is glued onto the first piece of what follows it. */
  lemma {:induction false} SplitAtPlainPrefix(p: string, t: string, sep: char)
    requires sep !in p
    ensures SplitAt(p + t, sep) == [p + SplitAt(t, sep)[0]] + SplitAt(t, sep)[1..]
    decreases |p|
  {
    if p == [] {
      assert p + t == t;
      assert p + SplitAt(t, sep)[0] == SplitAt(t, sep)[0];
      assert [SplitAt(t, sep)[0]] + SplitAt(t, sep)[1..] == SplitAt(t, sep);
    } else {
      assert (p + t)[1..] == p[1..] + t;
      SplitAtPlainPrefix(p[1..], t, sep);
      assert [p[0]] + (p[1..] + SplitAt(t, sep)[0]) == p + SplitAt(t, sep)[0];
    }
  }

  /** A string made of n copies of c. */
  function Repeat(c: char, n: nat): (r: string)
    ensures |r| == n && forall i :: 0 <= i < n ==> r[i] == c
  {
    if n == 0 then [] else [c] + Repeat(c, n - 1)
  }

  /** A sequence of n empty strings. */
  function Empties(n: nat): (r: seq<string>)
    ensures |r| == n && forall i :: 0 <= i < n ==> r[i] == ""
  {
    if n == 0 then [] else [""] + Empties(n - 1)
  }

  /** n separators in a row give n + 1 empty pieces. */
  lemma {:induction false} SplitAtSeparators(n: nat, sep: char)
    ensures SplitAt(Repeat(sep, n), sep) == Empties(n + 1)
  {
    if n > 0 {
      SplitAtSeparators(n - 1, sep);
      assert Repeat(sep, n)[1..] == Repeat(sep, n - 1);
    }
  }

  /** Drops the empty strings at the end of a list, as String.split does with a zero limit. */
  function DropTrailingEmpty(xs: seq<string>): (r: seq<string>)
    ensures |r| <= |xs| && r == xs[..|r|]
    ensures r == [] || r[|r| - 1] != ""
    ensures forall i :: |r| <= i < |xs| ==> xs[i] == ""
    decreases |xs|
  {
    if xs != [] && xs[|xs| - 1] == "" then DropTrailingEmpty(xs[..|xs| - 1]) else xs
  }

  lemma {:induction false} DropTrailingEmptyAfter(xs: seq<string>, n: nat)
    requires xs == [] || xs[|xs| - 1] != ""
    ensures DropTrailingEmpty(xs + Empties(n)) == xs
  {
    if n > 0 {
      assert (xs + Empties(n))[..|xs + Empties(n)| - 1] == xs + Empties(n - 1);
      DropTrailingEmptyAfter(xs, n - 1);
    } else {
      assert xs + Empties(n) == xs;
    }
  }

  /**
   * String.split(regex) for a regex that matches exactly the char sep (such as "\\."):
   * the input itself when sep never occurs, otherwise the pieces with trailing
   * empty strings removed.
   */
  function JavaSplit(s: string, sep: char): (r: seq<string>)
    ensures forall i :: 0 <= i < |r| ==> sep !in r[i]
  {
    if sep !in s then [s] else DropTrailingEmpty(SplitAt(s, sep))
  }

  /** Joining n + 1 empty pieces gives the n separators that stood between them. */
  lemma {:induction false} JoinEmpties(n: nat, sep: char)
    ensures Join(Empties(n + 1), sep) == Repeat(sep, n)
  {
    if n > 0 {
      assert Empties(n + 1)[1..] == Empties(n);
      JoinEmpties(n - 1, sep);
    }
  }

  /** Two pieces followed by m empty ones join to the pieces around one sep, then m more seps. */
  lemma JoinTwoThenEmpties(a: string, b: string, m: nat, sep: char)
    ensures Join([a, b] + Empties(m), sep) == a + [sep] + b + Repeat(sep, m)
  {
    var xs := [a, b] + Empties(m);
    assert xs[1..] == [b] + Empties(m);
    if m == 0 {
      assert xs == [a, b];
    } else {
      assert xs[1..][1..] == Empties(m);
      assert Empties(m) == Empties((m - 1) + 1);
      JoinEmpties(m - 1, sep);
    }
  }

  /**
   * Keys of the form a, sep, b, then any number of seps, with a and b free of
   * sep and b non-empty, split into exactly [a, b]: the trailing empty pieces
   * are dropped.
   */
  lemma JavaSplitOfTwoPieces(a: string, b: string, k: nat, sep: char)
    requires sep !in a && sep !in b && b != []
    ensures JavaSplit(a + [sep] + b + Repeat(sep, k), sep) == [a, b]
  {
    var t := b + Repeat(sep, k);
    var s := a + [sep] + b + Repeat(sep, k);
    assert s == a + [sep] + t;
    PieceThenSeparator(a, t, sep);
    PieceThenSeparators(b, k, sep);
    assert [a] + ([b] + Empties(k)) == [a, b] + Empties(k);
    DropTrailingEmptyAfter([a, b], k);
  }

  /** A piece without sep, then sep: the piece comes first, then the pieces of the rest. */
  lemma PieceThenSeparator(a: string, t: string, sep: char)
    requires sep !in a
    ensures sep in a + [sep] + t
    ensures SplitAt(a + [sep] + t, sep) == [a] + SplitAt(t, sep)
  {
    assert (a + [sep] + t)[|a|] == sep;
    assert a + [sep] + t == a + ([sep] + t);
    SplitAtPlainPrefix(a, [sep] + t, sep);
    assert ([sep] + t)[1..] == t;
    assert a + "" == a;
  }

  /** A piece without sep followed by k seps splits into the piece and k empty pieces. */
  lemma PieceThenSeparators(b: string, k: nat, sep: char)
    requires sep !in b
    ensures SplitAt(b + Repeat(sep, k), sep) == [b] + Empties(k)
  {
    SplitAtPlainPrefix(b, Repeat(sep, k), sep);
    SplitAtSeparators(k, sep);
    assert Empties(k + 1)[1..] == Empties(k);
    assert b + "" == b;
  }

  /**
   * Conversely, whenever the split yields exactly two pieces, the second is
   * non-empty and the input is the first piece, sep, the second piece and
   * nothing but seps after it.
   */
  lemma JavaSplitTwoPiecesShape(s: string, sep: char)
    requires |JavaSplit(s, sep)| == 2
    ensures JavaSplit(s, sep)[1] != []
    ensures |s| >= |JavaSplit(s, sep)[0]| + 1 + |JavaSplit(s, sep)[1]|
    ensures s == JavaSplit(s, sep)[0] + [sep] + JavaSplit(s, sep)[1]
                 + Repeat(sep, |s| - |JavaSplit(s, sep)[0]| - 1 - |JavaSplit(s, sep)[1]|)
  {
    var r := JavaSplit(s, sep);
    var xs := SplitAt(s, sep);
    assert sep in s;
    var m := |xs| - 2;
    assert xs == [r[0], r[1]] + Empties(m);
    SplitAtJoin(s, sep);
    JoinTwoThenEmpties(r[0], r[1], m, sep);
  }

  /** The position of the first occurrence of c in s. */
  function IndexOf(s: string, c: char): (i: nat)
    requires c in s
    ensures i < |s| && s[i] == c && c !in s[..i]
  {
    if s[0] == c then 0
    else
      var i := 1 + IndexOf(s[1..], c);
      assert s[..i] == [s[0]] + s[1..][..i - 1];
      i
  }

  /** A position holding c with no c before it is the first occurrence. */
  lemma {:induction false} IndexOfAt(s: string, c: char, j: nat)
    requires j < |s| && s[j] == c && c !in s[..j]
    ensures IndexOf(s, c) == j
    decreases |s|
  {
    if j > 0 {
      assert s[..j][0] == s[0];
      assert s[1..][..j - 1] == s[1..j];
      IndexOfAt(s[1..], c, j - 1);
    }
  }

  /**
   * String.split(regex, 2) for a regex matching exactly the char sep: the text
   * before the first sep and the whole remainder after it, or the input itself.
   */
  function SplitLimit2(s: string, sep: char): (r: seq<string>)
    ensures |r| == 2 <==> sep in s
    ensures |r| == 2 ==> sep !in r[0] && s == r[0] + [sep] + r[1]
    ensures |r| == 1 ==> r[0] == s
  {
    if sep in s then
      var i := IndexOf(s, sep);
      assert s == s[..i] + [sep] + s[i + 1..];
      [s[..i], s[i + 1..]]
    else [s]
  }

  // ---------------------------------------------------------------------------
  // Long.parseLong
  // ---------------------------------------------------------------------------

  const MinLong: int := -0x8000_0000_0000_0000
  const MaxLong: int := 0x7FFF_FFFF_FFFF_FFFF

  predicate IsDigit(c: char) {
    '0' <= c <= '9'
  }

  predicate AllDigits(s: string) {
    forall i :: 0 <= i < |s| ==> IsDigit(s[i])
  }

  /** The value of a string of decimal digits. */
  function DigitsValue(s: string): nat
    requires AllDigits(s)
    decreases |s|
  {
    if s == [] then 0 else 10 * DigitsValue(s[..|s| - 1]) + (s[|s| - 1] as int - '0' as int)
  }

  /**
   * Long.parseLong: an optional '+' or '-', then at least one decimal digit,
   * denoting a value within the signed 64-bit range; None stands for the
   * NumberFormatException thrown for anything else.
   */
  function ParseLong(s: string): (r: Option<int>)
    ensures r.Some? ==> MinLong <= r.value <= MaxLong
    ensures r.Some? ==> forall i :: 0 <= i < |s| ==> IsDigit(s[i]) || (i == 0 && s[i] in "+-")
  {
    if s == [] then None
    else
      var digits := if s[0] == '-' || s[0] == '+' then s[1..] else s;
      if digits == [] || !AllDigits(digits) then None
      else
        var magnitude: int := DigitsValue(digits);
        var v: int := if s[0] == '-' then -magnitude else magnitude;
        if MinLong <= v <= MaxLong then Some(v) else None
  }

  /**
   * The converse: an optional sign followed by at least one decimal digit
   * parses to the value it denotes exactly when that value fits in 64 bits.
   */
  lemma ParseLongOfDecimal(sign: string, digits: string)
    requires sign in ["", "+", "-"] && digits != [] && AllDigits(digits)
    ensures var v := if sign == "-" then 0 - DigitsValue(digits) as int else DigitsValue(digits) as int;
            ParseLong(sign + digits) == if MinLong <= v <= MaxLong then Some(v) else None
  {
    var s := sign + digits;
    if sign == [] {
      assert s == digits;
    } else {
      assert s[0] == sign[0] && s[1..] == digits;
    }
  }
}
