/**
 * The string operations of the Python standard library that the system relies on,
 * restricted to what can be stated without Unicode tables: whitespace is Python's
 * `str.isspace` set, case mapping is ASCII only.
 */
module Text {
  import opened Wrappers

  /** Python's `str.isspace` for one character. */
  predicate IsSpace(c: char) {
    var n := c as int;
    (9 <= n <= 13) || (28 <= n <= 32) || n == 0x85 || n == 0xA0 || n == 0x1680 ||
    (0x2000 <= n <= 0x200A) || n == 0x2028 || n == 0x2029 || n == 0x202F ||
    n == 0x205F || n == 0x3000
  }

  predicate AllSpace(s: string) {
    forall i :: 0 <= i < |s| ==> IsSpace(s[i])
  }

  /** The number of leading whitespace characters. */
  function LeadingSpaces(s: string): (n: nat)
    ensures n <= |s|
    ensures forall k :: 0 <= k < n ==> IsSpace(s[k])
    ensures n < |s| ==> !IsSpace(s[n])
  {
    SpacesFrom(s, 0)
  }

  /** The length of the run of whitespace starting at `i`. */
  function SpacesFrom(s: string, i: nat): (n: nat)
    requires i <= |s|
    ensures i + n <= |s|
    ensures forall k :: i <= k < i + n ==> IsSpace(s[k])
    ensures i + n < |s| ==> !IsSpace(s[i + n])
    decreases |s| - i
  {
    if i == |s| || !IsSpace(s[i]) then 0 else 1 + SpacesFrom(s, i + 1)
  }

  /** The length of the run of whitespace ending just before `j`. */
  function SpacesBefore(s: string, j: nat): (n: nat)
    requires j <= |s|
    ensures n <= j
    ensures forall k :: j - n <= k < j ==> IsSpace(s[k])
    ensures n < j ==> !IsSpace(s[j - n - 1])
  {
    if j == 0 || !IsSpace(s[j - 1]) then 0 else 1 + SpacesBefore(s, j - 1)
  }

  /** The number of trailing whitespace characters. */
  function TrailingSpaces(s: string): (n: nat)
    ensures n <= |s|
    ensures forall k :: |s| - n <= k < |s| ==> IsSpace(s[k])
    ensures n < |s| ==> !IsSpace(s[|s| - n - 1])
  {
    SpacesBefore(s, |s|)
  }

  /** `str.lstrip()` */
  function LStrip(s: string): (r: string)
    ensures |r| == |s| - LeadingSpaces(s)
    ensures r != [] ==> !IsSpace(r[0])
  {
    s[LeadingSpaces(s)..]
  }

  /** `str.rstrip()` */
  function RStrip(s: string): (r: string)
    ensures |r| == |s| - TrailingSpaces(s)
    ensures r != [] ==> !IsSpace(r[|r| - 1])
  {
    s[..|s| - TrailingSpaces(s)]
  }

  /** `str.strip()`: the input with its whitespace border removed on both sides. */
  function Strip(s: string): (r: string)
    ensures |r| <= |s|
    ensures r != [] ==> !IsSpace(r[0]) && !IsSpace(r[|r| - 1])
  {
    var l := LStrip(s);
    var r := RStrip(l);
    assert r != [] ==> r[0] == l[0];
    r
  }

  /** What `lstrip()` removes is whitespace, and what it keeps is the rest of the input. */
  lemma LStripSlice(s: string)
    ensures var n := LeadingSpaces(s);
            LStrip(s) == s[n..] && AllSpace(s[..n])
  {
  }

  /** What `strip()` keeps is a slice of its input, and what it removes is whitespace. */
  lemma StripSlice(s: string)
    ensures var r, i := Strip(s), LeadingSpaces(s);
            && i + |r| <= |s| && r == s[i..i + |r|]
            && AllSpace(s[..i]) && AllSpace(s[i + |r|..])
  {
    var i := LeadingSpaces(s);
    var l := s[i..];
    var r := Strip(s);
    var t := TrailingSpaces(l);
    assert r == l[..|l| - t];
    var j := i + |r|;
    assert r == s[i..j];
    assert AllSpace(s[..i]) by {
      forall k | 0 <= k < i
        ensures IsSpace(s[..i][k])
      {
        assert s[..i][k] == s[k];
      }
    }
    assert AllSpace(s[j..]) by {
      forall k | 0 <= k < |s| - j
        ensures IsSpace(s[j..][k])
      {
        assert s[j..][k] == l[|l| - t + k];
      }
    }
  }

  /** The empty result of `strip` means the input is whitespace only. */
  lemma StripEmptyIffAllSpace(s: string)
    ensures Strip(s) == [] <==> AllSpace(s)
  {
    if AllSpace(s) {
      assert LeadingSpaces(s) == |s|;
    }
    if Strip(s) == [] {
      StripSlice(s);
      assert s[..LeadingSpaces(s)] == s;
    }
  }

  /** A string with no whitespace border is its own `strip()`. */
  lemma StripOfTrimmed(s: string)
    requires s != [] ==> !IsSpace(s[0]) && !IsSpace(s[|s| - 1])
    ensures Strip(s) == s
  {
    assert LeadingSpaces(s) == 0;
    assert TrailingSpaces(s) == 0;
  }

  function LowerChar(c: char): char {
    if 'A' <= c <= 'Z' then (c as int + 32) as char else c
  }

  function UpperChar(c: char): char {
    if 'a' <= c <= 'z' then (c as int - 32) as char else c
  }

  predicate IsCased(c: char) {
    ('A' <= c <= 'Z') || ('a' <= c <= 'z')
  }

  /** `str.lower()` on ASCII letters. */
  function Lower(s: string): (r: string)
    ensures |r| == |s| && forall i :: 0 <= i < |s| ==> r[i] == LowerChar(s[i])
  {
    seq(|s|, i requires 0 <= i < |s| => LowerChar(s[i]))
  }

  /** `str.capitalize()` on ASCII letters: first character upper, the rest lower. */
  function Capitalize(s: string): (r: string)
    ensures |r| == |s|
    ensures s != [] ==> r[0] == UpperChar(s[0]) && r[1..] == Lower(s[1..])
  {
    if s == [] then [] else [UpperChar(s[0])] + Lower(s[1..])
  }

  /**
   * `str.title()` on ASCII letters: a cased letter is upper-cased when the character before
   * it is not a cased letter, and lower-cased otherwise.
   */
  function TitleFrom(s: string, afterCased: bool): (r: string)
    ensures |r| == |s|
    decreases |s|
  {
    if s == [] then []
    else if IsCased(s[0]) then
      [if afterCased then LowerChar(s[0]) else UpperChar(s[0])] + TitleFrom(s[1..], true)
    else [s[0]] + TitleFrom(s[1..], false)
  }

  function Title(s: string): (r: string)
    ensures |r| == |s|
  {
    TitleFrom(s, false)
  }

  lemma {:induction false} TitleFromKeepsUncased(s: string, afterCased: bool, i: nat)
    requires i < |s|
    ensures IsCased(TitleFrom(s, afterCased)[i]) == IsCased(s[i])
    ensures !IsCased(s[i]) ==> TitleFrom(s, afterCased)[i] == s[i]
    decreases |s|
  {
    if i > 0 {
      TitleFromKeepsUncased(s[1..], IsCased(s[0]), i - 1);
    }
  }

  /** Title-casing twice gives the same string as title-casing once. */
  lemma {:induction false} TitleFromIdempotent(s: string, afterCased: bool)
    ensures TitleFrom(TitleFrom(s, afterCased), afterCased) == TitleFrom(s, afterCased)
    decreases |s|
  {
    if s != [] {
      TitleFromIdempotent(s[1..], IsCased(s[0]));
      var t := TitleFrom(s, afterCased);
      assert t[1..] == TitleFrom(s[1..], IsCased(s[0]));
    }
  }

  /** `sub` occurs in `s` starting at index `i`. */
  predicate OccursAt(s: string, sub: string, i: nat) {
    i + |sub| <= |s| && s[i..i + |sub|] == sub
  }

  predicate StartsWith(s: string, p: string) {
    |p| <= |s| && s[..|p|] == p
  }

  /** Python's `sub in s`. */
  predicate Contains(s: string, sub: string)
    decreases |s|
  {
    StartsWith(s, sub) || (|s| > 0 && Contains(s[1..], sub))
  }

  lemma {:induction false} ContainsAt(s: string, sub: string, i: nat)
    requires OccursAt(s, sub, i)
    ensures Contains(s, sub)
    decreases i
  {
    if i > 0 {
      assert s[1..][i - 1..i - 1 + |sub|] == s[i..i + |sub|];
      ContainsAt(s[1..], sub, i - 1);
    }
  }

  lemma {:induction false} ContainsWitness(s: string, sub: string)
    requires Contains(s, sub)
    ensures exists i: nat :: OccursAt(s, sub, i)
    decreases |s|
  {
    if StartsWith(s, sub) {
      assert OccursAt(s, sub, 0);
    } else {
      ContainsWitness(s[1..], sub);
      var i: nat :| OccursAt(s[1..], sub, i);
      assert s[i + 1..i + 1 + |sub|] == s[1..][i..i + |sub|];
      assert OccursAt(s, sub, i + 1);
    }
  }

  /** A string contains every substring of any of its substrings. */
  lemma ContainsSlice(s: string, sub: string, i: nat, j: nat)
    requires i <= j <= |s| && Contains(s[i..j], sub)
    ensures Contains(s, sub)
  {
    ContainsWitness(s[i..j], sub);
    var k: nat :| OccursAt(s[i..j], sub, k);
    forall m | 0 <= m < |sub| ensures s[i + k + m] == sub[m] {
      assert s[i..j][k..k + |sub|][m] == sub[m];
    }
    assert s[i + k..i + k + |sub|] == sub;
    ContainsAt(s, sub, i + k);
  }

  lemma ContainsAppend(s: string, t: string, sub: string)
    requires Contains(s, sub)
    ensures Contains(s + t, sub)
  {
    assert (s + t)[0..|s|] == s;
    ContainsSlice(s + t, sub, 0, |s|);
  }

  /** The index of the first occurrence of `sep` (non-empty) in `s`, as `str.find` gives. */
  function FindFirst(s: string, sep: string): (r: Option<nat>)
    requires sep != []
    ensures r.Some? ==> r.value + |sep| <= |s| && s[r.value..r.value + |sep|] == sep
    ensures r.Some? ==> forall k :: 0 <= k < r.value ==> !StartsWith(s[k..], sep)
    ensures r.None? ==> forall k :: 0 <= k <= |s| ==> !StartsWith(s[k..], sep)
    decreases |s|
  {
    if |s| < |sep| then
      assert forall k :: 0 <= k <= |s| ==> |s[k..]| < |sep|;
      None
    else if s[..|sep|] == sep then Some(0)
    else
      match FindFirst(s[1..], sep)
      case None =>
        assert forall k :: 1 <= k <= |s| ==> s[k..] == s[1..][k - 1..];
        None
      case Some(i) =>
        assert forall k :: 1 <= k <= i + 1 ==> s[k..] == s[1..][k - 1..];
        assert s[1..][i..i + |sep|] == s[i + 1..i + 1 + |sep|];
        Some(i + 1)
  }

  /** `s.rfind(c, 0, end)`: the last index below `end` holding `c`, or -1 when there is none. */
  function FindLastBefore(s: string, c: char, end: nat): (r: int)
    requires end <= |s|
    ensures -1 <= r < end
    ensures r >= 0 ==> s[r] == c
    ensures forall k :: r < k < end ==> s[k] != c
    decreases end
  {
    if end == 0 then -1
    else if s[end - 1] == c then end - 1
    else FindLastBefore(s, c, end - 1)
  }

  /** `s.split(sep)` for a non-empty separator: the pieces between the leftmost occurrences. */
  function Split(s: string, sep: string): (r: seq<string>)
    requires sep != []
    ensures |r| >= 1
    decreases |s|
  {
    match FindFirst(s, sep)
    case None => [s]
    case Some(i) => [s[..i]] + Split(s[i + |sep|..], sep)
  }

  /** `sep.join(parts)` */
  function Join(parts: seq<string>, sep: string): (r: string)
  {
    if |parts| == 0 then ""
    else if |parts| == 1 then parts[0]
    else parts[0] + sep + Join(parts[1..], sep)
  }

  /** Joining two non-empty lists of parts puts one separator between them. */
  lemma {:induction false} JoinAppend(a: seq<string>, b: seq<string>, sep: string)
    requires a != [] && b != []
    ensures Join(a + b, sep) == Join(a, sep) + sep + Join(b, sep)
    decreases |a|
  {
    if |a| > 1 {
      JoinAppend(a[1..], b, sep);
      assert (a + b)[1..] == a[1..] + b;
    }
  }

  /** Joining the pieces of a split with the same separator rebuilds the input. */
  lemma {:induction false} JoinSplit(s: string, sep: string)
    requires sep != []
    ensures Join(Split(s, sep), sep) == s
    decreases |s|
  {
    match FindFirst(s, sep)
    case None =>
    case Some(i) =>
      JoinSplit(s[i + |sep|..], sep);
      var rest := Split(s[i + |sep|..], sep);
      assert Split(s, sep) == [s[..i]] + rest;
      assert s == s[..i] + sep + s[i + |sep|..];
  }

  /** A string in which `sub` occurs at no index does not contain it. */
  lemma {:induction false} NoOccurrenceNotContains(s: string, sub: string)
    requires forall k: nat :: k <= |s| ==> !OccursAt(s, sub, k)
    ensures !Contains(s, sub)
    decreases |s|
  {
    assert !OccursAt(s, sub, 0);
    if |s| > 0 {
      forall k: nat | k <= |s[1..]|
        ensures !OccursAt(s[1..], sub, k)
      {
        assert !OccursAt(s, sub, k + 1);
        if k + |sub| <= |s[1..]| {
          assert s[1..][k..k + |sub|] == s[k + 1..k + 1 + |sub|];
        }
      }
      NoOccurrenceNotContains(s[1..], sub);
    }
  }

  /** A string in which no suffix starts with `sep` does not contain it. */
  lemma NoStartNotContains(s: string, sep: string, bound: nat)
    requires sep != [] && bound <= |s|
    requires forall j :: 0 <= j < bound ==> !StartsWith(s[j..], sep)
    ensures !Contains(s[..bound], sep)
  {
    var p := s[..bound];
    forall j: nat | j <= |p|
      ensures !OccursAt(p, sep, j)
    {
      if j + |sep| <= |p| {
        assert !StartsWith(s[j..], sep);
        assert s[j..][..|sep|] == p[j..j + |sep|];
      }
    }
    NoOccurrenceNotContains(p, sep);
  }

  /** Splitting a string that does not contain the separator gives the string alone. */
  lemma SplitWithoutSeparator(s: string, sep: string)
    requires sep != [] && !Contains(s, sep)
    ensures Split(s, sep) == [s]
  {
    if FindFirst(s, sep).Some? {
      ContainsAt(s, sep, FindFirst(s, sep).value);
    }
  }

  /** Stripping cannot create an occurrence. */
  lemma StripKeepsAbsence(s: string, sub: string)
    requires !Contains(s, sub)
    ensures !Contains(Strip(s), sub)
  {
    var t, i := Strip(s), LeadingSpaces(s);
    StripSlice(s);
    if Contains(t, sub) {
      ContainsSlice(s, sub, i, i + |t|);
    }
  }

  /** No piece of a split contains the separator. */
  lemma {:induction false} SplitPiecesFree(s: string, sep: string, k: nat)
    requires sep != [] && k < |Split(s, sep)|
    ensures !Contains(Split(s, sep)[k], sep)
    decreases |s|
  {
    match FindFirst(s, sep)
    case None =>
      NoStartNotContains(s, sep, |s|);
      assert s[..|s|] == s;
    case Some(i) =>
      var rest := Split(s[i + |sep|..], sep);
      assert Split(s, sep) == [s[..i]] + rest;
      if k == 0 {
        NoStartNotContains(s, sep, i);
      } else {
        SplitPiecesFree(s[i + |sep|..], sep, k - 1);
        assert Split(s, sep)[k] == rest[k - 1];
      }
  }

  /** `s.replace(pat, repl)` for a non-empty `pat`: Python defines it as join of the split. */
  function Replace(s: string, pat: string, repl: string): (r: string)
    requires pat != []
  {
    Join(Split(s, pat), repl)
  }

  lemma {:induction false} JoinFree(parts: seq<string>, sep: string, c: char)
    requires forall k :: 0 <= k < |parts| ==> c !in parts[k]
    requires c !in sep
    ensures c !in Join(parts, sep)
    decreases |parts|
  {
    if |parts| > 1 {
      JoinFree(parts[1..], sep, c);
    }
  }

  /** Replacing a one-character string removes every occurrence of that character. */
  lemma ReplaceRemovesChar(s: string, c: char, repl: string)
    requires c !in repl
    ensures c !in Replace(s, [c], repl)
  {
    forall k | 0 <= k < |Split(s, [c])|
      ensures c !in Split(s, [c])[k]
    {
      var p := Split(s, [c])[k];
      SplitPiecesFree(s, [c], k);
      if c in p {
        var j :| 0 <= j < |p| && p[j] == c;
        assert OccursAt(p, [c], j);
        ContainsAt(p, [c], j);
      }
    }
    JoinFree(Split(s, [c]), repl, c);
  }

  /** A string without the character `c` does not contain the one-character string `[c]`. */
  lemma CharFreeNotContains(s: string, c: char)
    requires c !in s
    ensures !Contains(s, [c])
  {
    forall k: nat | k <= |s|
      ensures !OccursAt(s, [c], k)
    {
      if k + 1 <= |s| {
        assert s[k..k + 1][0] == s[k];
      }
    }
    NoOccurrenceNotContains(s, [c]);
  }

  /** Splitting cannot create a character: every piece draws only on the input's characters. */
  lemma {:induction false} SplitPiecesCharFree(s: string, sep: string, c: char, k: nat)
    requires sep != [] && c !in s && k < |Split(s, sep)|
    ensures c !in Split(s, sep)[k]
    decreases |s|
  {
    match FindFirst(s, sep)
    case None =>
    case Some(i) =>
      var rest := Split(s[i + |sep|..], sep);
      assert Split(s, sep) == [s[..i]] + rest;
      if k == 0 {
        assert forall j :: 0 <= j < i ==> s[..i][j] == s[j];
      } else {
        SplitPiecesCharFree(s[i + |sep|..], sep, c, k - 1);
        assert Split(s, sep)[k] == rest[k - 1];
      }
  }

  /** The first piece of a split on a single character ends at that character's first use. */
  lemma SplitAtChar(a: string, c: char, b: string)
    requires c !in a
    ensures Split(a + [c] + b, [c]) == [a] + Split(b, [c])
  {
    var s := a + [c] + b;
    assert s[|a|..][..1] == [c];
    assert StartsWith(s[|a|..], [c]);
    var v := FindFirst(s, [c]).value;
    assert s[v..v + 1][0] == s[v];
    assert v == |a|;
    assert s[..v] == a;
    assert s[v + 1..] == b;
  }

  predicate IsDigit(c: char) {
    '0' <= c <= '9'
  }

  predicate AllDigits(s: string) {
    forall i :: 0 <= i < |s| ==> IsDigit(s[i])
  }

  function DigitChar(d: nat): char
    requires d < 10
  {
    ('0' as int + d) as char
  }

  /** The decimal numeral of `n`, as `str(n)` writes it: no sign, no leading zero. */
  function NatToString(n: nat): (r: string)
    ensures r != [] && AllDigits(r)
    ensures |r| > 1 ==> r[0] != '0'
    decreases n
  {
    if n < 10 then [DigitChar(n)]
    else
      var p := NatToString(n / 10);
      p + [DigitChar(n % 10)]
  }

  /** `str(i)` for any integer. */
  function IntToString(i: int): (r: string)
    ensures r != []
  {
    if i < 0 then "-" + NatToString(-i) else NatToString(i)
  }

  /** The value of a run of ASCII decimal digits, most significant first. */
  function DigitsValue(s: string): (n: nat)
    requires AllDigits(s)
    decreases |s|
  {
    if s == [] then 0
    else DigitsValue(s[..|s| - 1]) * 10 + (s[|s| - 1] as int - '0' as int)
  }

  /** Reading back a written numeral gives the number. */
  lemma {:induction false} DigitsValueOfNatToString(n: nat)
    ensures DigitsValue(NatToString(n)) == n
    decreases n
  {
    if n >= 10 {
      DigitsValueOfNatToString(n / 10);
      var r := NatToString(n);
      assert r[..|r| - 1] == NatToString(n / 10);
    }
  }

  /**
   * Python's `int(s)` for base-10 text: optional surrounding whitespace, an optional sign,
   * and ASCII digits in which single underscores may separate digits.
   */
  function ParseInt(s: string): (r: Option<int>)
  {
    ParseSigned(Strip(s))
  }

  /** `int` on text that has no whitespace border. */
  function ParseSigned(t: string): (r: Option<int>)
  {
    if t == [] then None
    else
      var neg := t[0] == '-';
      var body := if t[0] == '-' || t[0] == '+' then t[1..] else t;
      if !WellFormedDigits(body) then None
      else
        var v: int := DigitsValue(Underscoreless(body));
        Some(if neg then -v else v)
  }

  /** Non-empty digits where each underscore sits between two digits. */
  predicate WellFormedDigits(s: string) {
    |s| > 0 && IsDigit(s[0]) && IsDigit(s[|s| - 1]) &&
    (forall i :: 0 <= i < |s| ==> IsDigit(s[i]) || s[i] == '_') &&
    (forall i :: 0 <= i < |s| - 1 ==> s[i] == '_' ==> s[i + 1] != '_')
  }

  function Underscoreless(s: string): (r: string)
    requires forall i :: 0 <= i < |s| ==> IsDigit(s[i]) || s[i] == '_'
    ensures AllDigits(r)
  {
    if s == [] then []
    else if s[0] == '_' then Underscoreless(s[1..])
    else [s[0]] + Underscoreless(s[1..])
  }

  lemma UnderscorelessDigits(s: string)
    requires AllDigits(s)
    ensures Underscoreless(s) == s
  {
  }

  lemma WellFormedAllDigits(s: string)
    requires s != [] && AllDigits(s)
    ensures WellFormedDigits(s)
  {
  }

  /** `int(str(i)) == i`: the numerals this system writes are read back exactly. */
  lemma ParseIntOfIntToString(i: int)
    ensures ParseInt(IntToString(i)) == Some(i)
  {
    var m: nat := if i < 0 then -i else i;
    var r := NatToString(m);
    var s := IntToString(i);
    assert s[|s| - 1] == r[|r| - 1];
    StripOfTrimmed(s);
    ParseSignedOfNumeral(i);
  }

  lemma ParseSignedOfNumeral(i: int)
    ensures ParseSigned(IntToString(i)) == Some(i)
  {
    var m: nat := if i < 0 then -i else i;
    var r := NatToString(m);
    DigitsValueOfNatToString(m);
    UnderscorelessDigits(r);
    WellFormedAllDigits(r);
    var s := IntToString(i);
    if i < 0 {
      assert s[1..] == r;
    } else {
      assert IsDigit(s[0]);
    }
  }
}
