/**
  The parts of JavaScript's string and number semantics that the screens and the masking
  functions rely on: `split` on one character and `join`, `includes`, `trim`, ASCII case
  mapping, `parseInt`, `String(n)` for integers, `padStart` and `replace(pat, '')`.
  A string is a sequence of Dafny `char`s, which are Unicode scalar values; JavaScript
  indexes UTF-16 code units, and the two agree on text inside the Basic Multilingual Plane.
 */
module JsText {
  import opened Wrappers

  // ---------------------------------------------------------------------------
  // Characters
  // ---------------------------------------------------------------------------

  /** ECMAScript StrWhiteSpaceChar: WhiteSpace (TAB, VT, FF, ZWNBSP and every Zs space)
      and LineTerminator. This is what `trim` removes and what `parseInt` skips. */
  const JsWhitespace: set<char> :=
    {'\t', '\n', '\U{B}', '\U{C}', '\r', ' ', '\U{A0}', '\U{1680}',
     '\U{2000}', '\U{2001}', '\U{2002}', '\U{2003}', '\U{2004}', '\U{2005}',
     '\U{2006}', '\U{2007}', '\U{2008}', '\U{2009}', '\U{200A}',
     '\U{2028}', '\U{2029}', '\U{202F}', '\U{205F}', '\U{3000}', '\U{FEFF}'}

  predicate IsJsWhitespace(c: char) {
    c in JsWhitespace
  }

  predicate IsDigit(c: char) { '0' <= c <= '9' }

  function LowerChar(c: char): char {
    if 'A' <= c <= 'Z' then (c as int + 32) as char else c
  }

  function UpperChar(c: char): char {
    if 'a' <= c <= 'z' then (c as int - 32) as char else c
  }

  /** `s.toLowerCase()`, restricted to the ASCII letters. */
  function Lower(s: string): string {
    seq(|s|, i requires 0 <= i < |s| => LowerChar(s[i]))
  }

  /** `s.toUpperCase()`, restricted to the ASCII letters. */
  function Upper(s: string): string {
    seq(|s|, i requires 0 <= i < |s| => UpperChar(s[i]))
  }

  // ---------------------------------------------------------------------------
  // Searching
  // ---------------------------------------------------------------------------

  /** `s.includes(q)`: q occurs in s as a contiguous piece. */
  predicate Includes(s: string, q: string)
    decreases |s|
  {
    q <= s || (s != [] && Includes(s[1..], q))
  }

  /** Index of the first c in s, or |s| when there is none (`indexOf`, with -1 read as |s|). */
  function FirstIndex(s: string, c: char): (i: nat)
    ensures i <= |s|
    ensures i < |s| ==> s[i] == c
    ensures forall j :: 0 <= j < i ==> s[j] != c
  {
    if s == [] then 0 else if s[0] == c then 0 else 1 + FirstIndex(s[1..], c)
  }

  // ---------------------------------------------------------------------------
  // split and join on one separator character
  // ---------------------------------------------------------------------------

  /** `parts.join(sep)` for a one-character separator ([] joins to ""). */
  function Join(parts: seq<string>, sep: char): string {
    if |parts| == 0 then ""
    else if |parts| == 1 then parts[0]
    else parts[0] + [sep] + Join(parts[1..], sep)
  }

  /** `s.split(sep)` for a one-character separator: at least one piece, and no piece
      holds the separator. */
  function Split(s: string, sep: char): (parts: seq<string>)
    ensures |parts| >= 1
    ensures forall i :: 0 <= i < |parts| ==> sep !in parts[i]
    decreases |s|
  {
    if |s| == 0 then [""]
    else
      var rest := Split(s[1..], sep);
      if s[0] == sep then [""] + rest
      else [[s[0]] + rest[0]] + rest[1..]
  }

  /** One step of split: a leading separator starts a new empty piece, any other
      character joins the first piece. */
  lemma SplitCons(c: char, x: string, sep: char)
    ensures Split([c] + x, sep) ==
              if c == sep then [""] + Split(x, sep)
              else [[c] + Split(x, sep)[0]] + Split(x, sep)[1..]
  {
    assert ([c] + x)[0] == c && ([c] + x)[1..] == x;
  }

  /** One step of join: the first piece, then the separator and the rest if any. */
  lemma JoinCons(x: string, ps: seq<string>, sep: char)
    ensures Join([x] + ps, sep) == if ps == [] then x else x + [sep] + Join(ps, sep)
  {
    assert ([x] + ps)[0] == x && ([x] + ps)[1..] == ps;
  }

  /** Joining three pieces puts one separator between each two. */
  lemma JoinThree(a: string, b: string, c: string, sep: char)
    ensures Join([a, b, c], sep) == a + [sep] + b + [sep] + c
  {
    JoinCons(c, [], sep);
    JoinCons(b, [c], sep);
    JoinCons(a, [b, c], sep);
    assert [a, b, c] == [a] + [b, c] && [b, c] == [b] + [c];
  }

  /** Joining the pieces of a split back with the separator gives the text again. */
  lemma {:induction false} JoinSplit(s: string, sep: char)
    ensures Join(Split(s, sep), sep) == s
    decreases |s|
  {
    if |s| > 0 {
      var rest := Split(s[1..], sep);
      JoinSplit(s[1..], sep);
      assert [s[0]] + s[1..] == s;
      SplitCons(s[0], s[1..], sep);
      if s[0] == sep {
        JoinCons("", rest, sep);
      } else {
        var tail := rest[1..];
        assert rest == [rest[0]] + tail;
        JoinCons(rest[0], tail, sep);
        JoinCons([s[0]] + rest[0], tail, sep);
      }
    }
  }

  /** Splitting a piece free of the separator, followed by anything t. */
  lemma {:induction false} SplitPrefix(a: string, t: string, sep: char)
    requires sep !in a
    ensures Split(a + t, sep) == [a + Split(t, sep)[0]] + Split(t, sep)[1..]
    decreases |a|
  {
    var S := Split(t, sep);
    if a != [] {
      var x := a[1..] + t;
      assert a + t == [a[0]] + x;
      SplitCons(a[0], x, sep);
      SplitPrefix(a[1..], t, sep);
      var R := Split(x, sep);
      assert R[0] == a[1..] + S[0] && R[1..] == S[1..];
      assert [a[0]] + (a[1..] + S[0]) == a + S[0] by {
        assert [a[0]] + a[1..] == a;
      }
    } else {
      assert a + t == t;
      assert a + S[0] == S[0];
      assert [S[0]] + S[1..] == S;
    }
  }

  /** The first piece is everything before the first separator; when there is a separator
      the other pieces are the split of what follows it. */
  lemma SplitAtFirst(s: string, sep: char)
    ensures Split(s, sep)[0] == s[..FirstIndex(s, sep)]
    ensures |Split(s, sep)| > 1 <==> FirstIndex(s, sep) < |s|
    ensures FirstIndex(s, sep) < |s| ==>
              Split(s, sep)[1..] == Split(s[FirstIndex(s, sep) + 1..], sep)
  {
    var i := FirstIndex(s, sep);
    var a := s[..i];
    assert sep !in a by {
      forall j | 0 <= j < |a| ensures a[j] != sep { assert a[j] == s[j]; }
    }
    if i < |s| {
      var b := s[i + 1..];
      var t := [sep] + b;
      assert s == a + t;
      SplitCons(sep, b, sep);
      SplitPrefix(a, t, sep);
      assert Split(s, sep) == [a] + Split(b, sep) by {
        assert a + "" == a;
      }
    } else {
      assert s == a + [];
      SplitPrefix(a, [], sep);
      assert Split(s, sep) == [a] by {
        assert a + "" == a;
      }
    }
  }

  /** Splitting a join of separator-free pieces gives the pieces back. */
  lemma {:induction false} SplitJoin(parts: seq<string>, sep: char)
    requires |parts| >= 1
    requires forall i :: 0 <= i < |parts| ==> sep !in parts[i]
    ensures Split(Join(parts, sep), sep) == parts
  {
    if |parts| == 1 {
      SplitPrefix(parts[0], "", sep);
      assert parts[0] + "" == parts[0];
    } else {
      var t := Join(parts[1..], sep);
      assert Join(parts, sep) == parts[0] + ([sep] + t);
      SplitPrefix(parts[0], [sep] + t, sep);
      assert Split([sep] + t, sep) == [""] + Split(t, sep) by {
        assert ([sep] + t)[1..] == t;
      }
      SplitJoin(parts[1..], sep);
      assert parts[0] + "" == parts[0];
      assert parts == [parts[0]] + parts[1..];
    }
  }

  // ---------------------------------------------------------------------------
  // trim
  // ---------------------------------------------------------------------------

  /** How many whitespace characters s starts with. */
  function LeadingWhitespace(s: string): (n: nat)
    ensures n <= |s|
    ensures forall i :: 0 <= i < n ==> IsJsWhitespace(s[i])
    ensures n < |s| ==> !IsJsWhitespace(s[n])
    decreases |s|
  {
    if s == [] || !IsJsWhitespace(s[0]) then 0
    else
      var n := LeadingWhitespace(s[1..]);
      assert forall i :: 1 <= i < n + 1 ==> s[i] == s[1..][i - 1];
      n + 1
  }

  /** How many whitespace characters s ends with. */
  function TrailingWhitespace(s: string): (n: nat)
    ensures n <= |s|
    ensures forall i :: |s| - n <= i < |s| ==> IsJsWhitespace(s[i])
    ensures n < |s| ==> !IsJsWhitespace(s[|s| - 1 - n])
    decreases |s|
  {
    if s == [] || !IsJsWhitespace(s[|s| - 1]) then 0
    else
      var n := TrailingWhitespace(s[..|s| - 1]);
      assert forall i :: |s| - 1 - n <= i < |s| - 1 ==> s[i] == s[..|s| - 1][i];
      n + 1
  }

  /** `s.trimStart()`: s without its leading whitespace. */
  function TrimStart(s: string): (r: string)
    ensures |r| <= |s| && r == s[|s| - |r|..]
    ensures forall i :: 0 <= i < |s| - |r| ==> IsJsWhitespace(s[i])
    ensures r == [] || !IsJsWhitespace(r[0])
  {
    s[LeadingWhitespace(s)..]
  }

  /** `s.trim()`: the piece of s left after cutting its leading and trailing whitespace;
      everything cut is whitespace, and the piece neither starts nor ends with
      whitespace. */
  function Trim(s: string): (r: string)
    ensures var k := LeadingWhitespace(s);
      && k + |r| <= |s| && r == s[k..k + |r|]
      && (forall i :: k + |r| <= i < |s| ==> IsJsWhitespace(s[i]))
    ensures r == [] || (!IsJsWhitespace(r[0]) && !IsJsWhitespace(r[|r| - 1]))
  {
    var k := LeadingWhitespace(s);
    var t := s[k..];
    var m := TrailingWhitespace(t);
    var r := s[k..|s| - m];
    assert forall i :: k + |r| <= i < |s| ==> IsJsWhitespace(s[i]) by {
      forall i | k + |r| <= i < |s| ensures IsJsWhitespace(s[i]) {
        assert s[i] == t[i - k];
      }
    }
    assert r != [] ==> r[0] == t[0] && r[|r| - 1] == t[|t| - 1 - m];
    r
  }

  // ---------------------------------------------------------------------------
  // Numbers: parseInt and String(n)
  // ---------------------------------------------------------------------------

  /** The value of c as a digit of radix up to 36, or 36 when it is not a digit at all. */
  function DigitValue(c: char): (d: nat)
    ensures d <= 36
    ensures d < 10 <==> IsDigit(c)
  {
    if '0' <= c <= '9' then c as int - '0' as int
    else if 'a' <= c <= 'z' then c as int - 'a' as int + 10
    else if 'A' <= c <= 'Z' then c as int - 'A' as int + 10
    else 36
  }

  predicate AllRadixDigits(ds: string, radix: nat) {
    forall i :: 0 <= i < |ds| ==> DigitValue(ds[i]) < radix
  }

  /** The longest prefix of s made of radix digits. */
  function LeadingDigits(s: string, radix: nat): (z: string)
    ensures z <= s
    ensures AllRadixDigits(z, radix)
    ensures |z| < |s| ==> DigitValue(s[|z|]) >= radix
  {
    if s != [] && DigitValue(s[0]) < radix then [s[0]] + LeadingDigits(s[1..], radix) else []
  }

  /** The number that a sequence of radix digits denotes, most significant first. */
  function DigitsValue(ds: string, radix: nat): nat
    requires AllRadixDigits(ds, radix)
  {
    if ds == [] then 0
    else DigitsValue(ds[..|ds| - 1], radix) * radix + DigitValue(ds[|ds| - 1])
  }

  /** The value of the longest run of radix digits at the start of u; no digits is NaN. */
  function LeadingValue(u: string, radix: nat): Option<nat> {
    var z := LeadingDigits(u, radix);
    if z == [] then None else Some(DigitsValue(z, radix))
  }

  /** An unsigned `parseInt` body: a `0x`/`0X` prefix selects radix 16, otherwise radix 10. */
  function ParseMagnitude(u: string): Option<nat> {
    if |u| >= 2 && u[0] == '0' && (u[1] == 'x' || u[1] == 'X') then LeadingValue(u[2..], 16)
    else LeadingValue(u, 10)
  }

  /** `parseInt(s)` with no radix, NaN being None: skip leading whitespace, take an optional
      sign, then the magnitude. */
  function ParseInt(s: string): Option<int> {
    var t := TrimStart(s);
    if t != [] && t[0] == '-' then
      match ParseMagnitude(t[1..])
      case None => None
      case Some(m) => Some(-(m as int))
    else if t != [] && t[0] == '+' then
      match ParseMagnitude(t[1..])
      case None => None
      case Some(m) => Some(m)
    else
      match ParseMagnitude(t)
      case None => None
      case Some(m) => Some(m)
  }

  function DigitChar(d: nat): (c: char)
    requires d < 10
    ensures IsDigit(c) && DigitValue(c) == d
  {
    ('0' as int + d) as char
  }

  /** The decimal rendering of a natural number: digits only, denoting n. */
  function NatToString(n: nat): (s: string)
    ensures |s| >= 1
    ensures AllRadixDigits(s, 10)
    ensures DigitsValue(s, 10) == n
  {
    if n < 10 then [DigitChar(n)]
    else
      var s := NatToString(n / 10) + [DigitChar(n % 10)];
      assert s[..|s| - 1] == NatToString(n / 10);
      s
  }

  /** `String(n)` (or `${n}`) for an integer. */
  function IntToString(n: int): string {
    if n < 0 then "-" + NatToString(-n) else NatToString(n)
  }

  /** 2^53: every integer from -2^53 to 2^53 is a double, 2^53 + 1 is not. */
  const TwoTo53: int := 9007199254740992

  /** Leading zeros do not change the value of a decimal digit sequence. */
  lemma {:induction false} LeadingZeroValue(ds: string)
    requires AllRadixDigits(ds, 10)
    ensures AllRadixDigits("0" + ds, 10) && DigitsValue("0" + ds, 10) == DigitsValue(ds, 10)
    decreases |ds|
  {
    var zs := "0" + ds;
    if ds != [] {
      assert zs[..|zs| - 1] == "0" + ds[..|ds| - 1];
      LeadingZeroValue(ds[..|ds| - 1]);
    } else {
      assert zs[..|zs| - 1] == [];
    }
  }

  /** A run of decimal digits (possibly with leading zeros) is read whole, in radix 10. */
  lemma ParseMagnitudeOfDigits(ds: string)
    requires ds != [] && AllRadixDigits(ds, 10)
    ensures ParseMagnitude(ds) == Some(DigitsValue(ds, 10))
  {
    if |ds| >= 2 { assert DigitValue(ds[1]) < 10; }
    var z := LeadingDigits(ds, 10);
    assert z == ds;
  }

  /** Text that does not start with whitespace is its own trimStart. */
  lemma TrimStartKeeps(s: string)
    requires s != [] && !IsJsWhitespace(s[0])
    ensures TrimStart(s) == s
  {
  }

  /** A run of decimal digits (possibly with leading zeros) parses to its value. */
  lemma ParseIntOfDigits(ds: string)
    requires ds != [] && AllRadixDigits(ds, 10)
    ensures ParseInt(ds) == Some(DigitsValue(ds, 10) as int)
  {
    assert DigitValue(ds[0]) < 10;
    TrimStartKeeps(ds);
    ParseMagnitudeOfDigits(ds);
  }

  /** A minus sign followed by a run of decimal digits parses to the negated value. */
  lemma ParseIntOfNegatedDigits(ds: string)
    requires ds != [] && AllRadixDigits(ds, 10)
    ensures ParseInt("-" + ds) == Some(-(DigitsValue(ds, 10) as int))
  {
    var s := "-" + ds;
    TrimStartKeeps(s);
    assert s[1..] == ds;
    ParseMagnitudeOfDigits(ds);
  }

  /** parseInt inverts String(n) on every integer. */
  lemma ParseIntOfIntToString(n: int)
    ensures ParseInt(IntToString(n)) == Some(n)
  {
    if n < 0 {
      ParseIntOfNegatedDigits(NatToString(-n));
    } else {
      ParseIntOfDigits(NatToString(n));
    }
  }

  /** Without a minus sign anywhere, `parseInt` never yields a negative number. */
  lemma ParseIntWithoutMinus(s: string)
    requires '-' !in s
    ensures ParseInt(s).Some? ==> ParseInt(s).value >= 0
  {
    var t := TrimStart(s);
    if t != [] {
      assert t[0] == s[|s| - |t|];
    }
  }

  /** A run of decimal digits holds no minus sign. */
  lemma DigitsHaveNoMinus(ds: string)
    requires AllRadixDigits(ds, 10)
    ensures '-' !in ds
  {
    forall i | 0 <= i < |ds| ensures ds[i] != '-' {
      assert DigitValue(ds[i]) < 10;
    }
  }

  // ---------------------------------------------------------------------------
  // padStart and replace
  // ---------------------------------------------------------------------------

  function Repeat(c: char, k: nat): (r: string)
    ensures |r| == k && forall i :: 0 <= i < k ==> r[i] == c
  {
    if k == 0 then [] else [c] + Repeat(c, k - 1)
  }

  /** `s.padStart(width, fill)` for a one-character fill: fill characters in front, up to
      `width`; a longer s is kept whole. */
  function PadStart(s: string, width: nat, fill: char): (r: string)
    ensures |r| == if |s| >= width then |s| else width
    ensures r == Repeat(fill, |r| - |s|) + s
  {
    if |s| >= width then s else Repeat(fill, width - |s|) + s
  }

  /** Zero-padding keeps a decimal digit string's value. */
  lemma {:induction false} ZeroPadValue(ds: string, k: nat)
    requires AllRadixDigits(ds, 10)
    ensures AllRadixDigits(Repeat('0', k) + ds, 10)
    ensures DigitsValue(Repeat('0', k) + ds, 10) == DigitsValue(ds, 10)
    decreases k
  {
    if k > 0 {
      var z := Repeat('0', k - 1) + ds;
      ZeroPadValue(ds, k - 1);
      assert Repeat('0', k) + ds == "0" + z;
      LeadingZeroValue(z);
    } else {
      assert Repeat('0', 0) + ds == ds;
    }
  }

  /** `s.replace(pat, '')`: the first occurrence of pat, if any, is cut out. */
  function RemoveFirst(s: string, pat: string): (r: string)
    ensures pat <= s ==> r == s[|pat|..]
    ensures !Includes(s, pat) ==> r == s
    ensures Includes(s, pat) ==> |r| == |s| - |pat|
    decreases |s|
  {
    if pat <= s then s[|pat|..]
    else if s == [] then s
    else [s[0]] + RemoveFirst(s[1..], pat)
  }
}
