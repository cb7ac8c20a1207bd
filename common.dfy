/** Shared vocabulary of the converter: optional values, results carrying the .NET exception a
    call would throw, nullable strings, and the few string routines of the .NET base library the
    core relies on (ASCII lower-casing, ordinal search, `Split`, `Trim`, decimal formatting and
    `Convert.ToInt32` of a string). */
module Common {

  datatype Option<+T> = None | Some(value: T)

  /** The .NET exceptions thrown by the modelled code. */
  datatype Exception =
    | FileNotFound
    | DirectoryNotFound
    | ArgumentOutOfRange
    | Argument
    | Format
    | Overflow
    | InvalidOperation
    | TemplateSheetNotFound
    | WorksheetExists(name: string)

  /** The outcome of a call that either returns a value or throws. */
  datatype Result<+T> = Ok(value: T) | Err(error: Exception)

  /** A C# `string`, which may be `null`. */
  type NString = Option<string>

  /** `string.IsNullOrEmpty`. */
  predicate IsNullOrEmpty(s: NString) {
    s.None? || s.value == ""
  }

  /** The text of a nullable string, `null` read as empty (as `new StringBuilder(null)` does). */
  function OrEmpty(s: NString): string {
    if s.None? then "" else s.value
  }

  /** No element occurs twice. */
  predicate Distinct<T(==)>(s: seq<T>) {
    forall i, j :: 0 <= i < j < |s| ==> s[i] != s[j]
  }

  // ----- characters and case -----

  /** `char.ToLower`, restricted to ASCII: culture-dependent case mapping is not modelled. */
  function LowerChar(c: char): char {
    if 'A' <= c <= 'Z' then (c as int + 32) as char else c
  }

  function ToLower(s: string): string {
    seq(|s|, i requires 0 <= i < |s| => LowerChar(s[i]))
  }

  /** Number of occurrences of `c` in `s`. */
  function Count(s: string, c: char): nat {
    if s == [] then 0 else (if s[0] == c then 1 else 0) + Count(s[1..], c)
  }

  // ----- ordinal search -----

  predicate StartsWith(s: string, prefix: string) {
    |prefix| <= |s| && s[..|prefix|] == prefix
  }

  /** `sub` occurs in `s` at index `i`. */
  predicate OccursAt(s: string, sub: string, i: int) {
    0 <= i && i + |sub| <= |s| && s[i..i + |sub|] == sub
  }

  /** `string.Contains(string)`, ordinal. */
  predicate Contains(s: string, sub: string)
    decreases |s|
  {
    StartsWith(s, sub) || (s != [] && Contains(s[1..], sub))
  }

  lemma {:induction false} ContainsIffOccurs(s: string, sub: string)
    ensures Contains(s, sub) <==> exists i :: OccursAt(s, sub, i)
    decreases |s|
  {
    if StartsWith(s, sub) {
      assert OccursAt(s, sub, 0);
    } else if s != [] {
      ContainsIffOccurs(s[1..], sub);
      if i :| OccursAt(s[1..], sub, i) {
        assert s[i + 1..i + 1 + |sub|] == s[1..][i..i + |sub|];
        assert OccursAt(s, sub, i + 1);
      }
      if i :| OccursAt(s, sub, i) {
        assert i != 0;
        assert s[1..][i - 1..i - 1 + |sub|] == s[i..i + |sub|];
        assert OccursAt(s[1..], sub, i - 1);
      }
    }
  }

  /** Searching for a one-character string is searching for the character. */
  lemma {:induction false} ContainsChar(s: string, c: char)
    ensures Contains(s, [c]) <==> c in s
    decreases |s|
  {
    if s != [] {
      ContainsChar(s[1..], c);
      assert s == [s[0]] + s[1..];
    }
  }

  // ----- String.Split(char) -----

  /** `s.Split(sep)`: the pieces between separators, empty pieces kept. */
  function Split(s: string, sep: char): (r: seq<string>)
    ensures |r| >= 1
    decreases |s|
  {
    if s == [] then [""]
    else if s[0] == sep then [""] + Split(s[1..], sep)
    else
      var rest := Split(s[1..], sep);
      [[s[0]] + rest[0]] + rest[1..]
  }

  /** The inverse of `Split`: the pieces joined with the separator between them. */
  function Join(parts: seq<string>, sep: char): string {
    if parts == [] then ""
    else if |parts| == 1 then parts[0]
    else parts[0] + [sep] + Join(parts[1..], sep)
  }

  /** `Split` yields one more piece than there are separators. */
  lemma {:induction false} SplitCount(s: string, sep: char)
    ensures |Split(s, sep)| == Count(s, sep) + 1
    decreases |s|
  {
    if s != [] {
      SplitCount(s[1..], sep);
    }
  }

  /** No piece contains the separator, and joining the pieces gives the input back. */
  lemma SplitJoin(s: string, sep: char)
    ensures forall k :: 0 <= k < |Split(s, sep)| ==> sep !in Split(s, sep)[k]
    ensures Join(Split(s, sep), sep) == s
  {
    SplitPiecesFree(s, sep);
    SplitJoinsBack(s, sep);
  }

  lemma {:induction false} SplitPiecesFree(s: string, sep: char)
    ensures forall k :: 0 <= k < |Split(s, sep)| ==> sep !in Split(s, sep)[k]
    decreases |s|
  {
    if s != [] {
      SplitPiecesFree(s[1..], sep);
      var rest := Split(s[1..], sep);
      var r := Split(s, sep);
      if s[0] == sep {
        assert r == [""] + rest;
        forall k | 0 < k < |r| ensures sep !in r[k] {
          assert r[k] == rest[k - 1];
        }
      } else {
        assert r == [[s[0]] + rest[0]] + rest[1..];
        forall k | 0 < k < |r| ensures sep !in r[k] {
          assert r[k] == rest[k];
        }
      }
    }
  }

  lemma {:induction false} SplitJoinsBack(s: string, sep: char)
    ensures Join(Split(s, sep), sep) == s
    decreases |s|
  {
    if s != [] {
      SplitJoinsBack(s[1..], sep);
      var rest := Split(s[1..], sep);
      if s[0] == sep {
        JoinAfterEmpty(rest, sep);
        assert s == [sep] + s[1..];
      } else {
        JoinExtendFirst(s[0], rest, sep);
        assert s == [s[0]] + s[1..];
      }
    }
  }

  /** Joining after an empty first piece puts one separator in front. */
  lemma JoinAfterEmpty(parts: seq<string>, sep: char)
    requires parts != []
    ensures Join([""] + parts, sep) == [sep] + Join(parts, sep)
  {
    var r := [""] + parts;
    assert r[1..] == parts;
    assert Join(r, sep) == "" + [sep] + Join(parts, sep);
  }

  /** Extending the first piece by one character extends the joined string likewise. */
  lemma JoinExtendFirst(c: char, parts: seq<string>, sep: char)
    requires parts != []
    ensures Join([[c] + parts[0]] + parts[1..], sep) == [c] + Join(parts, sep)
  {
    var r := [[c] + parts[0]] + parts[1..];
    assert r[0] == [c] + parts[0];
    if |parts| > 1 {
      assert r[1..] == parts[1..];
      assert Join(parts, sep) == parts[0] + [sep] + Join(parts[1..], sep);
      assert Join(r, sep) == ([c] + parts[0]) + [sep] + Join(parts[1..], sep);
    }
  }

  /** A string without the separator splits into itself alone. */
  lemma {:induction false} SplitWithoutSeparator(s: string, sep: char)
    requires sep !in s
    ensures Split(s, sep) == [s]
    decreases |s|
  {
    if s != [] {
      assert sep !in s[1..];
      SplitWithoutSeparator(s[1..], sep);
      assert s == [s[0]] + s[1..];
    }
  }

  /** Splitting `a`, the separator and `b`, with no separator in `a`, gives `a` and then the
      pieces of `b`. */
  lemma {:induction false} SplitAtSeparator(a: string, b: string, sep: char)
    requires sep !in a
    ensures Split(a + [sep] + b, sep) == [a] + Split(b, sep)
    decreases |a|
  {
    if a != [] {
      assert sep !in a[1..];
      SplitAtSeparator(a[1..], b, sep);
      assert (a + [sep] + b)[1..] == a[1..] + [sep] + b;
      assert [a[0]] + a[1..] == a;
    } else {
      assert a + [sep] + b == [sep] + b;
    }
  }

  // ----- String.Trim -----

  /** The characters `string.Trim()` removes: those `char.IsWhiteSpace` accepts, namely the
      control characters U+0009 to U+000D and U+0085, the space separators (U+0020, U+00A0,
      U+1680, U+2000 to U+200A, U+202F, U+205F, U+3000) and the line and paragraph separators
      U+2028 and U+2029. */
  const WhiteSpace: set<char> :=
    {'\t', '\n', '\U{B}', '\U{C}', '\r', '\U{85}',
     ' ', '\U{A0}', '\U{1680}',
     '\U{2000}', '\U{2001}', '\U{2002}', '\U{2003}', '\U{2004}', '\U{2005}',
     '\U{2006}', '\U{2007}', '\U{2008}', '\U{2009}', '\U{200A}',
     '\U{2028}', '\U{2029}', '\U{202F}', '\U{205F}', '\U{3000}'}

  /** The white space `Int32.Parse` skips around a number: U+0009 to U+000D and U+0020. */
  const NumberWhiteSpace: set<char> := {'\t', '\n', '\U{B}', '\U{C}', '\r', ' '}

  function TrimStart(s: string, cs: set<char>): string
    decreases |s|
  {
    if s != [] && s[0] in cs then TrimStart(s[1..], cs) else s
  }

  function TrimEnd(s: string, cs: set<char>): string
    decreases |s|
  {
    if s != [] && s[|s| - 1] in cs then TrimEnd(s[..|s| - 1], cs) else s
  }

  /** `s.Trim(cs)`: leading and trailing characters from `cs` removed. */
  function Trim(s: string, cs: set<char>): string {
    TrimEnd(TrimStart(s, cs), cs)
  }

  /** How many leading characters `TrimStart` removes. */
  function LeadCount(s: string, cs: set<char>): (n: nat)
    ensures n <= |s|
    decreases |s|
  {
    if s != [] && s[0] in cs then 1 + LeadCount(s[1..], cs) else 0
  }

  /** How many characters `TrimEnd` keeps. */
  function KeepCount(s: string, cs: set<char>): (n: nat)
    ensures n <= |s|
    decreases |s|
  {
    if s != [] && s[|s| - 1] in cs then KeepCount(s[..|s| - 1], cs) else |s|
  }

  lemma {:induction false} TrimStartSuffix(s: string, cs: set<char>)
    ensures TrimStart(s, cs) == s[LeadCount(s, cs)..]
    ensures TrimStart(s, cs) != [] ==> TrimStart(s, cs)[0] !in cs
    decreases |s|
  {
    if s != [] && s[0] in cs {
      TrimStartSuffix(s[1..], cs);
      assert s[1..][LeadCount(s[1..], cs)..] == s[LeadCount(s, cs)..];
    }
  }

  lemma {:induction false} TrimEndPrefix(s: string, cs: set<char>)
    ensures TrimEnd(s, cs) == s[..KeepCount(s, cs)]
    ensures TrimEnd(s, cs) != [] ==> TrimEnd(s, cs)[|TrimEnd(s, cs)| - 1] !in cs
    decreases |s|
  {
    if s != [] && s[|s| - 1] in cs {
      TrimEndPrefix(s[..|s| - 1], cs);
      assert s[..|s| - 1][..KeepCount(s, cs)] == s[..KeepCount(s, cs)];
    }
  }

  lemma TrimStartShape(s: string, cs: set<char>)
    ensures exists k :: 0 <= k <= |s| && TrimStart(s, cs) == s[k..]
    ensures TrimStart(s, cs) != [] ==> TrimStart(s, cs)[0] !in cs
  {
    TrimStartSuffix(s, cs);
    var k := LeadCount(s, cs);
    assert 0 <= k <= |s| && TrimStart(s, cs) == s[k..];
  }

  lemma TrimEndShape(s: string, cs: set<char>)
    ensures exists k :: 0 <= k <= |s| && TrimEnd(s, cs) == s[..k]
    ensures TrimEnd(s, cs) != [] ==> TrimEnd(s, cs)[|TrimEnd(s, cs)| - 1] !in cs
  {
    TrimEndPrefix(s, cs);
    var k := KeepCount(s, cs);
    assert 0 <= k <= |s| && TrimEnd(s, cs) == s[..k];
  }

  /** `Trim` keeps a contiguous part of its input, which neither starts nor ends with a
      trimmed character. */
  lemma TrimShape(s: string, cs: set<char>)
    ensures exists i, j :: 0 <= i <= j <= |s| && Trim(s, cs) == s[i..j]
    ensures Trim(s, cs) != [] ==> Trim(s, cs)[0] !in cs && Trim(s, cs)[|Trim(s, cs)| - 1] !in cs
  {
    var u := TrimStart(s, cs);
    var i := LeadCount(s, cs);
    var k := KeepCount(u, cs);
    var t := Trim(s, cs);
    assert u == s[i..] by {
      TrimStartSuffix(s, cs);
    }
    assert t == u[..k] by {
      TrimEndPrefix(u, cs);
    }
    assert u[..k] == s[i..i + k];
    assert 0 <= i <= i + k <= |s| && t == s[i..i + k];
    if t != [] {
      TrimStartSuffix(s, cs);
      TrimEndPrefix(u, cs);
      assert t[0] == u[0];
    }
  }

  /** Trimming twice is trimming once. */
  lemma TrimIdempotent(s: string, cs: set<char>)
    ensures Trim(Trim(s, cs), cs) == Trim(s, cs)
  {
    var t := Trim(s, cs);
    TrimShape(s, cs);
    assert TrimStart(t, cs) == t;
    if t != [] {
      assert TrimEnd(t, cs) == t;
    }
  }

  // ----- decimal integers -----

  const Int32Min: int := -0x8000_0000
  const Int32Max: int := 0x7FFF_FFFF

  predicate IsInt32(n: int) {
    Int32Min <= n <= Int32Max
  }

  /** A C# `int` sum: the mathematical sum wrapped into 32 bits. */
  function Wrap32(n: int): (r: int)
    ensures IsInt32(r)
    ensures (r - n) % 0x1_0000_0000 == 0
    ensures IsInt32(n) ==> r == n
  {
    (n - Int32Min) % 0x1_0000_0000 + Int32Min
  }

  predicate IsDigit(c: char) {
    48 <= c as int <= 57
  }

  function DigitChar(d: nat): char
    requires d < 10
  {
    (d + 48) as char
  }

  function DigitValue(c: char): nat
    requires IsDigit(c)
  {
    c as int - 48
  }

  /** Decimal digits of `n`, most significant first, without leading zeros. */
  function NatToString(n: nat): string
    decreases n
  {
    if n < 10 then [DigitChar(n)] else NatToString(n / 10) + [DigitChar(n % 10)]
  }

  /** `int.ToString()` in the invariant culture. */
  function IntToString(n: int): string {
    if n < 0 then "-" + NatToString(-n) else NatToString(n)
  }

  predicate AllDigits(s: string) {
    forall i :: 0 <= i < |s| ==> IsDigit(s[i])
  }

  function DigitsValue(s: string): nat
    requires AllDigits(s)
    decreases |s|
  {
    if s == [] then 0 else DigitsValue(s[..|s| - 1]) * 10 + DigitValue(s[|s| - 1])
  }

  /** The digits of a number text once the white space around it and its sign are gone. */
  function NumberDigits(s: string): string {
    var t := Trim(s, NumberWhiteSpace);
    if t != [] && (t[0] == '-' || t[0] == '+') then t[1..] else t
  }

  /** What `Int32.Parse` with the integer number style accepts as a number: optional white
      space, an optional sign, at least one decimal digit and optional white space. */
  predicate IntegerText(s: string) {
    NumberDigits(s) != [] && AllDigits(NumberDigits(s))
  }

  /** `Convert.ToInt32(string)` on a non-null string: anything but an integer text throws
      `FormatException`, a value outside 32 bits `OverflowException`. */
  function ParseInt32(s: string): (r: Result<int>)
    ensures r == Err(Format) <==> !IntegerText(s)
    ensures r.Err? ==> r.error in {Format, Overflow}
    ensures r.Ok? ==> IsInt32(r.value)
  {
    if !IntegerText(s) then Err(Format)
    else
      var t := Trim(s, NumberWhiteSpace);
      var magnitude: int := DigitsValue(NumberDigits(s));
      var n: int := if t[0] == '-' then -magnitude else magnitude;
      if IsInt32(n) then Ok(n) else Err(Overflow)
  }

  lemma {:induction false} NatToStringDigits(n: nat)
    ensures NatToString(n) != [] && AllDigits(NatToString(n))
    ensures DigitsValue(NatToString(n)) == n
    decreases n
  {
    if n >= 10 {
      NatToStringDigits(n / 10);
      var s := NatToString(n);
      assert s[..|s| - 1] == NatToString(n / 10);
    }
  }

  /** Formatting a 32-bit integer and parsing it back gives the same integer, and so does
      parsing it with white space around it. */
  lemma IntToStringRoundTrip(n: int)
    requires IsInt32(n)
    ensures ParseInt32(IntToString(n)) == Ok(n)
    ensures ParseInt32(" " + IntToString(n) + " ") == Ok(n)
  {
    var s := IntToString(n);
    var m: nat := if n < 0 then -n else n;
    NatToStringDigits(m);
    assert s[0] !in NumberWhiteSpace by {
      if n >= 0 { assert s[0] == NatToString(m)[0]; }
    }
    assert s[|s| - 1] !in NumberWhiteSpace by {
      if n < 0 { assert s[|s| - 1] == NatToString(m)[|s| - 2]; }
    }
    assert TrimStart(s, NumberWhiteSpace) == s;
    assert Trim(s, NumberWhiteSpace) == s;
    var padded := " " + s + " ";
    assert padded[1..] == s + " ";
    assert TrimStart(padded, NumberWhiteSpace) == s + " ";
    assert (s + " ")[..|s|] == s;
    assert TrimEnd(s + " ", NumberWhiteSpace) == TrimEnd(s, NumberWhiteSpace) == s;
    if n < 0 {
      assert s[0] == '-';
      assert s[1..] == NatToString(m);
    } else {
      assert s == NatToString(n);
    }
  }

  /** A formatted integer never contains a comma, so it survives `Split(',')` whole. */
  lemma IntToStringNoComma(n: int)
    ensures ',' !in IntToString(n)
  {
    var m: nat := if n < 0 then -n else n;
    NatToStringDigits(m);
    var s := IntToString(n);
    forall i | 0 <= i < |s| ensures s[i] != ',' {
      if n < 0 && i > 0 {
        assert s[i] == NatToString(m)[i - 1];
      } else if n >= 0 {
        assert s[i] == NatToString(m)[i];
      }
    }
  }
}
