/** String helpers of the `Extensions` namespace: concatenation, line-end normalisation, clamped
    substrings, keyword search and tag removal. */
module StringExtensions {
  import opened Common

  // ----- Combine -----

  /** The targets that are neither null nor empty, in order. */
  function Present(targets: seq<NString>): (r: seq<string>)
    ensures forall k :: 0 <= k < |r| ==> r[k] != ""
  {
    if targets == [] then []
    else (if IsNullOrEmpty(targets[0]) then [] else [targets[0].value]) + Present(targets[1..])
  }

  function Concat(parts: seq<string>): string {
    if parts == [] then "" else parts[0] + Concat(parts[1..])
  }

  lemma {:induction false} PresentAppend(targets: seq<NString>, t: NString)
    ensures Present(targets + [t]) == Present(targets) + (if IsNullOrEmpty(t) then [] else [t.value])
  {
    if targets != [] {
      assert (targets + [t])[1..] == targets[1..] + [t];
      PresentAppend(targets[1..], t);
    }
  }

  lemma {:induction false} ConcatAppend(parts: seq<string>, more: seq<string>)
    ensures Concat(parts + more) == Concat(parts) + Concat(more)
  {
    if parts == [] {
      assert parts + more == more;
    } else {
      assert (parts + more)[1..] == parts[1..] + more;
      ConcatAppend(parts[1..], more);
      assert Concat(parts + more) == parts[0] + (Concat(parts[1..]) + Concat(more));
    }
  }

  /** One more target adds its text, or nothing when it is null or empty. */
  lemma CombineStep(targets: seq<NString>, i: nat)
    requires i < |targets|
    ensures Concat(Present(targets[..i + 1])) ==
            Concat(Present(targets[..i])) + (if IsNullOrEmpty(targets[i]) then "" else targets[i].value)
  {
    var t := targets[i];
    assert targets[..i + 1] == targets[..i] + [t];
    PresentAppend(targets[..i], t);
    if !IsNullOrEmpty(t) {
      ConcatAppend(Present(targets[..i]), [t.value]);
      assert Concat([t.value]) == t.value;
    } else {
      assert Present(targets[..i + 1]) == Present(targets[..i]);
    }
  }

  /** `Combine`: the value (null read as empty) followed by every target that is neither null nor
      empty, in order. */
  method Combine(value: NString, targets: seq<NString>) returns (r: string)
    ensures r == OrEmpty(value) + Concat(Present(targets))
  {
    r := OrEmpty(value);
    var i := 0;
    while i < |targets|
      invariant 0 <= i <= |targets|
      invariant r == OrEmpty(value) + Concat(Present(targets[..i]))
    {
      var target := targets[i];
      CombineStep(targets, i);
      if !IsNullOrEmpty(target) {
        r := r + target.value;
        assert r == OrEmpty(value) + (Concat(Present(targets[..i])) + target.value);
      }
      i := i + 1;
    }
    assert targets[..i] == targets;
  }

  // ----- FixLineEnd -----

  const DefaultNewLine: string := "\n"

  /** `string.Replace(from, to)`: every non-overlapping occurrence, scanning left to right. */
  function ReplaceAll(s: string, from: string, to: string): string
    requires from != ""
    decreases |s|
  {
    if |s| < |from| then s
    else if s[..|from|] == from then to + ReplaceAll(s[|from|..], from, to)
    else [s[0]] + ReplaceAll(s[1..], from, to)
  }

  /** `FixLineEnd`: null or empty gives null; text containing a carriage return has every
      "\r\n" and then every remaining "\r" replaced by `newLineStr`; other text is returned
      as it is. */
  function FixLineEnd(value: NString, newLineStr: string): NString {
    if IsNullOrEmpty(value) then None
    else if '\r' in value.value then Some(ReplaceAll(ReplaceAll(value.value, "\r\n", "\r"), "\r", newLineStr))
    else value
  }

  /** Reference definition: one pass that turns each "\r\n" and each lone "\r" into `nl`. */
  function NormalizeLineEnds(s: string, nl: string): string
    decreases |s|
  {
    if s == [] then []
    else if s[0] == '\r' && |s| >= 2 && s[1] == '\n' then nl + NormalizeLineEnds(s[2..], nl)
    else if s[0] == '\r' then nl + NormalizeLineEnds(s[1..], nl)
    else [s[0]] + NormalizeLineEnds(s[1..], nl)
  }

  lemma {:induction false} TwoPassesAreOne(s: string, nl: string)
    ensures ReplaceAll(ReplaceAll(s, "\r\n", "\r"), "\r", nl) == NormalizeLineEnds(s, nl)
    decreases |s|
  {
    if s == [] {
    } else if s[0] == '\r' && |s| >= 2 && s[1] == '\n' {
      TwoPassesAreOne(s[2..], nl);
      assert s[..2] == "\r\n";
      var t := ReplaceAll(s[2..], "\r\n", "\r");
      assert ReplaceAll(s, "\r\n", "\r") == "\r" + t;
      assert ("\r" + t)[..1] == "\r" && ("\r" + t)[1..] == t;
    } else {
      TwoPassesAreOne(s[1..], nl);
      var t := ReplaceAll(s[1..], "\r\n", "\r");
      assert ReplaceAll(s, "\r\n", "\r") == [s[0]] + t;
      assert ([s[0]] + t)[..1] == [s[0]] && ([s[0]] + t)[1..] == t;
    }
  }

  lemma {:induction false} NormalizeWithoutCarriageReturn(s: string, nl: string)
    requires '\r' !in s
    ensures NormalizeLineEnds(s, nl) == s
    decreases |s|
  {
    if s != [] {
      assert '\r' !in s[1..];
      NormalizeWithoutCarriageReturn(s[1..], nl);
      assert s == [s[0]] + s[1..];
    }
  }

  /** `FixLineEnd` of a non-empty string is the one-pass normalisation of it. */
  lemma FixLineEndIsNormalization(s: string, nl: string)
    requires s != ""
    ensures FixLineEnd(Some(s), nl) == Some(NormalizeLineEnds(s, nl))
  {
    if '\r' in s {
      TwoPassesAreOne(s, nl);
    } else {
      NormalizeWithoutCarriageReturn(s, nl);
    }
  }

  /** With "\n" as the new line, no carriage return survives, and a line feed is present
      exactly where the input had a carriage return or a line feed. */
  lemma {:induction false} NormalizeToLineFeed(s: string)
    ensures '\r' !in NormalizeLineEnds(s, "\n")
    ensures '\n' in NormalizeLineEnds(s, "\n") <==> ('\r' in s || '\n' in s)
    decreases |s|
  {
    if s == [] {
    } else if s[0] == '\r' && |s| >= 2 && s[1] == '\n' {
      NormalizeToLineFeed(s[2..]);
    } else if s[0] == '\r' {
      NormalizeToLineFeed(s[1..]);
    } else {
      NormalizeToLineFeed(s[1..]);
      assert s == [s[0]] + s[1..];
    }
  }

  /** `FixLineEnd` with the default new line: null for null or empty input, no carriage return
      in the output, input without a carriage return returned unchanged, and a line feed in the
      output exactly when the input had a line break of either kind. */
  lemma FixLineEndDefault(value: NString)
    ensures IsNullOrEmpty(value) <==> FixLineEnd(value, DefaultNewLine).None?
    ensures !IsNullOrEmpty(value) ==> '\r' !in FixLineEnd(value, DefaultNewLine).value
    ensures !IsNullOrEmpty(value) && '\r' !in value.value ==> FixLineEnd(value, DefaultNewLine) == value
    ensures !IsNullOrEmpty(value) ==>
      ('\n' in FixLineEnd(value, DefaultNewLine).value <==> '\r' in value.value || '\n' in value.value)
  {
    if !IsNullOrEmpty(value) {
      FixLineEndIsNormalization(value.value, DefaultNewLine);
      NormalizeToLineFeed(value.value);
    }
  }

  // ----- SafeSubstring, SubstringEquals -----

  /** LINQ `Skip`: drops the first `n` elements (none when `n` is not positive). */
  function Skip(s: string, n: int): string
    decreases |s|
  {
    if n <= 0 || s == [] then s else Skip(s[1..], n - 1)
  }

  /** LINQ `Take`: keeps the first `n` elements (none when `n` is not positive). */
  function Take(s: string, n: int): string
    decreases |s|
  {
    if n <= 0 || s == [] then [] else [s[0]] + Take(s[1..], n - 1)
  }

  lemma {:induction false} SkipIsSlice(s: string, n: int)
    ensures Skip(s, n) == s[Clamp(n, |s|)..]
    decreases |s|
  {
    if n > 0 && s != [] {
      SkipIsSlice(s[1..], n - 1);
      assert s[1..][Clamp(n - 1, |s| - 1)..] == s[Clamp(n, |s|)..];
    }
  }

  lemma {:induction false} TakeIsSlice(s: string, n: int)
    ensures Take(s, n) == s[..Clamp(n, |s|)]
    decreases |s|
  {
    if n > 0 && s != [] {
      TakeIsSlice(s[1..], n - 1);
      assert [s[0]] + s[1..][..Clamp(n - 1, |s| - 1)] == s[..Clamp(n, |s|)];
    }
  }

  /** `n` clamped into `0..len`. */
  function Clamp(n: int, len: nat): (r: nat)
    ensures r <= len
  {
    if n < 0 then 0 else if n > len then len else n
  }

  /** `SafeSubstring`: never throws; null reads as empty, and a missing length means
      `int.MaxValue`. */
  function SafeSubstring(value: NString, startIndex: int, length: Option<int>): (r: string)
    ensures r == Take(Skip(OrEmpty(value), startIndex), if length.Some? then length.value else Int32Max)
    ensures |r| <= |OrEmpty(value)|
    ensures length.Some? ==> |r| <= Clamp(length.value, |OrEmpty(value)|)
  {
    var s := OrEmpty(value);
    var len := if length.Some? then length.value else Int32Max;
    var from := Clamp(startIndex, |s|);
    SkipIsSlice(s, startIndex);
    TakeIsSlice(s[from..], len);
    s[from..][..Clamp(len, |s| - from)]
  }

  /** `SubstringEquals`: false when the range runs past the end of `value`, otherwise whether
      the clamped substring equals `target`. The test adds two C# `int`s, so the end of the
      range is the 32-bit wrapped sum `Wrap32(startIndex + length)`. */
  function SubstringEquals(value: string, startIndex: int, length: int, target: string): (r: bool)
    requires IsInt32(startIndex) && IsInt32(length)
    ensures |value| < Wrap32(startIndex + length) ==> !r
    ensures 0 <= startIndex && 0 <= length && startIndex + length <= Int32Max ==>
      (r <==> startIndex + length <= |value| && value[startIndex..startIndex + length] == target)
    ensures 0 <= startIndex && 0 <= length && startIndex + length > Int32Max && |value| <= Int32Max ==>
      (r <==> value[Clamp(startIndex, |value|)..] == target)
  {
    if |value| < Wrap32(startIndex + length) then false
    else SafeSubstring(Some(value), startIndex, Some(length)) == target
  }

  /** A range whose end overflows `int` wraps to a negative sum, passes the length test and
      compares the rest of the string: "abc" from 1 with length `int.MaxValue` equals "bc". */
  lemma SubstringEqualsWraps()
    ensures Wrap32(1 + Int32Max) == Int32Min
    ensures SubstringEquals("abc", 1, Int32Max, "bc")
  {
    assert "abc"[1..] == "bc";
  }

  // ----- IsMatch -----

  /** `IsMatch`: true exactly when the text is neither null nor empty and contains every
      keyword, both lower-cased. */
  method IsMatch(text: NString, keywords: seq<string>) returns (r: bool)
    ensures r <==> (!IsNullOrEmpty(text) &&
                    forall k :: 0 <= k < |keywords| ==> Contains(ToLower(text.value), ToLower(keywords[k])))
  {
    var lowered := seq(|keywords|, i requires 0 <= i < |keywords| => ToLower(keywords[i]));
    if !IsNullOrEmpty(text) {
      var tl := ToLower(text.value);
      var matches := 0;
      var b := 0;
      while b < |lowered|
        invariant 0 <= matches <= b <= |lowered|
        invariant matches == b <==> forall k :: 0 <= k < b ==> Contains(tl, lowered[k])
      {
        if Contains(tl, lowered[b]) {
          matches := matches + 1;
        }
        b := b + 1;
      }
      assert forall k :: 0 <= k < |keywords| ==> lowered[k] == ToLower(keywords[k]);
      if matches == |lowered| {
        return true;
      }
    }
    return false;
  }

  // ----- RemoveTag -----

  /** Index of the `>` that closes a `<` at index 0, looking from `j`: the nearest `>` with no
      line feed before it, as the lazy pattern "<.*?>" finds it. */
  function FindClose(s: string, j: nat): (r: Option<nat>)
    ensures r.Some? ==> j <= r.value < |s| && s[r.value] == '>'
    decreases |s| - j
  {
    if j >= |s| then None
    else if s[j] == '>' then Some(j)
    else if s[j] == '\n' then None
    else FindClose(s, j + 1)
  }

  /** `RemoveTag`: every span from a `<` to the nearest following `>` on the same line is
      deleted; a `<` with no such `>` stays. */
  function RemoveTag(text: string): string
    decreases |text|
  {
    if text == [] then []
    else if text[0] == '<' && FindClose(text, 1).Some? then RemoveTag(text[FindClose(text, 1).value + 1..])
    else [text[0]] + RemoveTag(text[1..])
  }

  /** Every `>` in `s` has a line feed somewhere before it. */
  ghost predicate Guarded(s: string) {
    forall j :: 0 <= j < |s| && s[j] == '>' ==> exists k :: 0 <= k < j && s[k] == '\n'
  }

  /** No tag is left: between every `<` and every later `>` there is a line feed. */
  ghost predicate NoTag(s: string) {
    forall i, j :: 0 <= i < j < |s| && s[i] == '<' && s[j] == '>' ==>
      exists k :: i < k < j && s[k] == '\n'
  }

  lemma {:induction false} FindCloseNone(s: string, j: nat)
    requires FindClose(s, j) == None
    ensures forall m :: j <= m < |s| && s[m] == '>' ==> exists k :: j <= k < m && s[k] == '\n'
    decreases |s| - j
  {
    if j < |s| && s[j] != '\n' {
      FindCloseNone(s, j + 1);
    }
  }

  lemma {:induction false} FindCloseSome(s: string, j: nat)
    requires FindClose(s, j).Some?
    ensures forall k :: j <= k < FindClose(s, j).value ==> s[k] != '\n'
    decreases |s| - j
  {
    if s[j] != '>' {
      FindCloseSome(s, j + 1);
    }
  }

  lemma GuardedCons(c: char, s: string)
    requires c != '>' && Guarded(s)
    ensures Guarded([c] + s)
  {
    var t := [c] + s;
    forall j | 0 <= j < |t| && t[j] == '>' ensures exists k :: 0 <= k < j && t[k] == '\n' {
      assert j > 0 && s[j - 1] == '>';
      var k :| 0 <= k < j - 1 && s[k] == '\n';
      assert t[k + 1] == '\n';
    }
  }

  lemma {:induction false} RemoveTagKeepsGuard(s: string)
    requires Guarded(s)
    ensures Guarded(RemoveTag(s))
    decreases |s|
  {
    if s == [] {
    } else if s[0] == '\n' {
      var t := ['\n'] + RemoveTag(s[1..]);
      assert RemoveTag(s) == t;
      forall j | 0 <= j < |t| && t[j] == '>' ensures exists k :: 0 <= k < j && t[k] == '\n' {
        assert t[0] == '\n';
      }
    } else if s[0] == '>' {
      assert false;
    } else if s[0] == '<' && FindClose(s, 1).Some? {
      FindCloseSome(s, 1);
      assert false;
    } else {
      forall j | 0 <= j < |s[1..]| && s[1..][j] == '>' ensures exists k :: 0 <= k < j && s[1..][k] == '\n' {
        var k :| 0 <= k < j + 1 && s[k] == '\n';
        assert k != 0 && s[1..][k - 1] == '\n';
      }
      RemoveTagKeepsGuard(s[1..]);
      GuardedCons(s[0], RemoveTag(s[1..]));
    }
  }

  /** No tag survives `RemoveTag`. */
  lemma {:induction false} RemoveTagLeavesNoTag(s: string)
    ensures NoTag(RemoveTag(s))
    decreases |s|
  {
    if s == [] {
    } else if s[0] == '<' && FindClose(s, 1).Some? {
      RemoveTagLeavesNoTag(s[FindClose(s, 1).value + 1..]);
    } else {
      RemoveTagLeavesNoTag(s[1..]);
      var rest := RemoveTag(s[1..]);
      assert RemoveTag(s) == [s[0]] + rest;
      if s[0] == '<' {
        UnclosedGuarded(s);
        RemoveTagKeepsGuard(s[1..]);
      }
      NoTagCons(s[0], rest);
    }
  }

  /** After an unclosed `<`, every `>` has a line feed before it. */
  lemma UnclosedGuarded(s: string)
    requires s != [] && FindClose(s, 1) == None
    ensures Guarded(s[1..])
  {
    FindCloseNone(s, 1);
    forall j | 0 <= j < |s[1..]| && s[1..][j] == '>' ensures exists k :: 0 <= k < j && s[1..][k] == '\n' {
      var k :| 1 <= k < j + 1 && s[k] == '\n';
      assert s[1..][k - 1] == '\n';
    }
  }

  /** A character put in front of tag-free text leaves it tag-free, provided a `<` is
      followed only by guarded text. */
  lemma NoTagCons(c: char, rest: string)
    requires NoTag(rest)
    requires c == '<' ==> Guarded(rest)
    ensures NoTag([c] + rest)
  {
    var t := [c] + rest;
    forall i, j | 0 <= i < j < |t| && t[i] == '<' && t[j] == '>' ensures exists k :: i < k < j && t[k] == '\n' {
      assert t[j] == rest[j - 1];
      if i == 0 {
        var k :| 0 <= k < j - 1 && rest[k] == '\n';
        assert t[k + 1] == '\n';
      } else {
        assert rest[i - 1] == '<';
        var k :| i - 1 < k < j - 1 && rest[k] == '\n';
        assert t[k + 1] == '\n';
      }
    }
  }

  /** `RemoveTag` never lengthens its input and leaves text without `<` unchanged. */
  lemma {:induction false} RemoveTagBounds(s: string)
    ensures |RemoveTag(s)| <= |s|
    ensures '<' !in s ==> RemoveTag(s) == s
    decreases |s|
  {
    if s == [] {
    } else if s[0] == '<' && FindClose(s, 1).Some? {
      RemoveTagBounds(s[FindClose(s, 1).value + 1..]);
    } else {
      RemoveTagBounds(s[1..]);
      assert '<' !in s ==> '<' !in s[1..];
      assert s == [s[0]] + s[1..];
    }
  }
}
