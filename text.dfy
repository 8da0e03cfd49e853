/** Python string operations the bot relies on, over `string` = `seq<char>`.
  * Substring tests (`in`), `find`, `lower`, `strip`, `split()`, `isdigit`,
  * `count`, `replace` and `re.findall(r'\d+')` are each defined once here. */
module Text {

  // ---------------------------------------------------------------- substrings

  /** `p` is a prefix of `s` (Python `s.startswith(p)`). */
  predicate IsPrefix(p: string, s: string)
  {
    |p| <= |s| && s[..|p|] == p
  }

  /** Python `sub in s`: some position of `s` starts with `sub`. */
  predicate Contains(s: string, sub: string)
    decreases |s|
  {
    IsPrefix(sub, s) || (|s| > 0 && Contains(s[1..], sub))
  }

  /** Python `s.find(sub)`: the first position where `sub` starts, or -1. */
  function Find(s: string, sub: string): (r: int)
    decreases |s|
    ensures -1 <= r <= |s|
    ensures r == -1 <==> !Contains(s, sub)
    ensures r >= 0 ==> IsPrefix(sub, s[r..])
    ensures r >= 0 ==> forall j :: 0 <= j < r ==> !IsPrefix(sub, s[j..])
  {
    if IsPrefix(sub, s) then 0
    else if |s| == 0 then -1
    else
      var k := Find(s[1..], sub);
      assert forall j :: 1 <= j <= |s| ==> s[j..] == s[1..][j - 1..];
      if k < 0 then -1 else k + 1
  }

  /** `sub in s` holds exactly when some suffix of `s` starts with `sub`. */
  lemma {:induction false} ContainsAt(s: string, sub: string)
    ensures Contains(s, sub) <==> exists i :: 0 <= i <= |s| && IsPrefix(sub, s[i..])
    decreases |s|
  {
    if |s| > 0 {
      ContainsAt(s[1..], sub);
      assert forall j :: 1 <= j <= |s| ==> s[j..] == s[1..][j - 1..];
      if IsPrefix(sub, s) {
        assert s[0..] == s;
      }
    } else {
      assert forall i :: 0 <= i <= |s| ==> i == 0 && s[i..] == s;
    }
  }

  /** A text that contains `t` contains everything `t` contains. */
  lemma {:induction false} ContainsTransitive(s: string, t: string, sub: string)
    requires Contains(s, t) && Contains(t, sub)
    ensures Contains(s, sub)
  {
    ContainsAt(s, t);
    ContainsAt(t, sub);
    var i :| 0 <= i <= |s| && IsPrefix(t, s[i..]);
    var j :| 0 <= j <= |t| && IsPrefix(sub, t[j..]);
    assert s[i + j..][..|sub|] == t[j..][..|sub|];
    ContainsAt(s, sub);
  }

  /** A longer needle than the haystack never occurs. */
  lemma {:induction false} NotContainsLonger(s: string, sub: string)
    requires |sub| > |s|
    ensures !Contains(s, sub)
    decreases |s|
  {
    if |s| > 0 {
      NotContainsLonger(s[1..], sub);
    }
  }

  /** A text that lacks the first character of a needle does not contain it. */
  lemma {:induction false} NotContainsAbsentHead(s: string, sub: string)
    requires |sub| > 0 && forall i :: 0 <= i < |s| ==> s[i] != sub[0]
    ensures !Contains(s, sub)
    decreases |s|
  {
    if |s| > 0 {
      assert forall i :: 0 <= i < |s| - 1 ==> s[1..][i] == s[i + 1];
      NotContainsAbsentHead(s[1..], sub);
      if |sub| <= |s| {
        assert s[..|sub|][0] == s[0] != sub[0];
      }
    }
  }

  /** The empty text contains only the empty needle. */
  lemma EmptyContainsOnlyEmpty(sub: string)
    requires sub != ""
    ensures !Contains("", sub)
  {
  }

  /** Every text contains itself. */
  lemma ContainsSelf(s: string)
    ensures Contains(s, s)
  {
    assert s[..|s|] == s;
  }

  /** `any(k in s for k in ks)`. */
  predicate AnyIn(ks: seq<string>, s: string)
  {
    exists i :: 0 <= i < |ks| && Contains(s, ks[i])
  }

  /** Index of the first entry of `ks` that `s` contains, if any. */
  function FirstIn(ks: seq<string>, s: string): (r: Option<nat>)
    ensures r.None? <==> !AnyIn(ks, s)
    ensures r.Some? ==> r.value < |ks| && Contains(s, ks[r.value])
    ensures r.Some? ==> forall j :: 0 <= j < r.value ==> !Contains(s, ks[j])
  {
    if |ks| == 0 then None
    else if Contains(s, ks[0]) then Some(0)
    else
      var rest := FirstIn(ks[1..], s);
      assert forall j :: 1 <= j < |ks| ==> ks[j] == ks[1..][j - 1];
      if rest.None? then None else Some(rest.value + 1)
  }

  /** `sum(1 for k in ks if k in s)`: how many entries of `ks` occur in `s`. */
  function CountIn(ks: seq<string>, s: string): (n: nat)
    ensures n <= |ks|
    ensures n > 0 <==> AnyIn(ks, s)
  {
    if |ks| == 0 then 0
    else
      assert forall j :: 1 <= j < |ks| ==> ks[j] == ks[1..][j - 1];
      (if Contains(s, ks[0]) then 1 else 0) + CountIn(ks[1..], s)
  }

  datatype Option<T> = None | Some(value: T)

  // ---------------------------------------------------------------- case

  /** Python's `str.lower()` on one character, for Latin A–Z and the Cyrillic
    * capitals used by Russian and Ukrainian (U+0400–U+042F and Ґ); every
    * other character, Latin-1 and Greek capitals included, is kept. */
  function LowerChar(c: char): (d: char)
  {
    if 'A' <= c <= 'Z' then (c as int + 32) as char
    else if 'А' <= c <= 'Я' then (c as int + 32) as char
    else if 'Ѐ' <= c <= 'Џ' then (c as int + 80) as char
    else if c == 'Ґ' then 'ґ'
    else c
  }

  /** Python `s.lower()`. */
  function Lower(s: string): (r: string)
    ensures |r| == |s|
    ensures forall i :: 0 <= i < |s| ==> r[i] == LowerChar(s[i])
  {
    seq(|s|, i requires 0 <= i < |s| => LowerChar(s[i]))
  }

  lemma LowerCharIdempotent(c: char)
    ensures LowerChar(LowerChar(c)) == LowerChar(c)
  {
  }

  /** Lowering twice is lowering once. */
  lemma LowerIdempotent(s: string)
    ensures Lower(Lower(s)) == Lower(s)
  {
    forall i | 0 <= i < |s|
      ensures Lower(Lower(s))[i] == Lower(s)[i]
    {
      LowerCharIdempotent(s[i]);
    }
  }

  /** Lowering a concatenation lowers each part. */
  lemma LowerAppend(a: string, b: string)
    ensures Lower(a + b) == Lower(a) + Lower(b)
  {
  }

  /** A text containing `t` still contains it after both are lowered. */
  lemma {:induction false} LowerPreservesContains(s: string, t: string)
    requires Contains(s, t)
    ensures Contains(Lower(s), Lower(t))
  {
    ContainsAt(s, t);
    var i :| 0 <= i <= |s| && IsPrefix(t, s[i..]);
    assert Lower(s)[i..][..|t|] == Lower(t);
    ContainsAt(Lower(s), Lower(t));
  }

  /** Python's `str.upper()` on one character: the inverse of `LowerChar`
    * on the small letters it produces. */
  function UpperChar(c: char): (d: char)
    ensures LowerChar(d) == LowerChar(c)
  {
    if 'a' <= c <= 'z' then (c as int - 32) as char
    else if 'а' <= c <= 'я' then (c as int - 32) as char
    else if 'ѐ' <= c <= 'џ' then (c as int - 80) as char
    else if c == 'ґ' then 'Ґ'
    else c
  }

  /** Python `s.capitalize()`: the first character upper-cased, the rest
    * lowered. */
  function Capitalize(s: string): (r: string)
    ensures |r| == |s|
    ensures Lower(r) == Lower(s)
    ensures |s| > 0 ==> r[0] == UpperChar(s[0])
  {
    if |s| == 0 then "" else [UpperChar(s[0])] + Lower(s[1..])
  }

  // ---------------------------------------------------------------- whitespace

  /** Whitespace as `strip()` and `split()` see it, restricted to the six
    * ASCII blanks; the other characters Python also removes (U+001C–U+001F,
    * U+0085, U+00A0, U+2000–U+200A, U+3000 and more) are not modelled. */
  predicate IsSpace(c: char)
  {
    c == ' ' || c == '\t' || c == '\n' || c == '\r' || c == '\U{000B}' || c == '\U{000C}'
  }

  function StripLeft(s: string): (r: string)
    ensures |r| <= |s| && r == s[|s| - |r|..]
    ensures r == [] || !IsSpace(r[0])
    ensures forall i :: 0 <= i < |s| - |r| ==> IsSpace(s[i])
  {
    if |s| > 0 && IsSpace(s[0]) then
      var r := StripLeft(s[1..]);
      assert s[1..][|s| - 1 - |r|..] == s[|s| - |r|..];
      assert forall i :: 1 <= i < |s| - |r| ==> s[i] == s[1..][i - 1];
      r
    else s
  }

  function StripRight(s: string): (r: string)
    ensures |r| <= |s| && r == s[..|r|]
    ensures r == [] || !IsSpace(r[|r| - 1])
    ensures forall i :: |r| <= i < |s| ==> IsSpace(s[i])
  {
    if |s| > 0 && IsSpace(s[|s| - 1]) then StripRight(s[..|s| - 1]) else s
  }

  /** Python `s.strip()`: the longest infix with no surrounding whitespace. */
  function Strip(s: string): (r: string)
    ensures |r| <= |s|
    ensures r == [] || (!IsSpace(r[0]) && !IsSpace(r[|r| - 1]))
    ensures Contains(s, r)
  {
    var l := StripLeft(s);
    var r := StripRight(l);
    assert IsPrefix(r, l);
    ContainsAt(s, r);
    assert s[|s| - |l|..][..|r|] == r;
    r
  }

  /** Length of the leading run of non-space characters. */
  function TokenLen(s: string): (n: nat)
    ensures n <= |s|
    ensures forall i :: 0 <= i < n ==> !IsSpace(s[i])
    ensures n < |s| ==> IsSpace(s[n])
  {
    if |s| == 0 || IsSpace(s[0]) then 0 else 1 + TokenLen(s[1..])
  }

  /** Python `s.split()`: the maximal runs of non-space characters. */
  function Words(s: string): (ws: seq<string>)
    decreases |s|
    ensures forall k :: 0 <= k < |ws| ==> ws[k] != [] && forall i :: 0 <= i < |ws[k]| ==> !IsSpace(ws[k][i])
  {
    if |s| == 0 then []
    else if IsSpace(s[0]) then Words(s[1..])
    else
      var n := TokenLen(s);
      [s[..n]] + Words(s[n..])
  }

  /** Python `len(s.split())`, counted without building the words. */
  function WordCount(s: string): nat
    decreases |s|
  {
    if |s| == 0 then 0
    else if IsSpace(s[0]) then WordCount(s[1..])
    else 1 + WordCount(s[TokenLen(s)..])
  }

  /** The count is the number of words `Words` splits off. */
  lemma {:induction false} WordCountIsWords(s: string)
    ensures WordCount(s) == |Words(s)|
    decreases |s|
  {
    if |s| > 0 {
      if IsSpace(s[0]) {
        WordCountIsWords(s[1..]);
      } else {
        WordCountIsWords(s[TokenLen(s)..]);
      }
    }
  }

  /** A text made only of whitespace has no words. */
  lemma {:induction false} WordsOfBlank(s: string)
    requires forall i :: 0 <= i < |s| ==> IsSpace(s[i])
    ensures Words(s) == []
    decreases |s|
  {
    if |s| > 0 {
      WordsOfBlank(s[1..]);
    }
  }

  // ---------------------------------------------------------------- digits

  predicate IsDigit(c: char)
  {
    '0' <= c <= '9'
  }

  /** Python `s.isdigit()` restricted to ASCII: non-empty and all of
    * 0–9; the other Unicode digits Python accepts are not modelled. */
  predicate IsDigits(s: string)
  {
    |s| > 0 && forall i :: 0 <= i < |s| ==> IsDigit(s[i])
  }

  /** Decimal value of a run of digits. */
  function DigitsValue(s: string): nat
    requires forall i :: 0 <= i < |s| ==> IsDigit(s[i])
  {
    if |s| == 0 then 0
    else
      assert IsDigit(s[|s| - 1]);
      DigitsValue(s[..|s| - 1]) * 10 + (s[|s| - 1] as int - '0' as int)
  }

  /** Length of the leading run of digits. */
  function DigitRunLen(s: string): (n: nat)
    ensures n <= |s|
    ensures forall i :: 0 <= i < n ==> IsDigit(s[i])
    ensures n < |s| ==> !IsDigit(s[n])
  {
    if |s| == 0 || !IsDigit(s[0]) then 0 else 1 + DigitRunLen(s[1..])
  }

  /** `[int(n) for n in re.findall(r'\d+', s)]`: the values of the maximal
    * runs of digits, left to right. */
  function DigitRuns(s: string): seq<nat>
    decreases |s|
  {
    if |s| == 0 then []
    else if !IsDigit(s[0]) then DigitRuns(s[1..])
    else
      var n := DigitRunLen(s);
      [DigitsValue(s[..n])] + DigitRuns(s[n..])
  }

  /** A text without digits yields no numbers. */
  lemma {:induction false} DigitRunsNone(s: string)
    requires forall i :: 0 <= i < |s| ==> !IsDigit(s[i])
    ensures DigitRuns(s) == []
    decreases |s|
  {
    if |s| > 0 {
      DigitRunsNone(s[1..]);
    }
  }

  /** A text yields no numbers exactly when it holds no digit. */
  lemma {:induction false} DigitRunsEmpty(s: string)
    ensures DigitRuns(s) == [] <==> forall i :: 0 <= i < |s| ==> !IsDigit(s[i])
    decreases |s|
  {
    if |s| > 0 && !IsDigit(s[0]) {
      DigitRunsEmpty(s[1..]);
      assert forall i :: 1 <= i < |s| ==> s[i] == s[1..][i - 1];
    }
  }

  /** A run of digits is read as the one number it spells. */
  lemma DigitRunsOfRun(d: string)
    requires IsDigits(d)
    ensures DigitRuns(d) == [DigitsValue(d)]
  {
    DigitRunLenAll(d);
    assert d[..|d|] == d;
    assert d[|d|..] == [];
  }

  lemma {:induction false} DigitRunLenAll(d: string)
    requires forall i :: 0 <= i < |d| ==> IsDigit(d[i])
    ensures DigitRunLen(d) == |d|
    decreases |d|
  {
    if |d| > 0 {
      DigitRunLenAll(d[1..]);
    }
  }

  /** A non-digit splits the numbers: those of the text before it, then
    * those of the text after it. With `DigitRunsOfRun` and `DigitRunsNone`
    * this says the numbers are the values of the maximal digit runs, one
    * per run, left to right. */
  lemma DigitRunsSeparated(a: string, c: char, b: string)
    requires !IsDigit(c)
    ensures DigitRuns(a + [c] + b) == DigitRuns(a) + DigitRuns(b)
  {
    var ac := a + [c];
    assert ac + b == a + [c] + b;
    DigitRunsAppend(ac, b);
    DigitRunsNonDigitLast(a, c);
  }

  /** A trailing non-digit adds no number. */
  lemma {:induction false} DigitRunsNonDigitLast(a: string, c: char)
    requires !IsDigit(c)
    ensures DigitRuns(a + [c]) == DigitRuns(a)
    decreases |a|
  {
    if |a| == 0 {
      assert ([] + [c])[1..] == [];
    } else if !IsDigit(a[0]) {
      assert (a + [c])[1..] == a[1..] + [c];
      DigitRunsNonDigitLast(a[1..], c);
    } else {
      var n := DigitRunLen(a);
      DigitRunLenNonDigitLast(a, c);
      assert (a + [c])[..n] == a[..n];
      assert (a + [c])[n..] == a[n..] + [c];
      DigitRunsNonDigitLast(a[n..], c);
    }
  }

  lemma {:induction false} DigitRunLenNonDigitLast(a: string, c: char)
    requires !IsDigit(c)
    ensures DigitRunLen(a + [c]) == DigitRunLen(a)
    decreases |a|
  {
    if |a| > 0 && IsDigit(a[0]) {
      assert (a + [c])[1..] == a[1..] + [c];
      DigitRunLenNonDigitLast(a[1..], c);
    }
  }

  /** Numbers found in a concatenation whose left part ends in a non-digit
    * are those of the left part followed by those of the right part. */
  lemma {:induction false} DigitRunsAppend(a: string, b: string)
    requires |a| > 0 && !IsDigit(a[|a| - 1])
    ensures DigitRuns(a + b) == DigitRuns(a) + DigitRuns(b)
    decreases |a|
  {
    if |a| == 1 {
      assert (a + b)[1..] == b;
      assert a[1..] == [];
    } else if !IsDigit(a[0]) {
      assert (a + b)[1..] == a[1..] + b;
      DigitRunsAppend(a[1..], b);
    } else {
      var n := DigitRunLen(a);
      DigitRunLenAppend(a, b);
      assert (a + b)[..n] == a[..n];
      assert (a + b)[n..] == a[n..] + b;
      DigitRunsAppend(a[n..], b);
    }
  }

  lemma {:induction false} DigitRunLenAppend(a: string, b: string)
    requires |a| > 0 && !IsDigit(a[|a| - 1])
    ensures DigitRunLen(a + b) == DigitRunLen(a) < |a|
    decreases |a|
  {
    if IsDigit(a[0]) {
      assert |a| > 1;
      assert (a + b)[1..] == a[1..] + b;
      DigitRunLenAppend(a[1..], b);
    }
  }

  // ---------------------------------------------------------------- count, replace

  /** Python `s.count(w)` for a non-empty `w`: non-overlapping occurrences,
    * scanning left to right. */
  function CountOccurrences(s: string, w: string): (n: nat)
    requires |w| > 0
    decreases |s|
    ensures n > 0 <==> Contains(s, w)
  {
    if |s| < |w| then
      NotContainsLonger(s, w);
      0
    else if IsPrefix(w, s) then 1 + CountOccurrences(s[|w|..], w)
    else
      var n := CountOccurrences(s[1..], w);
      assert Contains(s, w) <==> Contains(s[1..], w);
      n
  }

  /** Python `s.replace(pat, rep)` for a non-empty `pat`. */
  function Replace(s: string, pat: string, rep: string): string
    requires |pat| > 0
    decreases |s|
  {
    if |s| < |pat| then s
    else if IsPrefix(pat, s) then rep + Replace(s[|pat|..], pat, rep)
    else [s[0]] + Replace(s[1..], pat, rep)
  }

  /** `s` with every character of `cs` removed. */
  function Without(s: string, cs: set<char>): (r: string)
    ensures |r| <= |s|
    ensures forall i :: 0 <= i < |r| ==> r[i] !in cs
  {
    if |s| == 0 then []
    else (if s[0] in cs then [] else [s[0]]) + Without(s[1..], cs)
  }

  lemma {:induction false} WithoutAppend(a: string, b: string, cs: set<char>)
    ensures Without(a + b, cs) == Without(a, cs) + Without(b, cs)
    decreases |a|
  {
    if |a| > 0 {
      assert (a + b)[1..] == a[1..] + b;
      WithoutAppend(a[1..], b, cs);
    } else {
      assert a + b == b;
    }
  }

  /** Removing a one-character string with `replace` removes that character. */
  lemma {:induction false} ReplaceCharIsWithout(s: string, c: char)
    ensures Replace(s, [c], "") == Without(s, {c})
    decreases |s|
  {
    if |s| > 0 {
      ReplaceCharIsWithout(s[1..], c);
      if IsPrefix([c], s) {
        assert s[1..] == s[|[c]|..];
      }
    }
  }

  /** Deleting a doubled character `cc` with `replace` and then removing every
    * character of a set holding `c` is the same as only removing the set. */
  lemma {:induction false} ReplaceDoubleThenWithout(s: string, c: char, cs: set<char>)
    requires c in cs
    ensures Without(Replace(s, [c, c], ""), cs) == Without(s, cs)
    decreases |s|
  {
    if |s| < 2 {
    } else if IsPrefix([c, c], s) {
      ReplaceDoubleThenWithout(s[2..], c, cs);
      assert s[|[c, c]|..] == s[2..];
      assert Replace(s, [c, c], "") == Replace(s[2..], [c, c], "");
      assert s == [c, c] + s[2..];
      WithoutAppend([c, c], s[2..], cs);
      assert Without([c], cs) == [];
      assert [c, c][1..] == [c];
      assert Without([c, c], cs) == [];
    } else {
      ReplaceDoubleThenWithout(s[1..], c, cs);
      assert s == [s[0]] + s[1..];
      WithoutAppend([s[0]], Replace(s[1..], [c, c], ""), cs);
      WithoutAppend([s[0]], s[1..], cs);
    }
  }

  lemma WithoutTwice(s: string, a: set<char>, b: set<char>)
    ensures Without(Without(s, a), b) == Without(s, a + b)
    decreases |s|
  {
    if |s| > 0 {
      WithoutTwice(s[1..], a, b);
      WithoutAppend(if s[0] in a then [] else [s[0]], Without(s[1..], a), b);
    }
  }

  // ---------------------------------------------------------------- slices

  /** Python `s[i:j]` for non-negative `i` and a `j` counted from the end
    * (`s[i:-k]`): never fails, empty when the bounds cross. */
  function SliceDrop(s: string, i: nat, k: nat): (r: string)
    ensures |r| <= |s|
    ensures |s| >= i + k ==> r == s[i..|s| - k]
    ensures |s| < i + k ==> r == ""
  {
    if |s| >= i + k then s[i..|s| - k] else ""
  }

  /** Python `s[:n]`. */
  function Take(s: string, n: nat): (r: string)
    ensures |r| == if |s| < n then |s| else n
    ensures IsPrefix(r, s)
  {
    if |s| <= n then s else s[..n]
  }

  /** Python `s.split(sep)` for a one-character separator: every piece, empty
    * ones included, so there is always one more piece than separators. */
  function SplitOn(s: string, sep: char): (ps: seq<string>)
    ensures |ps| > 0
    ensures forall k :: 0 <= k < |ps| ==> sep !in ps[k]
    decreases |s|
  {
    if |s| == 0 then [""]
    else if s[0] == sep then [""] + SplitOn(s[1..], sep)
    else
      var rest := SplitOn(s[1..], sep);
      [[s[0]] + rest[0]] + rest[1..]
  }

  /** Joining the pieces back with the separator gives the original text. */
  function Join(ps: seq<string>, sep: char): string
  {
    if |ps| == 0 then ""
    else if |ps| == 1 then ps[0]
    else ps[0] + [sep] + Join(ps[1..], sep)
  }

  lemma {:induction false} SplitJoin(s: string, sep: char)
    ensures Join(SplitOn(s, sep), sep) == s
    decreases |s|
  {
    if |s| > 0 {
      SplitJoin(s[1..], sep);
      var rest := SplitOn(s[1..], sep);
      if s[0] == sep {
        assert SplitOn(s, sep)[1..] == rest;
      } else {
        var ps := SplitOn(s, sep);
        assert ps[1..] == rest[1..];
        if |rest| > 1 {
          assert Join(rest, sep) == rest[0] + [sep] + Join(rest[1..], sep);
        }
      }
    }
  }

  /** Splitting a text that has a separator right after `a` gives `a` first. */
  lemma {:induction false} SplitFirst(a: string, b: string, sep: char)
    requires sep !in a
    ensures SplitOn(a + [sep] + b, sep) == [a] + SplitOn(b, sep)
    decreases |a|
  {
    if |a| == 0 {
      assert a + [sep] + b == [sep] + b;
      assert ([sep] + b)[1..] == b;
    } else {
      assert (a + [sep] + b)[1..] == a[1..] + [sep] + b;
      SplitFirst(a[1..], b, sep);
      assert [a[0]] + a[1..] == a;
    }
  }

  /** A text without the separator is a single piece. */
  lemma {:induction false} SplitNone(s: string, sep: char)
    requires sep !in s
    ensures SplitOn(s, sep) == [s]
    decreases |s|
  {
    if |s| > 0 {
      SplitNone(s[1..], sep);
      assert [s[0]] + s[1..] == s;
    }
  }

  // ---------------------------------------------------------------- numbers as text

  /** Decimal digits of a natural number, as Python's `str(n)`. */
  function NatToString(n: nat): (r: string)
    ensures IsDigits(r)
    decreases n
  {
    if n < 10 then [('0' as int + n) as char]
    else NatToString(n / 10) + [('0' as int + n % 10) as char]
  }

  /** Reading back the digits of `n` gives `n`. */
  lemma {:induction false} NatToStringValue(n: nat)
    ensures DigitsValue(NatToString(n)) == n
    decreases n
  {
    if n >= 10 {
      NatToStringValue(n / 10);
      var s := NatToString(n);
      assert s[..|s| - 1] == NatToString(n / 10);
    }
  }
}
