/** The dislike-ratio calculator of the answer pipeline
  * (utils/ai_handler.py, extract_numbers_from_text to calculate_dislike_ratio). */
module Ratio {
  import opened Text
  import opened Lang

  const CalculationKeywords: seq<string> := [
    "порахуй", "посчитай", "розрахуй", "calculate", "рассчитай",
    "мій коефіцієнт", "мой коэффициент", "my ratio", "my coefficient",
    "в мене", "у меня", "i have", "у мене"]
  const DislikeKeywords: seq<string> := ["дизлайк", "dislike", "лайк", "like"]
  /** The phrases of the request test's second branch. */
  const OwnershipPhrases: seq<string> := ["в мене", "у меня", "i have", "у мене"]
  const DislikePatterns: seq<string> := ["дизлайк", "dislike"]
  const LikePatterns: seq<string> := ["лайк", "like"]
  /** The position `min([...] or [999])` gives a pattern that does not occur. */
  const NotFound: int := 999

  /** `extract_numbers_from_text`: the integers written in the text. */
  function ExtractNumbers(text: string): (ns: seq<nat>)
    ensures ns == [] <==> forall i :: 0 <= i < |text| ==> !IsDigit(text[i])
  {
    DigitRunsEmpty(text);
    DigitRuns(text)
  }

  /** `is_dislike_calculation_request`, both branches as written. */
  predicate IsDislikeCalculationRequest(text: string)
  {
    var t := Lower(text);
    var n := |ExtractNumbers(text)|;
    (AnyIn(CalculationKeywords, t) && AnyIn(DislikeKeywords, t) && n >= 2)
    || (AnyIn(DislikeKeywords, t) && n >= 2 && AnyIn(OwnershipPhrases, t))
  }

  /** The second branch adds nothing: its phrases are calculation phrases. */
  lemma SecondBranchRedundant(text: string)
    ensures IsDislikeCalculationRequest(text) <==>
      AnyIn(CalculationKeywords, Lower(text)) && AnyIn(DislikeKeywords, Lower(text)) && |ExtractNumbers(text)| >= 2
  {
    var t := Lower(text);
    if AnyIn(OwnershipPhrases, t) {
      var i :| 0 <= i < |OwnershipPhrases| && Contains(t, OwnershipPhrases[i]);
      assert OwnershipPhrases[i] == CalculationKeywords[i + 9];
    }
  }

  /** `min([t.find(p) for p in ps if p in t] or [999])`. */
  function FirstPosition(ps: seq<string>, t: string): (pos: int)
    ensures 0 <= pos
    ensures AnyIn(ps, t) ==> exists i :: 0 <= i < |ps| && Contains(t, ps[i]) && Find(t, ps[i]) == pos
    ensures forall i :: 0 <= i < |ps| && Contains(t, ps[i]) ==> pos <= Find(t, ps[i])
    ensures !AnyIn(ps, t) ==> pos == NotFound
  {
    if |ps| == 0 then NotFound
    else
      var rest := FirstPosition(ps[1..], t);
      assert forall i :: 1 <= i < |ps| ==> ps[i] == ps[1..][i - 1];
      if !Contains(t, ps[0]) then rest
      else if !AnyIn(ps[1..], t) then Find(t, ps[0])
      else if Find(t, ps[0]) <= rest then Find(t, ps[0]) else rest
  }

  /** Pattern `p` occurs, and before every pattern of `qs` that occurs. */
  predicate OccursBefore(t: string, p: string, qs: seq<string>)
  {
    Contains(t, p) && forall j :: 0 <= j < |qs| && Contains(t, qs[j]) ==> Find(t, p) < Find(t, qs[j])
  }

  /** For a text shorter than the sentinel, comparing the two positions asks
    * whether some pattern of `ps` occurs before every occurring pattern of `qs`. */
  lemma {:induction false} FirstPositionBefore(ps: seq<string>, qs: seq<string>, t: string)
    requires |t| < NotFound
    ensures FirstPosition(ps, t) < FirstPosition(qs, t) <==> exists i :: 0 <= i < |ps| && OccursBefore(t, ps[i], qs)
  {
    var pp := FirstPosition(ps, t);
    var pq := FirstPosition(qs, t);
    if pp < pq {
      assert AnyIn(ps, t);
      var i :| 0 <= i < |ps| && Contains(t, ps[i]) && Find(t, ps[i]) == pp;
      assert OccursBefore(t, ps[i], qs);
    }
    if exists i :: 0 <= i < |ps| && OccursBefore(t, ps[i], qs) {
      var i :| 0 <= i < |ps| && OccursBefore(t, ps[i], qs);
      if AnyIn(qs, t) {
        var j :| 0 <= j < |qs| && Contains(t, qs[j]) && Find(t, qs[j]) == pq;
        assert pp < pq;
      }
    }
  }

  /** The outcome of a calculation: the counts read from the text and the verdict. */
  datatype RatioReport = RatioReport(dislikes: nat, likes: nat, good: bool)

  /** The numbers-and-verdict part of `calculate_dislike_ratio`. */
  function DislikeRatio(text: string): (r: Option<RatioReport>)
    ensures var ns := ExtractNumbers(text);
      r.None? <==> |ns| < 2 || ns[0] + ns[1] == 0
    ensures var ns := ExtractNumbers(text);
      r.Some? ==> (r.value.dislikes == ns[0] && r.value.likes == ns[1]) || (r.value.dislikes == ns[1] && r.value.likes == ns[0])
    ensures r.Some? ==> (r.value.good <==> 100 * r.value.dislikes < 18 * (r.value.dislikes + r.value.likes))
  {
    var ns := ExtractNumbers(text);
    if |ns| < 2 then None
    else
      var t := Lower(text);
      var dislikesFirst := FirstPosition(DislikePatterns, t) < FirstPosition(LikePatterns, t);
      var dislikes := if dislikesFirst then ns[0] else ns[1];
      var likes := if dislikesFirst then ns[1] else ns[0];
      if dislikes + likes == 0 then None
      else Some(RatioReport(dislikes, likes, 100 * dislikes < 18 * (dislikes + likes)))
  }

  /** Which number is the dislike count: for a text shorter than 999
    * characters, the first one exactly when "дизлайк" or "dislike" occurs
    * before every like keyword that occurs ("like" inside "dislike" included). */
  lemma DislikesFirstRule(text: string)
    requires DislikeRatio(text).Some?
    requires |text| < NotFound
    ensures var ns := ExtractNumbers(text);
      var t := Lower(text);
      (DislikeRatio(text).value.dislikes, DislikeRatio(text).value.likes) ==
        if OccursBefore(t, "дизлайк", LikePatterns) || OccursBefore(t, "dislike", LikePatterns)
        then (ns[0], ns[1]) else (ns[1], ns[0])
  {
    FirstPositionBefore(DislikePatterns, LikePatterns, Lower(text));
  }

  /** The verdict lines of the reply. */
  const GoodVerdict: LangTable := LangTable(
    "✅ Це добре! Коефіцієнт нижче 0.18",
    "✅ Це добре! Коефіцієнт нижче 0.18",
    "✅ This is good! Ratio is below 0.18")
  const BadVerdict: LangTable := LangTable(
    "⚠️ УВАГА! Коефіцієнт 0.18 або вище - це порушення! Терміново видаляй дизлайки через центр завдань (200 очок за дизлайк)",
    "⚠️ УВАГА! Коефіцієнт 0.18 або вище - це порушення! Терміново видаляй дизлайки через центр завдань (200 очок за дизлайк)",
    "⚠️ WARNING! Ratio 0.18 or higher is a violation! Urgently delete dislikes through task center (200 points per dislike)")
  const DislikesLabel: LangTable := LangTable("Дизлайки: ", "Дизлайки: ", "Dislikes: ")
  const LikesLabel: LangTable := LangTable("Лайки: ", "Лайки: ", "Likes: ")
  const TotalLabel: LangTable := LangTable("Всього: ", "Всього: ", "Total: ")

  /** The reply text for a report, in the template of `lang` (Russian for an
    * unknown code); the opening ratio line is not rendered. */
  function RatioReply(r: RatioReport, lang: string): string
  {
    Pick(DislikesLabel, lang) + NatToString(r.dislikes) + "\n"
    + Pick(LikesLabel, lang) + NatToString(r.likes) + "\n"
    + Pick(TotalLabel, lang) + NatToString(r.dislikes + r.likes) + "\n\n"
    + Pick(if r.good then GoodVerdict else BadVerdict, lang)
  }

  /** `calculate_dislike_ratio(text, lang)`. */
  function CalculateDislikeRatio(text: string, lang: string): (reply: Option<string>)
    ensures reply.Some? <==> DislikeRatio(text).Some?
    ensures reply.Some? ==> reply.value != ""
  {
    match DislikeRatio(text)
    case None => None
    case Some(r) => Some(RatioReply(r, lang))
  }

  /** A language code other than 'uk' and 'en' gets the Russian template. */
  lemma RatioReplyFallsBackToRu(r: RatioReport, lang: string)
    requires lang != "uk" && lang != "en"
    ensures RatioReply(r, lang) == RatioReply(r, "ru")
  {
  }

  /** "5 dislikes and 10 likes" reads 5 dislikes, 10 likes and is flagged. */
  lemma FiveDislikesTenLikes()
    ensures DislikeRatio(ExampleText("5", "10")) == Some(RatioReport(5, 10, false))
  {
    assert DigitsValue("5") == 5;
    assert DigitsValue("10") == 10;
    ExampleReading("5", "10");
  }

  /** "3 dislikes and 20 likes" reads 3 dislikes, 20 likes and is good. */
  lemma ThreeDislikesTwentyLikes()
    ensures DislikeRatio(ExampleText("3", "20")) == Some(RatioReport(3, 20, true))
  {
    assert DigitsValue("3") == 3;
    assert DigitsValue("20") == 20;
    ExampleReading("3", "20");
  }

  /** The text "<a> dislikes and <b> likes" for one digit `a`. */
  function ExampleText(a: string, b: string): string
  {
    a + " dislikes and " + b + " likes"
  }

  /** "<a> dislikes and <b> likes" is read with a as dislikes and b as likes. */
  lemma ExampleReading(a: string, b: string)
    requires IsDigits(a) && IsDigits(b) && |a| == 1
    requires DigitsValue(a) + DigitsValue(b) > 0
    ensures var r := DislikeRatio(ExampleText(a, b));
      r.Some? && r.value.dislikes == DigitsValue(a) && r.value.likes == DigitsValue(b)
  {
    var text := ExampleText(a, b);
    NumbersOfExample(text, a, " dislikes and ", b, " likes");
    ExampleLower(a, b);
    ExamplePositions(a, b);
  }

  lemma ExampleLower(a: string, b: string)
    requires IsDigits(a) && IsDigits(b)
    ensures Lower(ExampleText(a, b)) == ExampleText(a, b)
  {
    var text := ExampleText(a, b);
    forall i | 0 <= i < |text|
      ensures IsDigit(text[i]) || text[i] == ' ' || 'a' <= text[i] <= 'z'
    {
      if i < |a| {
        assert text[i] == a[i];
      } else if i < |a| + 14 {
        assert text[i] == " dislikes and "[i - |a|];
      } else if i < |a| + 14 + |b| {
        assert text[i] == b[i - |a| - 14];
      } else {
        assert text[i] == " likes"[i - |a| - 14 - |b|];
      }
    }
    LowerFixed(text);
  }

  lemma ExamplePositions(a: string, b: string)
    requires IsDigits(a) && IsDigits(b) && |a| == 1
    ensures FirstPosition(DislikePatterns, ExampleText(a, b)) == 2
    ensures FirstPosition(LikePatterns, ExampleText(a, b)) == 5
  {
    var t := ExampleText(a, b);
    assert t == a + (" dislikes and " + b + " likes");
    assert t[1..9] == " dislike";
    assert t[2..9] == t[1..9][1..] == "dislike";
    assert t[5..9] == t[1..9][4..] == "like";
    assert t[2..][..7] == t[2..9];
    assert t[5..][..4] == t[5..9];
    forall j | 0 <= j < |t| ensures t[j] != 'д' && t[j] != 'л' {
      if j >= 1 + 14 && j < 1 + 14 + |b| {
        assert t[j] == b[j - 15];
      }
    }
    FindAtFirstHead(t, "дизлайк", |t|);
    FindAtFirstHead(t, "лайк", |t|);
    FindAtFirstHead(t, "dislike", 2);
    FindAtFirstHead(t, "like", 5);
    SecondOfTwo(DislikePatterns, t);
    SecondOfTwo(LikePatterns, t);
  }

  /** Lower-casing a text of digits, spaces and small Latin letters changes nothing. */
  lemma LowerFixed(s: string)
    requires forall i :: 0 <= i < |s| ==> IsDigit(s[i]) || s[i] == ' ' || 'a' <= s[i] <= 'z'
    ensures Lower(s) == s
  {
  }

  /** When only the second of two patterns occurs, its position is the result. */
  lemma SecondOfTwo(ps: seq<string>, t: string)
    requires |ps| == 2 && !Contains(t, ps[0]) && Contains(t, ps[1])
    ensures FirstPosition(ps, t) == Find(t, ps[1])
  {
    assert AnyIn(ps, t);
  }

  /** The numbers of a text shaped digits, words, digits, words. */
  lemma NumbersOfExample(text: string, a: string, sep: string, b: string, tail: string)
    requires text == a + sep + b + tail
    requires IsDigits(a) && IsDigits(b)
    requires |sep| > 0 && forall i :: 0 <= i < |sep| ==> !IsDigit(sep[i])
    requires |tail| > 0 && forall i :: 0 <= i < |tail| ==> !IsDigit(tail[i])
    ensures ExtractNumbers(text) == [DigitsValue(a), DigitsValue(b)]
  {
    var bt := b + tail;
    var rest := sep + bt;
    assert text == a + rest;
    assert rest[0] == sep[0];
    WholeRun(a, rest);
    DigitRunsNone(sep);
    DigitRunsAppend(sep, bt);
    WholeRun(b, tail);
    DigitRunsNone(tail);
  }

  /** A text starting with a whole run of digits yields that run's value first. */
  lemma {:induction false} WholeRun(a: string, rest: string)
    requires IsDigits(a)
    requires |rest| > 0 && !IsDigit(rest[0])
    ensures DigitRuns(a + rest) == [DigitsValue(a)] + DigitRuns(rest)
  {
    RunLen(a, rest);
    assert (a + rest)[..|a|] == a;
    assert (a + rest)[|a|..] == rest;
  }

  lemma {:induction false} RunLen(a: string, rest: string)
    requires forall i :: 0 <= i < |a| ==> IsDigit(a[i])
    requires |rest| > 0 && !IsDigit(rest[0])
    ensures DigitRunLen(a + rest) == |a|
    decreases |a|
  {
    if |a| > 0 {
      assert (a + rest)[1..] == a[1..] + rest;
      RunLen(a[1..], rest);
    } else {
      assert a + rest == rest;
    }
  }

  /** `find` gives `k` when the needle starts at `k` and its first character
    * does not occur before `k`; with `k == |s|` and no occurrence of that
    * character at all, the needle is absent. */
  lemma FindAtFirstHead(s: string, sub: string, k: nat)
    requires |sub| > 0 && k <= |s|
    requires forall j :: 0 <= j < k ==> s[j] != sub[0]
    requires k < |s| ==> IsPrefix(sub, s[k..])
    ensures k < |s| ==> Find(s, sub) == k
    ensures k == |s| ==> !Contains(s, sub)
  {
    if k == |s| {
      NotContainsAbsentHead(s, sub);
    } else {
      ContainsAt(s, sub);
      var r := Find(s, sub);
      assert r <= k;
      assert s[r..][..|sub|] == sub;
      assert s[r..][0] == s[r];
      assert r == k;
    }
  }
}
