/** Ranking of the admins' training materials against a question
  * (utils/ai_handler.py, find_relevant_materials). */
module Materials {
  import opened Text
  import Knowledge

  /** A stored material: its text and the transcription of its voice or
    * video, "" standing for a missing field. */
  datatype Material = Material(text: string, transcription: string)

  /** `material.get('text') or material.get('transcription', '')`. */
  function Content(m: Material): (c: string)
    ensures c == "" <==> m.text == "" && m.transcription == ""
  {
    if m.text != "" then m.text else m.transcription
  }

  // ---------------------------------------------------------------- scoring

  /** Points one question word earns: twice its occurrences in the content,
    * for a word of more than three characters. */
  function WordPoints(w: string, content: string): (n: nat)
    ensures n > 0 <==> |w| > 3 && Contains(content, w)
  {
    if |w| > 3 && Contains(content, w) then CountOccurrences(content, w) * 2 else 0
  }

  /** Points all question words earn. */
  function WordScore(words: seq<string>, content: string): nat
  {
    if |words| == 0 then 0
    else WordScore(words[..|words| - 1], content) + WordPoints(words[|words| - 1], content)
  }

  /** Ten points per keyword that occurs in both the question and the content. */
  function KeywordPoints(ks: seq<string>, q: string, content: string): nat
  {
    if |ks| == 0 then 0
    else
      var k := ks[|ks| - 1];
      KeywordPoints(ks[..|ks| - 1], q, content) + (if Contains(q, k) && Contains(content, k) then 10 else 0)
  }

  /** Keyword points over every category, in category order. */
  function CategoryPoints(cats: seq<(string, seq<string>)>, q: string, content: string): nat
  {
    if |cats| == 0 then 0
    else CategoryPoints(cats[..|cats| - 1], q, content) + KeywordPoints(cats[|cats| - 1].1, q, content)
  }

  /** The relevance score of a content for a question. */
  function Score(question: string, content: string): nat
  {
    var q := Lower(question);
    var c := Lower(content);
    WordScore(Words(q), c) + CategoryPoints(Knowledge.KnowledgeKeywords, q, c)
  }

  /** A material scores, together with its content. */
  datatype Scored = Scored(score: nat, material: Material, content: string)

  /** The `(score, material, content)` entries kept, in the input order:
    * materials with content and a positive score. */
  function ScoredList(question: string, ms: seq<Material>): (r: seq<Scored>)
    ensures forall i :: 0 <= i < |r| ==>
      r[i].material in ms && r[i].content == Content(r[i].material) && r[i].content != "" &&
      r[i].score == Score(question, r[i].content) && r[i].score > 0
  {
    if |ms| == 0 then []
    else
      var m := ms[|ms| - 1];
      var init := ScoredList(question, ms[..|ms| - 1]);
      var c := Content(m);
      if c != "" && Score(question, c) > 0 then init + [Scored(Score(question, c), m, c)] else init
  }

  // ---------------------------------------------------------------- stable sort

  /** Non-increasing scores. */
  predicate SortedDesc(s: seq<Scored>)
  {
    forall i, j :: 0 <= i < j < |s| ==> s[i].score >= s[j].score
  }

  /** The entries of `s` with score `v`, in order. */
  function WithScore(s: seq<Scored>, v: nat): (r: seq<Scored>)
    ensures |r| <= |s|
  {
    if |s| == 0 then []
    else WithScore(s[..|s| - 1], v) + (if s[|s| - 1].score == v then [s[|s| - 1]] else [])
  }

  /** Put `x` after every entry scoring at least as much as it. */
  function Insert(x: Scored, s: seq<Scored>): (r: seq<Scored>)
    ensures multiset(r) == multiset(s) + multiset{x}
    ensures |r| == |s| + 1
  {
    if |s| == 0 then [x]
    else if s[0].score < x.score then [x] + s
    else
      assert s == [s[0]] + s[1..];
      [s[0]] + Insert(x, s[1..])
  }

  /** `list.sort(key=score, reverse=True)`: Python's sort is stable, and so
    * is its reversed form, so equal scores keep their input order. */
  function SortByScore(s: seq<Scored>): seq<Scored>
  {
    if |s| == 0 then [] else Insert(s[|s| - 1], SortByScore(s[..|s| - 1]))
  }

  /** Inserting below a bound keeps every score below it. */
  lemma {:induction false} InsertBounded(x: Scored, s: seq<Scored>, b: nat)
    requires x.score <= b
    requires forall i :: 0 <= i < |s| ==> s[i].score <= b
    ensures forall i :: 0 <= i < |Insert(x, s)| ==> Insert(x, s)[i].score <= b
    decreases |s|
  {
    if |s| > 0 && s[0].score >= x.score {
      InsertBounded(x, s[1..], b);
    }
  }

  lemma {:induction false} InsertSorted(x: Scored, s: seq<Scored>)
    requires SortedDesc(s)
    ensures SortedDesc(Insert(x, s))
    decreases |s|
  {
    if |s| > 0 && s[0].score >= x.score {
      InsertSorted(x, s[1..]);
      InsertBounded(x, s[1..], s[0].score);
      assert Insert(x, s) == [s[0]] + Insert(x, s[1..]);
    }
  }

  lemma {:induction false} WithScoreAppend(a: seq<Scored>, b: seq<Scored>, v: nat)
    ensures WithScore(a + b, v) == WithScore(a, v) + WithScore(b, v)
    decreases |b|
  {
    if |b| == 0 {
      assert a + b == a;
    } else {
      var b' := b[..|b| - 1];
      assert (a + b)[..|a + b| - 1] == a + b';
      WithScoreAppend(a, b', v);
    }
  }

  lemma {:induction false} WithScoreSingle(x: Scored, v: nat)
    ensures WithScore([x], v) == if x.score == v then [x] else []
  {
    assert [x][..0] == [];
  }

  /** Inserting `x` into a sorted list adds it after the entries of its own
    * score that were already there. */
  lemma {:induction false} InsertKeepsOrder(x: Scored, s: seq<Scored>, v: nat)
    requires SortedDesc(s)
    ensures WithScore(Insert(x, s), v) == WithScore(s, v) + WithScore([x], v)
    decreases |s|
  {
    if |s| == 0 {
      assert Insert(x, s) == [x];
    } else if s[0].score < x.score {
      InsertInFront(x, s, v);
    } else {
      var tail := s[1..];
      assert SortedDesc(tail);
      InsertKeepsOrder(x, tail, v);
      InsertBehind(x, s, v);
    }
  }

  lemma InsertInFront(x: Scored, s: seq<Scored>, v: nat)
    requires SortedDesc(s) && |s| > 0 && s[0].score < x.score
    ensures WithScore(Insert(x, s), v) == WithScore(s, v) + WithScore([x], v)
  {
    assert Insert(x, s) == [x] + s;
    WithScoreAppend([x], s, v);
    WithScoreSingle(x, v);
    if x.score == v {
      NoneWithScore(s, v);
    }
  }

  lemma InsertBehind(x: Scored, s: seq<Scored>, v: nat)
    requires |s| > 0 && s[0].score >= x.score
    requires WithScore(Insert(x, s[1..]), v) == WithScore(s[1..], v) + WithScore([x], v)
    ensures WithScore(Insert(x, s), v) == WithScore(s, v) + WithScore([x], v)
  {
    var tail := s[1..];
    assert s == [s[0]] + tail;
    assert Insert(x, s) == [s[0]] + Insert(x, tail);
    WithScoreAppend([s[0]], Insert(x, tail), v);
    WithScoreAppend([s[0]], tail, v);
  }

  /** A sorted list headed by a score below `v` has no entry scoring `v`. */
  lemma {:induction false} NoneWithScore(s: seq<Scored>, v: nat)
    requires SortedDesc(s) && |s| > 0 && s[0].score < v
    ensures WithScore(s, v) == []
    decreases |s|
  {
    var init := s[..|s| - 1];
    if |init| > 0 {
      NoneWithScore(init, v);
    }
  }

  /** The ranking is sorted by score. */
  lemma {:induction false} SortByScoreSorted(s: seq<Scored>)
    ensures SortedDesc(SortByScore(s))
    decreases |s|
  {
    if |s| > 0 {
      var init := s[..|s| - 1];
      SortByScoreSorted(init);
      InsertSorted(s[|s| - 1], SortByScore(init));
    }
  }

  /** The ranking is a permutation of its input. */
  lemma {:induction false} SortByScorePermutation(s: seq<Scored>)
    ensures multiset(SortByScore(s)) == multiset(s)
    decreases |s|
  {
    if |s| > 0 {
      var init := s[..|s| - 1];
      SortByScorePermutation(init);
      assert s == init + [s[|s| - 1]];
    }
  }

  /** The ranking is stable: entries of each score keep their input order. */
  lemma {:induction false} SortByScoreStable(s: seq<Scored>, v: nat)
    ensures WithScore(SortByScore(s), v) == WithScore(s, v)
    decreases |s|
  {
    if |s| > 0 {
      var init := s[..|s| - 1];
      var x := s[|s| - 1];
      SortByScoreStable(init, v);
      SortByScoreSorted(init);
      InsertKeepsOrder(x, SortByScore(init), v);
      assert SortByScore(s) == Insert(x, SortByScore(init));
      WithScoreSingle(x, v);
    }
  }

  // ---------------------------------------------------------------- the lookup

  /** The first `n` entries, as `(material, content)` pairs. */
  function Top(ranked: seq<Scored>, n: nat): (r: seq<(Material, string)>)
    ensures |r| == if |ranked| <= n then |ranked| else n
    ensures forall i :: 0 <= i < |r| ==> r[i] == (ranked[i].material, ranked[i].content)
  {
    var top := if |ranked| <= n then ranked else ranked[..n];
    seq(|top|, i requires 0 <= i < |top| => (top[i].material, top[i].content))
  }

  /** The `(material, content)` pairs `find_relevant_materials` returns. */
  function RelevantMaterials(question: string, ms: seq<Material>, maxResults: nat): seq<(Material, string)>
  {
    Top(SortByScore(ScoredList(question, ms)), maxResults)
  }

  /** The score of one content, summed up the way the source loops do. */
  method ScoreContent(question: string, content: string) returns (score: nat)
    ensures score == Score(question, content)
  {
    var q := Lower(question);
    var c := Lower(content);
    score := 0;
    var words := Words(q);
    var i := 0;
    while i < |words|
      invariant 0 <= i <= |words|
      invariant score == WordScore(words[..i], c)
    {
      var w := words[i];
      if |w| > 3 && Contains(c, w) {
        score := score + CountOccurrences(c, w) * 2;
      }
      assert words[..i + 1][..i] == words[..i];
      i := i + 1;
    }
    assert words[..i] == words;
    var cats := Knowledge.KnowledgeKeywords;
    var base := score;
    var k := 0;
    while k < |cats|
      invariant 0 <= k <= |cats|
      invariant score == base + CategoryPoints(cats[..k], q, c)
    {
      var keywords := cats[k].1;
      var before := score;
      var j := 0;
      while j < |keywords|
        invariant 0 <= j <= |keywords|
        invariant score == before + KeywordPoints(keywords[..j], q, c)
      {
        if Contains(q, keywords[j]) && Contains(c, keywords[j]) {
          score := score + 10;
        }
        assert keywords[..j + 1][..j] == keywords[..j];
        j := j + 1;
      }
      assert keywords[..j] == keywords;
      assert cats[..k + 1][..k] == cats[..k];
      k := k + 1;
    }
    assert cats[..k] == cats;
  }

  /** `find_relevant_materials(question, materials, max_results)`. */
  method FindRelevantMaterials(question: string, ms: seq<Material>, maxResults: nat)
    returns (found: seq<(Material, string)>)
    ensures found == RelevantMaterials(question, ms, maxResults)
  {
    if |ms| == 0 {
      return [];
    }
    var scored: seq<Scored> := [];
    var i := 0;
    while i < |ms|
      invariant 0 <= i <= |ms|
      invariant scored == ScoredList(question, ms[..i])
    {
      var m := ms[i];
      var content := Content(m);
      assert ms[..i + 1][..i] == ms[..i];
      if content != "" {
        var score := ScoreContent(question, content);
        if score > 0 {
          scored := scored + [Scored(score, m, content)];
        }
      }
      i := i + 1;
    }
    assert ms[..i] == ms;
    found := Top(SortByScore(scored), maxResults);
  }

  // ---------------------------------------------------------------- properties

  /** A content scores exactly when the question has a word of more than
    * three characters in it, or shares a keyword with it. */
  lemma ScorePositive(question: string, content: string)
    ensures var q := Lower(question);
      var c := Lower(content);
      Score(question, content) > 0 <==>
        (exists i :: 0 <= i < |Words(q)| && |Words(q)[i]| > 3 && Contains(c, Words(q)[i]))
        || (exists k, j :: 0 <= k < |Knowledge.KnowledgeKeywords| && 0 <= j < |Knowledge.KnowledgeKeywords[k].1| &&
              Contains(q, Knowledge.KnowledgeKeywords[k].1[j]) && Contains(c, Knowledge.KnowledgeKeywords[k].1[j]))
  {
    var q := Lower(question);
    var c := Lower(content);
    var cats := Knowledge.KnowledgeKeywords;
    assert Score(question, content) == WordScore(Words(q), c) + CategoryPoints(cats, q, c);
    WordScorePositive(Words(q), c);
    CategoryPointsPositive(cats, q, c);
  }

  lemma {:induction false} WordScorePositive(words: seq<string>, c: string)
    ensures WordScore(words, c) > 0 <==> exists i :: 0 <= i < |words| && |words[i]| > 3 && Contains(c, words[i])
    decreases |words|
  {
    if |words| > 0 {
      var init := words[..|words| - 1];
      WordScorePositive(init, c);
      assert forall i :: 0 <= i < |init| ==> init[i] == words[i];
    }
  }

  lemma {:induction false} KeywordPointsPositive(ks: seq<string>, q: string, c: string)
    ensures KeywordPoints(ks, q, c) > 0 <==> exists j :: 0 <= j < |ks| && Contains(q, ks[j]) && Contains(c, ks[j])
    decreases |ks|
  {
    if |ks| > 0 {
      var init := ks[..|ks| - 1];
      KeywordPointsPositive(init, q, c);
      assert forall i :: 0 <= i < |init| ==> init[i] == ks[i];
    }
  }

  lemma {:induction false} CategoryPointsPositive(cats: seq<(string, seq<string>)>, q: string, c: string)
    ensures CategoryPoints(cats, q, c) > 0 <==>
      exists k, j :: 0 <= k < |cats| && 0 <= j < |cats[k].1| && Contains(q, cats[k].1[j]) && Contains(c, cats[k].1[j])
    decreases |cats|
  {
    if |cats| > 0 {
      var init := cats[..|cats| - 1];
      CategoryPointsPositive(init, q, c);
      KeywordPointsPositive(cats[|cats| - 1].1, q, c);
      assert forall i :: 0 <= i < |init| ==> init[i] == cats[i];
    }
  }

  /** Every entry of the ranking is an entry of the scored list. */
  lemma RankedEntry(question: string, ms: seq<Material>, i: nat)
    requires i < |SortByScore(ScoredList(question, ms))|
    ensures var e := SortByScore(ScoredList(question, ms))[i];
      e.material in ms && e.content == Content(e.material) && e.content != "" &&
      e.score == Score(question, e.content) && e.score > 0
  {
    var scored := ScoredList(question, ms);
    var ranked := SortByScore(scored);
    SortByScorePermutation(scored);
    assert ranked[i] in multiset(ranked);
    assert ranked[i] in scored;
    var k :| 0 <= k < |scored| && scored[k] == ranked[i];
  }

  /** What comes back: at most `maxResults` materials of the input, each with
    * its non-empty content and a positive score. */
  lemma TopResultsSound(question: string, ms: seq<Material>, maxResults: nat)
    ensures var r := RelevantMaterials(question, ms, maxResults);
      |r| <= maxResults &&
      forall i :: 0 <= i < |r| ==>
        r[i].0 in ms && r[i].1 == Content(r[i].0) && r[i].1 != "" && Score(question, r[i].1) > 0
  {
    var ranked := SortByScore(ScoredList(question, ms));
    var r := Top(ranked, maxResults);
    forall i | 0 <= i < |r|
      ensures r[i].0 in ms && r[i].1 == Content(r[i].0) && r[i].1 != "" && Score(question, r[i].1) > 0
    {
      RankedEntry(question, ms, i);
    }
  }

  /** The results come best first. */
  lemma TopResultsOrdered(question: string, ms: seq<Material>, maxResults: nat)
    ensures var r := RelevantMaterials(question, ms, maxResults);
      forall i, j :: 0 <= i < j < |r| ==> Score(question, r[i].1) >= Score(question, r[j].1)
  {
    var ranked := SortByScore(ScoredList(question, ms));
    SortByScoreSorted(ScoredList(question, ms));
    var r := Top(ranked, maxResults);
    forall i, j | 0 <= i < j < |r|
      ensures Score(question, r[i].1) >= Score(question, r[j].1)
    {
      RankedEntry(question, ms, i);
      RankedEntry(question, ms, j);
    }
  }

  /** No scoring material is left out while there is room, and every one left
    * out scores no more than each that was returned. */
  lemma TopResultsComplete(question: string, ms: seq<Material>, maxResults: nat, m: Material)
    requires m in ms && Content(m) != "" && Score(question, Content(m)) > 0
    requires (m, Content(m)) !in RelevantMaterials(question, ms, maxResults)
    ensures var r := RelevantMaterials(question, ms, maxResults);
      |r| == maxResults && forall i :: 0 <= i < |r| ==> Score(question, r[i].1) >= Score(question, Content(m))
  {
    var scored := ScoredList(question, ms);
    var ranked := SortByScore(scored);
    SortByScoreSorted(scored);
    SortByScorePermutation(scored);
    var r := RelevantMaterials(question, ms, maxResults);
    var x := Scored(Score(question, Content(m)), m, Content(m));
    ScoredListHas(question, ms, m);
    assert x in multiset(scored);
    assert x in ranked;
    var k :| 0 <= k < |ranked| && ranked[k] == x;
    assert k >= |r| by {
      if k < |r| {
        assert false;
      }
    }
    assert |r| == maxResults;
    forall i | 0 <= i < |r|
      ensures Score(question, r[i].1) >= Score(question, Content(m))
    {
      RankedEntry(question, ms, i);
      assert r[i].1 == ranked[i].content;
      assert ranked[i].score >= ranked[k].score;
    }
  }

  /** Every material with content and a positive score is in the scored list. */
  lemma {:induction false} ScoredListHas(question: string, ms: seq<Material>, m: Material)
    requires m in ms && Content(m) != "" && Score(question, Content(m)) > 0
    ensures Scored(Score(question, Content(m)), m, Content(m)) in ScoredList(question, ms)
    decreases |ms|
  {
    var init := ms[..|ms| - 1];
    if ms[|ms| - 1] != m {
      assert ms == init + [ms[|ms| - 1]];
      assert m in init;
      ScoredListHas(question, init, m);
    }
  }

  /** Materials of equal score come back in the order they were given. */
  lemma RankingIsStable(question: string, ms: seq<Material>, v: nat)
    ensures WithScore(SortByScore(ScoredList(question, ms)), v) == WithScore(ScoredList(question, ms), v)
  {
    SortByScoreStable(ScoredList(question, ms), v);
  }
}
