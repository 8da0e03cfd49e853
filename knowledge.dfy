/** The training-material lookup of the answer pipeline
  * (utils/ai_handler.py, HALO_TRAINING_KNOWLEDGE, KNOWLEDGE_KEYWORDS and
  * find_relevant_knowledge). Each knowledge block is represented by its first
  * line; the lookup only ever moves whole blocks around. */
module Knowledge {
  import opened Text
  import opened Lang
  import Ratio

  // ---------------------------------------------------------------- tables

  /** A knowledge table: (key, block) pairs in the order the source lists them. */
  type Table = seq<(string, string)>

  const RussianKnowledge: Table := [
    ("start_hunting", "Нажми значок сети и выбери \"начать охоту\" (start hunting). Эта функция называется хайтинг/hunting."),
    ("hunting_info", "Охота (hunting) - это обязательная функция перед звонками:"),
    ("multibeam_join", "Чтобы присоединиться к мультибиму, нажми \"Press unit\" и жди очередь, пока тебя подключат в спот."),
    ("multibeam_types", "Есть два типа Multi Beam:"),
    ("profile_setup", "Настройка профиля:"),
    ("profile_edit", "Редактирование профиля:"),
    ("posts_activity", "Публикация постов = больше звонков:"),
    ("how_to_post", "Как публиковать посты:"),
    ("live_stream_posture", "Как правильно сидеть в эфире:"),
    ("live_stream_start", "Запуск прямого эфира:"),
    ("live_stream_messages", "Когда запускаешь эфир - ОБЯЗАТЕЛЬНО пиши мужчинам:"),
    ("live_stream_rules", "Правила прямых эфиров:"),
    ("tasks", "Выполнение заданий:"),
    ("dislikes_info", "Два коэффициента дизлайков:"),
    ("dislikes_delete", "Как удалить дизлайк:"),
    ("auto_messages", "Автосообщения:"),
    ("registration_steps", "Регистрация в Halo:"),
    ("after_registration", "После регистрации:"),
    ("agency_name", "В разделе Агентство выбирай: Tosagency-Ukraine 😊")]

  const UkrainianKnowledge: Table := [
    ("start_hunting", "Натисни значок мережі і обери \"почати полювання\" (start hunting). Ця функція називається хайтинг/hunting."),
    ("hunting_info", "Полювання (hunting) - це обов'язкова функція перед дзвінками:"),
    ("multibeam_join", "Щоб приєднатися до мультибіму, натисни \"Press unit\" і чекай чергу, поки тебе підключать у спот."),
    ("profile_setup", "Налаштування профілю:"),
    ("posts_activity", "Публікація постів = більше дзвінків:"),
    ("live_stream_posture", "Як правильно сидіти в ефірі:"),
    ("live_stream_start", "Запуск прямого ефіру:"),
    ("dislikes_info", "Два коефіцієнти дизлайків:"),
    ("dislikes_delete", "Як видалити дизлайк:"),
    ("auto_messages", "Автоповідомлення:"),
    ("after_registration", "Після реєстрації:"),
    ("agency_name", "У розділі Агентство обирай: Tosagency-Ukraine 😊")]

  const EnglishKnowledge: Table := [
    ("start_hunting", "Tap the network icon and select \"start hunting\". This feature is called hunting/hating."),
    ("hunting_info", "Hunting is mandatory before calls:"),
    ("multibeam_join", "To join multibeam, press \"Press unit\" and wait in line until they connect you to a spot."),
    ("profile_setup", "Profile setup:"),
    ("posts_activity", "Posting = more calls:"),
    ("live_stream_posture", "How to sit correctly during stream:"),
    ("live_stream_start", "Starting a live stream:"),
    ("dislikes_info", "Two dislike ratios:"),
    ("dislikes_delete", "How to delete a dislike:"),
    ("auto_messages", "Auto-messages:"),
    ("after_registration", "After registration:"),
    ("agency_name", "In Agency section choose: Tosagency-Ukraine 😊")]

  const HuntingKeywords: seq<string> := ["охота", "hunting", "хантинг", "hunt", "полювання", "start hunting", "начать охоту", "почати полювання"]
  const MultibeamKeywords: seq<string> := ["мультибим", "multibeam", "multi beam", "multi-beam", "multibim", "мультібім", "press unit", "спот", "spot"]
  const ProfileKeywords: seq<string> := ["профиль", "profile", "профіль", "аватар", "avatar", "обложка", "cover", "теги", "tags", "настройка профиля", "налаштування профілю", "редактир", "edit profile"]
  const PostsKeywords: seq<string> := ["пост", "post", "публикация", "публікація", "лента", "feed", "posting", "как публиковать", "як публікувати", "how to post"]
  const LiveStreamStartKeywords: seq<string> := ["запустить эфир", "запустити ефір", "start stream", "начать эфир", "почати ефір", "как запустить", "як запустити", "start live", "launch stream", "open stream"]
  const LiveStreamPostureKeywords: seq<string> := ["как сидеть", "як сидіти", "how to sit", "правильно сидеть", "правильно сидіти", "posture", "поза", "сидіти в ефірі", "сидеть в эфире"]
  const LiveStreamKeywords: seq<string> := ["эфир", "stream", "ефір", "прямой эфир", "live", "трансляция", "прямий ефір", "broadcast"]
  const RulesKeywords: seq<string> := ["правила", "rules", "правила", "запрещено", "forbidden", "заборонено", "нельзя", "можно", "можна", "what allowed", "що дозволено"]
  const DislikesDeleteKeywords: seq<string> := ["видалити дизлайк", "удалить дизлайк", "delete dislike", "убрать дизлайк", "прибрати дизлайк", "как удалить", "як видалити", "how to delete"]
  const AutoMessagesKeywords: seq<string> := ["автосообщ", "auto message", "автоповідомл", "mass message", "массовые", "масові", "рассылка", "розсилка"]
  const TasksKeywords: seq<string> := ["задания", "tasks", "завдання", "центр задач", "task center", "виконати завдання", "выполнить задания"]
  const AgencyKeywords: seq<string> := ["агентство", "agency", "tosagency", "агенство", "какое агентство", "which agency", "яке агентство"]
  const RegistrationKeywords: seq<string> := ["регистрация", "registration", "реєстрація", "зарегистр", "register", "зареєстр"]
  const AfterRegistrationKeywords: seq<string> := ["після реєстрації", "после регистрации", "after registration", "що потрібно робити", "что нужно делать", "what to do", "что делать после", "що робити після"]

  const KnowledgeKeywords: seq<(string, seq<string>)> := [
    ("hunting", HuntingKeywords),
    ("multibeam", MultibeamKeywords),
    ("profile", ProfileKeywords),
    ("posts", PostsKeywords),
    ("live_stream_start", LiveStreamStartKeywords),
    ("live_stream_posture", LiveStreamPostureKeywords),
    ("live_stream", LiveStreamKeywords),
    ("rules", RulesKeywords),
    ("dislikes_delete", DislikesDeleteKeywords),
    ("auto_messages", AutoMessagesKeywords),
    ("tasks", TasksKeywords),
    ("agency", AgencyKeywords),
    ("registration", RegistrationKeywords),
    ("after_registration", AfterRegistrationKeywords)]

  /** The categories tried first, in this order, before the general scan. */
  const PriorityChecks: seq<(string, seq<string>)> := [
    ("live_stream_start", LiveStreamStartKeywords),
    ("live_stream_posture", LiveStreamPostureKeywords),
    ("dislikes_delete", DislikesDeleteKeywords),
    ("after_registration", AfterRegistrationKeywords)]

  /** `HALO_TRAINING_KNOWLEDGE.get(lang, HALO_TRAINING_KNOWLEDGE['ru'])`. */
  function KnowledgeFor(lang: string): (table: Table)
    ensures lang == "uk" ==> table == UkrainianKnowledge
    ensures lang == "en" ==> table == EnglishKnowledge
    ensures lang != "uk" && lang != "en" ==> table == RussianKnowledge
  {
    if lang == "uk" then UkrainianKnowledge
    else if lang == "en" then EnglishKnowledge
    else RussianKnowledge
  }

  /** `key in table`. */
  predicate HasKey(table: Table, key: string)
  {
    exists i :: 0 <= i < |table| && table[i].0 == key
  }

  /** `table[key]`: the block stored under `key`. */
  function Lookup(table: Table, key: string): (v: string)
    requires HasKey(table, key)
    ensures exists i :: 0 <= i < |table| && table[i] == (key, v)
  {
    if table[0].0 == key then table[0].1
    else
      assert forall i :: 1 <= i < |table| ==> table[i] == table[1..][i - 1];
      Lookup(table[1..], key)
  }

  // ---------------------------------------------------------------- specification

  /** Index of the first priority category that has a keyword in `q` and a
    * block in `table`: the category the priority loop answers with. */
  function PriorityMatch(checks: seq<(string, seq<string>)>, q: string, table: Table): (r: Option<nat>)
    ensures r.Some? ==> r.value < |checks| && AnyIn(checks[r.value].1, q) && HasKey(table, checks[r.value].0)
    ensures r.Some? ==> forall j :: 0 <= j < r.value ==> !(AnyIn(checks[j].1, q) && HasKey(table, checks[j].0))
    ensures r.None? <==> forall j :: 0 <= j < |checks| ==> !(AnyIn(checks[j].1, q) && HasKey(table, checks[j].0))
  {
    if |checks| == 0 then None
    else if AnyIn(checks[0].1, q) && HasKey(table, checks[0].0) then Some(0)
    else
      var rest := PriorityMatch(checks[1..], q, table);
      assert forall j :: 1 <= j < |checks| ==> checks[j] == checks[1..][j - 1];
      if rest.None? then None else Some(rest.value + 1)
  }

  /** The blocks whose key contains the category name `c` or the keyword `k`,
    * in table order. */
  function ValuesWhere(table: Table, c: string, k: string): (vs: seq<string>)
    ensures forall x :: x in vs <==>
      exists i :: 0 <= i < |table| && table[i].1 == x && (Contains(table[i].0, c) || Contains(table[i].0, k))
  {
    if |table| == 0 then []
    else
      var last := table[|table| - 1];
      var init := table[..|table| - 1];
      assert forall i :: 0 <= i < |init| ==> init[i] == table[i];
      ValuesWhere(init, c, k) + (if Contains(last.0, c) || Contains(last.0, k) then [last.1] else [])
  }

  /** What the general scan adds for one category: the blocks matched by its
    * name or by the first of its keywords that the question contains. */
  function CategoryMatches(cat: (string, seq<string>), q: string, table: Table): seq<string>
  {
    match FirstIn(cat.1, q)
    case None => []
    case Some(k) => ValuesWhere(table, cat.0, cat.1[k])
  }

  /** What the general scan collects over `cats`, in category order. */
  function GeneralMatches(cats: seq<(string, seq<string>)>, q: string, table: Table): (vs: seq<string>)
    ensures forall x :: x in vs <==> exists i :: 0 <= i < |cats| && x in CategoryMatches(cats[i], q, table)
  {
    if |cats| == 0 then []
    else
      var init := cats[..|cats| - 1];
      assert forall i :: 0 <= i < |init| ==> init[i] == cats[i];
      GeneralMatches(init, q, table) + CategoryMatches(cats[|cats| - 1], q, table)
  }

  /** The dislike calculation `find_relevant_knowledge` answers with, if any. */
  function Calculation(question: string, lang: string): Option<string>
  {
    if Ratio.IsDislikeCalculationRequest(question) then
      match Ratio.CalculateDislikeRatio(question, lang)
      case Some(reply) => if reply != "" then Some(reply) else None
      case None => None
    else None
  }

  /** The answer shape for a computed calculation, priority categories,
    * general categories, lowered question and table. */
  function Answer(calculation: Option<string>, checks: seq<(string, seq<string>)>,
                  cats: seq<(string, seq<string>)>, q: string, table: Table): seq<string>
  {
    match calculation
    case Some(reply) => [reply]
    case None =>
      match PriorityMatch(checks, q, table)
      case Some(i) => [Lookup(table, checks[i].0)]
      case None => GeneralMatches(cats, q, table)
  }

  /** The list `find_relevant_knowledge(question, lang)` returns. */
  function RelevantKnowledge(question: string, lang: string): seq<string>
  {
    Answer(Calculation(question, lang), PriorityChecks, KnowledgeKeywords, Lower(question), KnowledgeFor(lang))
  }

  // ---------------------------------------------------------------- the lookup

  /** The priority loop of `find_relevant_knowledge`: the block of the first
    * category in `checks` with a keyword in `q` and a block in `table`, or
    * nothing. */
  method PriorityScan(checks: seq<(string, seq<string>)>, q: string, table: Table) returns (relevant: seq<string>)
    ensures PriorityMatch(checks, q, table).None? ==> relevant == []
    ensures PriorityMatch(checks, q, table).Some? ==>
      relevant == [Lookup(table, checks[PriorityMatch(checks, q, table).value].0)]
  {
    relevant := [];
    var matched: set<string> := {};
    var i := 0;
    while i < |checks|
      invariant 0 <= i <= |checks|
      invariant relevant == [] && matched == {}
      invariant forall j :: 0 <= j < i ==> !(AnyIn(checks[j].1, q) && HasKey(table, checks[j].0))
    {
      var category := checks[i].0;
      var keywords := checks[i].1;
      var k := 0;
      while k < |keywords|
        invariant 0 <= k <= |keywords|
        invariant relevant == [] && matched == {}
        invariant forall m :: 0 <= m < k ==> !Contains(q, keywords[m])
      {
        if Contains(q, keywords[k]) {
          if HasKey(table, category) {
            relevant := relevant + [Lookup(table, category)];
            matched := matched + {category};
          }
          break;
        }
        k := k + 1;
      }
      if category in matched {
        assert PriorityMatch(checks, q, table) == Some(i);
        return;
      }
      i := i + 1;
    }
  }

  /** The inner `for key, value in knowledge.items()` loop. */
  method CollectBlocks(table: Table, category: string, keyword: string) returns (found: seq<string>)
    ensures found == ValuesWhere(table, category, keyword)
  {
    found := [];
    var t := 0;
    while t < |table|
      invariant 0 <= t <= |table|
      invariant found == ValuesWhere(table[..t], category, keyword)
    {
      if Contains(table[t].0, category) || Contains(table[t].0, keyword) {
        found := found + [table[t].1];
      }
      assert table[..t + 1][..t] == table[..t];
      t := t + 1;
    }
    assert table[..t] == table;
  }

  /** The general loop of `find_relevant_knowledge` over `cats`. The skip of
    * already matched categories is kept; it never fires, because this loop
    * only runs when the priority loop matched nothing. */
  method GeneralScan(cats: seq<(string, seq<string>)>, q: string, table: Table) returns (relevant: seq<string>)
    ensures relevant == GeneralMatches(cats, q, table)
  {
    relevant := [];
    var matched: set<string> := {};
    var c := 0;
    while c < |cats|
      invariant 0 <= c <= |cats|
      invariant matched == {}
      invariant relevant == GeneralMatches(cats[..c], q, table)
    {
      var category := cats[c].0;
      var keywords := cats[c].1;
      var added: seq<string> := [];
      if category !in matched {
        var k := 0;
        while k < |keywords|
          invariant 0 <= k <= |keywords|
          invariant forall m :: 0 <= m < k ==> !Contains(q, keywords[m])
          invariant added == []
        {
          if Contains(q, keywords[k]) {
            added := CollectBlocks(table, category, keywords[k]);
            assert FirstIn(keywords, q) == Some(k);
            break;
          }
          k := k + 1;
        }
      }
      assert added == CategoryMatches(cats[c], q, table);
      relevant := relevant + added;
      assert cats[..c + 1][..c] == cats[..c];
      c := c + 1;
    }
    assert cats[..c] == cats;
  }

  /** `find_relevant_knowledge`: the calculation, else the first priority
    * category, else every block any keyword category points at. */
  method FindRelevantKnowledge(question: string, lang: string) returns (relevant: seq<string>)
    ensures relevant == RelevantKnowledge(question, lang)
  {
    var q := Lower(question);
    if Ratio.IsDislikeCalculationRequest(question) {
      var calculation := Ratio.CalculateDislikeRatio(question, lang);
      if calculation.Some? && calculation.value != "" {
        return [calculation.value];
      }
    }
    var table := KnowledgeFor(lang);
    relevant := PriorityScan(PriorityChecks, q, table);
    if relevant != [] {
      return;
    }
    relevant := GeneralScan(KnowledgeKeywords, q, table);
  }

  // ---------------------------------------------------------------- properties

  /** Every table holds a block for each priority category. */
  lemma PriorityBlocksPresent(lang: string, i: nat)
    requires i < |PriorityChecks|
    ensures HasKey(KnowledgeFor(lang), PriorityChecks[i].0)
  {
    var table := KnowledgeFor(lang);
    var key := PriorityChecks[i].0;
    if lang == "uk" || lang == "en" {
      var j := [6, 5, 8, 10][i];
      assert table[j].0 == key;
    } else {
      var j := [9, 8, 14, 17][i];
      assert table[j].0 == key;
    }
  }

  /** A dislike calculation that succeeds is the whole answer. */
  lemma CalculationAnswersAlone(question: string, lang: string)
    requires Ratio.IsDislikeCalculationRequest(question)
    requires Ratio.DislikeRatio(question).Some?
    ensures RelevantKnowledge(question, lang) == [Ratio.CalculateDislikeRatio(question, lang).value]
  {
  }

  /** A priority category with a keyword in `q` and a block in `table` makes
    * the answer one block: that of the first such category. */
  lemma PriorityAnswer(checks: seq<(string, seq<string>)>, cats: seq<(string, seq<string>)>,
                       q: string, table: Table, i: nat)
    requires i < |checks| && AnyIn(checks[i].1, q) && HasKey(table, checks[i].0)
    ensures var r := Answer(None, checks, cats, q, table);
      |r| == 1 &&
      exists p :: 0 <= p <= i && AnyIn(checks[p].1, q) && HasKey(table, checks[p].0) &&
        r[0] == Lookup(table, checks[p].0)
  {
    var m := PriorityMatch(checks, q, table);
    assert m.Some?;
    assert m.value <= i;
  }

  /** Otherwise, a question with a keyword of a priority category gets exactly
    * one block: the block of the first such category. */
  lemma PriorityGivesOneBlock(question: string, lang: string, i: nat)
    requires Calculation(question, lang).None?
    requires i < |PriorityChecks| && AnyIn(PriorityChecks[i].1, Lower(question))
    ensures var r := RelevantKnowledge(question, lang);
      |r| == 1 &&
      exists p :: 0 <= p <= i && AnyIn(PriorityChecks[p].1, Lower(question)) &&
        HasKey(KnowledgeFor(lang), PriorityChecks[p].0) && r[0] == Lookup(KnowledgeFor(lang), PriorityChecks[p].0)
  {
    assert RelevantKnowledge(question, lang) ==
      Answer(None, PriorityChecks, KnowledgeKeywords, Lower(question), KnowledgeFor(lang));
    PriorityBlocksPresent(lang, i);
    PriorityAnswer(PriorityChecks, KnowledgeKeywords, Lower(question), KnowledgeFor(lang), i);
  }

  /** One category contributes a block exactly when it has a keyword in `q`
    * and the block's key contains the first such keyword or the category's
    * name. */
  lemma CategoryMember(cat: (string, seq<string>), q: string, table: Table, x: string)
    ensures x in CategoryMatches(cat, q, table) <==>
      exists m, j :: FirstIn(cat.1, q) == Some(m) && 0 <= j < |table| && table[j].1 == x &&
        (Contains(table[j].0, cat.0) || Contains(table[j].0, cat.1[m]))
  {
    match FirstIn(cat.1, q)
    case None =>
    case Some(m) =>
      assert CategoryMatches(cat, q, table) == ValuesWhere(table, cat.0, cat.1[m]);
  }

  /** The general answer holds a block exactly when some category has a
    * keyword in `q` and the block's key contains the first such keyword or
    * the category's name. */
  lemma GeneralAnswer(checks: seq<(string, seq<string>)>, cats: seq<(string, seq<string>)>,
                      q: string, table: Table, x: string)
    requires PriorityMatch(checks, q, table).None?
    ensures x in Answer(None, checks, cats, q, table) <==>
      exists c, m, j :: 0 <= c < |cats| && FirstIn(cats[c].1, q) == Some(m) &&
        0 <= j < |table| && table[j].1 == x &&
        (Contains(table[j].0, cats[c].0) || Contains(table[j].0, cats[c].1[m]))
  {
    assert Answer(None, checks, cats, q, table) == GeneralMatches(cats, q, table);
    forall c | 0 <= c < |cats| {
      CategoryMember(cats[c], q, table, x);
    }
  }

  /** Without a calculation or a priority hit, a block is returned exactly
    * when some category has a keyword in the question and the block's key
    * contains the first such keyword of that category or its name. */
  lemma GeneralProvenance(question: string, lang: string, x: string)
    requires Calculation(question, lang).None?
    requires PriorityMatch(PriorityChecks, Lower(question), KnowledgeFor(lang)).None?
    ensures var q := Lower(question);
      var table := KnowledgeFor(lang);
      x in RelevantKnowledge(question, lang) <==>
      exists c, m, j :: 0 <= c < |KnowledgeKeywords| && FirstIn(KnowledgeKeywords[c].1, q) == Some(m) &&
        0 <= j < |table| && table[j].1 == x &&
        (Contains(table[j].0, KnowledgeKeywords[c].0) || Contains(table[j].0, KnowledgeKeywords[c].1[m]))
  {
    GeneralAnswer(PriorityChecks, KnowledgeKeywords, Lower(question), KnowledgeFor(lang), x);
  }

  /** When no keyword list of `cats` or `checks` occurs in `q`, the answer
    * is empty. */
  lemma EmptyAnswer(checks: seq<(string, seq<string>)>, cats: seq<(string, seq<string>)>, q: string, table: Table)
    requires forall p :: 0 <= p < |checks| ==> !AnyIn(checks[p].1, q)
    requires forall c :: 0 <= c < |cats| ==> !AnyIn(cats[c].1, q)
    ensures Answer(None, checks, cats, q, table) == []
  {
    NothingMatches(cats, q, table);
  }

  /** No category with a keyword in `q` means no block from the general scan. */
  lemma {:induction false} NothingMatches(cats: seq<(string, seq<string>)>, q: string, table: Table)
    requires forall c :: 0 <= c < |cats| ==> !AnyIn(cats[c].1, q)
    ensures GeneralMatches(cats, q, table) == []
  {
    if |cats| > 0 {
      var init := cats[..|cats| - 1];
      assert forall i :: 0 <= i < |init| ==> init[i] == cats[i];
      NothingMatches(init, q, table);
    }
  }

  /** Without a calculation, a question that contains no keyword of any
    * category gets no knowledge. */
  lemma NoKeywordNoKnowledge(question: string, lang: string)
    requires Calculation(question, lang).None?
    requires forall c :: 0 <= c < |KnowledgeKeywords| ==> !AnyIn(KnowledgeKeywords[c].1, Lower(question))
    ensures RelevantKnowledge(question, lang) == []
  {
    forall p | 0 <= p < |PriorityChecks|
      ensures !AnyIn(PriorityChecks[p].1, Lower(question))
    {
      var c := [4, 5, 8, 13][p];
      assert PriorityChecks[p].1 == KnowledgeKeywords[c].1;
    }
    EmptyAnswer(PriorityChecks, KnowledgeKeywords, Lower(question), KnowledgeFor(lang));
  }

  /** A language code other than 'uk' and 'en' reads the Russian material. */
  lemma KnowledgeFallsBackToRu(question: string, lang: string)
    requires lang != "uk" && lang != "en"
    ensures RelevantKnowledge(question, lang) == RelevantKnowledge(question, "ru")
  {
    if Ratio.DislikeRatio(question).Some? {
      Ratio.RatioReplyFallsBackToRu(Ratio.DislikeRatio(question).value, lang);
    }
  }

  /** No knowledge keyword is empty. */
  lemma KeywordsNonEmpty()
    ensures forall c, j :: 0 <= c < |KnowledgeKeywords| && 0 <= j < |KnowledgeKeywords[c].1| ==>
      KnowledgeKeywords[c].1[j] != ""
  {
  }

  /** Every block of every table is non-empty. */
  lemma BlocksNonEmpty(lang: string)
    ensures forall j :: 0 <= j < |KnowledgeFor(lang)| ==> KnowledgeFor(lang)[j].1 != ""
  {
  }

  /** Every block `find_relevant_knowledge` returns is non-empty. */
  lemma RelevantNonEmpty(question: string, lang: string)
    ensures forall x :: x in RelevantKnowledge(question, lang) ==> x != ""
  {
    var q := Lower(question);
    var table := KnowledgeFor(lang);
    BlocksNonEmpty(lang);
    if Calculation(question, lang).None? {
      match PriorityMatch(PriorityChecks, q, table)
      case Some(i) =>
      case None =>
        forall x | x in RelevantKnowledge(question, lang)
          ensures x != ""
        {
          GeneralProvenance(question, lang, x);
        }
    }
  }

  /** The empty question gets no knowledge. */
  lemma EmptyQuestionNoKnowledge(lang: string)
    ensures RelevantKnowledge("", lang) == []
  {
    KeywordsNonEmpty();
    assert Lower("") == "";
    assert !Ratio.IsDislikeCalculationRequest("") by {
      assert Ratio.ExtractNumbers("") == [];
    }
    forall c | 0 <= c < |KnowledgeKeywords|
      ensures !AnyIn(KnowledgeKeywords[c].1, "")
    {
      forall j | 0 <= j < |KnowledgeKeywords[c].1|
        ensures !Contains("", KnowledgeKeywords[c].1[j])
      {
        EmptyContainsOnlyEmpty(KnowledgeKeywords[c].1[j]);
      }
    }
    NoKeywordNoKnowledge("", lang);
  }
}
