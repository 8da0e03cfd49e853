/** The table-driven replies tried before any generation
  * (utils/ai_handler.py, detect_country_in_text and check_faq_direct_match):
  * a strict first-hit cascade over constant keyword tables. */
module DirectMatch {
  import opened Text
  import opened Lang
  import LanguageDetector
  import Ratio
  import Knowledge

  // ---------------------------------------------------------------- tables

  /** Countries, in the order they are tried. */
  const CountryKeywords: seq<string> := [
    "азербайджан", "azerbaijan", "казахстан", "kazakhstan", "грузия", "georgia", "беларусь",
    "belarus", "молдова", "moldova", "армения", "armenia", "узбекистан", "uzbekistan",
    "туркменистан", "turkmenistan", "таджикистан", "tajikistan", "кыргызстан", "kyrgyzstan",
    "латвия", "латва", "latvia", "литва", "lithuania", "эстония", "estonia", "польша", "poland",
    "германия", "germany", "франция", "france", "италия", "italy", "испания", "spain", "турция",
    "turkey", "израиль", "israel", "финляндия", "finland", "швеция", "sweden", "норвегия",
    "norway", "дания", "denmark", "швейцария", "switzerland", "австрия", "austria", "бельгия",
    "belgium", "нидерланды", "netherlands", "греция", "greece", "чехия", "czech", "венгрия",
    "hungary", "румыния", "romania", "болгария", "bulgaria", "сербия", "serbia", "хорватия",
    "croatia", "словакия", "slovakia", "словения", "slovenia", "эаэ", "оае", "uae", "сша", "usa",
    "канада", "canada", "австралия", "australia", "япония", "japan", "китай", "china", "индия",
    "india", "бразилия", "brazil", "мексика", "mexico", "аргентина", "argentina", "южная корея",
    "south korea", "иран", "iran", "ирак", "iraq", "саудовская", "saudi", "кувейт", "kuwait",
    "катар", "qatar", "бахрейн", "bahrain", "оман", "oman", "україна", "україна", "ukraine",
    "россия", "russia"]

  const AgencyKeywords: seq<string> := [
    "which agency", "what agency", "agency name", "which one",
    "яке агентство", "какое агентство", "назва агентства", "название агентства",
    "яке обрати", "какое выбрать", "which to choose", "which should i choose",
    "tosagency", "агентств", "agency", "агентство", "агенство",
    "яке", "какое", "which", "what is agency", "what agency name"]
  /** The words of the short-question agency test. */
  const AgencyWords: seq<string> := ["agency", "агентств", "агентство", "агенство", "яке", "какое", "which"]
  const AgencyAnswer: LangTable := LangTable(
    "В разделе Агентство выбирай: Tosagency-Ukraine 😊",
    "У розділі Агентство обирай: Tosagency-Ukraine 😊",
    "In the Agency section choose: Tosagency-Ukraine 😊")

  const VideoKeywords: seq<string> := [
    "can i send video", "video instead", "відео замість", "видео вместо",
    "можу відео", "могу видео", "відправити відео", "отправить видео"]
  const VideoAnswer: LangTable := LangTable(
    "Нужны именно фото, не видео 📸 Пришли 2-3 фото хорошего качества, чтобы было чётко видно лицо 😊",
    "Потрібні саме фото, не відео 📸 Надішли 2-3 фото хорошої якості, щоб було чітко видно обличчя 😊",
    "We need photos, not videos 📸 Send 2-3 good quality photos with your face clearly visible 😊")

  /** The country reply around the capitalised country name. */
  function CountryAnswer(display: string): (t: LangTable)
    ensures Filled(t)
  {
    LangTable(
      "У нас работают девочки со всех стран! " + display + " подходит ✅ При регистрации можешь выбрать любую страну 😊",
      "У нас працюють дівчата з усіх країн! " + display + " підходить ✅ При реєстрації можешь вибрати будь-яку країну 😊",
      "We have girls working from all countries! " + display + " works perfectly ✅ During registration you can choose any country 😊")
  }

  /** One-word reactions, answered only when they are the whole message. */
  const Reactions: seq<(string, LangTable)> := [
    ("ок", LangTable("Отлично! 😊", "Чудово! 😊", "Great! 😊")),
    ("окей", LangTable("Супер! 👍", "Супер! 👍", "Perfect! 👍")),
    ("хорошо", LangTable("Отлично! 😊", "Чудово! 😊", "Excellent! 😊")),
    ("добре", LangTable("Чудово! 😊", "Чудово! 😊", "Great! 😊")),
    ("понятно", LangTable("Супер! 😊", "Супер! 😊", "Great! 😊")),
    ("зрозуміло", LangTable("Добре! 😊", "Добре! 😊", "Good! 😊")),
    ("класс", LangTable("Рада помочь! 😊", "Рада допомогти! 😊", "Happy to help! 😊")),
    ("супер", LangTable("👍", "👍", "👍")),
    ("круто", LangTable("🔥", "🔥", "🔥")),
    ("отлично", LangTable("💪", "💪", "💪")),
    ("ясно", LangTable("👌", "👌", "👌")),
    ("чудово", LangTable("😊", "😊", "😊")),
    ("fine", LangTable("Отлично! 😊", "Чудово! 😊", "Great! 😊")),
    ("okay", LangTable("Супер! 👍", "Супер! 👍", "Perfect! 👍")),
    ("ok", LangTable("Отлично! 😊", "Чудово! 😊", "Great! 😊")),
    ("good", LangTable("Супер! 😊", "Супер! 😊", "Nice! 😊")),
    ("great", LangTable("Отлично! 🔥", "Чудово! 🔥", "Awesome! 🔥")),
    ("nice", LangTable("👍", "👍", "👍")),
    ("cool", LangTable("😊", "😊", "😊"))]

  /** Greetings and small talk, matched when the key occurs in the message or
    * the message occurs in the key. */
  const Greetings: seq<(string, LangTable)> := [
    ("привет", LangTable("Привет! Чем могу помочь? 😊", "Привіт! Чим можу допомогти? 😊", "Hi! How can I help? 😊")),
    ("здравствуй", LangTable("Здравствуй! Рада тебя видеть! Есть вопросы? 😊", "Вітаю! Рада тебе бачити! Є питання? 😊", "Hello! Nice to see you! Any questions? 😊")),
    ("вітаю", LangTable("Вітаю! Чим можу допомогти? 😊", "Вітаю! Чим можу допомогти? 😊", "Hi! How can I help? 😊")),
    ("привіт", LangTable("Привіт! Є питання? 😊", "Привіт! Є питання? 😊", "Hi! Any questions? 😊")),
    ("як дела", LangTable("Чудово! А у тебе як? 😊", "Чудово! А у тебе як? 😊", "Great! How are you? 😊")),
    ("как дела", LangTable("Отлично! У тебя как? 😊", "Чудово! А у тебе як? 😊", "Great! How are you? 😊")),
    ("кто ты", LangTable("Я менеджер агентства Valencia, помогаю девочкам начать работу в Halo 😊", "Я менеджер агентства Valencia, допомагаю дівчатам почати роботу в Halo 😊", "I'm a Valencia agency manager, helping girls start working in Halo 😊")),
    ("спасибо", LangTable("Пожалуйста! 😊", "Будь ласка! 😊", "You're welcome! 😊")),
    ("дякую", LangTable("Будь ласка! 😊", "Будь ласка! 😊", "You're welcome! 😊")),
    ("thanks", LangTable("Пожалуйста! 😊", "Будь ласка! 😊", "You're welcome! 😊")),
    ("hi", LangTable("Hi! How can I help? 😊", "Привіт! Чим можу допомогти? 😊", "Hi! How can I help? 😊")),
    ("hello", LangTable("Hello! How can I help? 😊", "Привіт! Чим можу допомогти? 😊", "Hello! How can I help? 😊"))]

  const DetailsKeywords: seq<string> := [
    "подробнее", "больше информации", "расскажи подробнее",
    "детальніше", "більше інформації", "розкажи детальніше",
    "more details", "more information", "tell me more"]
  /** The long job description; each language is represented by its first line. */
  const DetailsAnswer: LangTable := LangTable("Приветик 😊", "Привітик 😊", "Hello 😊")

  const WaitingKeywords: seq<string> := [
    "просто ждать", "мне просто ждать", "мне ждать", "просто жду", "и все", "теперь жду",
    "просто чекати", "мені чекати", "просто чекаю", "і все", "тепер чекаю",
    "just wait", "should i wait", "wait now"]
  const WaitingAnswer: LangTable := LangTable(
    "Да, просто жди 😊 Активация обычно происходит на следующий будний день. Как только активируют — сможешь начать зарабатывать! 💪",
    "Так, просто чекай 😊 Активація зазвичай відбувається наступного робочого дня. Як тільки активують — зможеш почати заробляти! 💪",
    "Yes, just wait 😊 Activation usually happens the next business day. Once activated — you can start earning! 💪")

  /** The most words a question may have for a knowledge block to answer it. */
  const MaxKnowledgeWords: nat := 15
  /** The most words a question may have for the agency-word test. */
  const MaxAgencyWords: nat := 4

  /** The tables of the cascade, gathered so that its reasoning does not
    * depend on their contents. */
  datatype Tables = Tables(
    countries: seq<string>,
    agency: seq<string>, agencyWords: seq<string>, agencyAnswer: LangTable,
    video: seq<string>, videoAnswer: LangTable,
    reactions: seq<(string, LangTable)>, greetings: seq<(string, LangTable)>,
    details: seq<string>, detailsAnswer: LangTable,
    waiting: seq<string>, waitingAnswer: LangTable)

  /** The bot's tables. */
  const Standard: Tables := Tables(
    CountryKeywords,
    AgencyKeywords, AgencyWords, AgencyAnswer,
    VideoKeywords, VideoAnswer,
    Reactions, Greetings,
    DetailsKeywords, DetailsAnswer,
    WaitingKeywords, WaitingAnswer)

  // ---------------------------------------------------------------- tiers

  /** The first listed country the lowered text contains. */
  function FirstCountry(countries: seq<string>, text: string): (r: Option<string>)
    ensures r.None? <==> !AnyIn(countries, Lower(text))
    ensures r.Some? ==>
      exists i :: 0 <= i < |countries| && r.value == countries[i] &&
        Contains(Lower(text), countries[i]) &&
        (forall j :: 0 <= j < i ==> !Contains(Lower(text), countries[j]))
  {
    match FirstIn(countries, Lower(text))
    case None => None
    case Some(i) => Some(countries[i])
  }

  /** `detect_country_in_text`. */
  function DetectCountry(text: string): Option<string>
  {
    FirstCountry(CountryKeywords, text)
  }

  /** The agency test: a keyword, or an agency word in a message of at most
    * four words. */
  predicate IsAgencyQuestion(tb: Tables, q: string, words: nat)
  {
    AnyIn(tb.agency, q) || (CountIn(tb.agencyWords, q) > 0 && words <= MaxAgencyWords)
  }

  /** The first entry whose key satisfies `hit`. */
  function FirstKey(table: seq<(string, LangTable)>, hit: string -> bool): (r: Option<nat>)
    ensures r.Some? ==> r.value < |table| && hit(table[r.value].0)
    ensures r.Some? ==> forall j :: 0 <= j < r.value ==> !hit(table[j].0)
    ensures r.None? ==> forall j :: 0 <= j < |table| ==> !hit(table[j].0)
  {
    if |table| == 0 then None
    else if hit(table[0].0) then Some(0)
    else
      var rest := FirstKey(table[1..], hit);
      assert forall j :: 1 <= j < |table| ==> table[j] == table[1..][j - 1];
      if rest.None? then None else Some(rest.value + 1)
  }

  /** The reaction whose key is the whole message. */
  function ReactionFor(reactions: seq<(string, LangTable)>, q: string): Option<nat>
  {
    FirstKey(reactions, key => key == q)
  }

  /** The greeting whose key occurs in the message or contains it. */
  function GreetingFor(greetings: seq<(string, LangTable)>, q: string): Option<nat>
  {
    FirstKey(greetings, key => Contains(q, key) || Contains(key, q))
  }

  /** The steps of the cascade. */
  datatype Tier = Calculation | KnowledgeBlock | Agency | Video | Country | Reaction | Greeting | Details | Waiting

  /** The order in which the steps are tried. */
  const Order: seq<Tier> := [Calculation, KnowledgeBlock, Agency, Video, Country, Reaction, Greeting, Details, Waiting]

  /** A direct answer and the step that produced it. */
  datatype Hit = Hit(tier: Tier, answer: string)

  /** The answer of one step for the message `q` (lowered and stripped), its
    * word count and language, the calculation result and the knowledge
    * blocks found for it. */
  function Step(tb: Tables, t: Tier, lang: string, q: string, words: nat, calculation: Option<string>, knowledge: seq<string>): Option<string>
  {
    match t
    case Calculation => if calculation.Some? && calculation.value != "" then calculation else None
    case KnowledgeBlock => if knowledge != [] && words <= MaxKnowledgeWords then Some(knowledge[0]) else None
    case Agency => if IsAgencyQuestion(tb, q, words) then Some(Pick(tb.agencyAnswer, lang)) else None
    case Video => if AnyIn(tb.video, q) then Some(Pick(tb.videoAnswer, lang)) else None
    case Country =>
      (match FirstCountry(tb.countries, q)
       case Some(c) => Some(Pick(CountryAnswer(Capitalize(c)), lang))
       case None => None)
    case Reaction =>
      (match ReactionFor(tb.reactions, q)
       case Some(i) => Some(Pick(tb.reactions[i].1, lang))
       case None => None)
    case Greeting =>
      (match GreetingFor(tb.greetings, q)
       case Some(i) => Some(Pick(tb.greetings[i].1, lang))
       case None => None)
    case Details => if AnyIn(tb.details, q) then Some(Pick(tb.detailsAnswer, lang)) else None
    case Waiting => if AnyIn(tb.waiting, q) then Some(Pick(tb.waitingAnswer, lang)) else None
  }

  /** The answer of the first of the steps `ts` that has one. */
  function FirstHit(tb: Tables, ts: seq<Tier>, lang: string, q: string, words: nat, calculation: Option<string>, knowledge: seq<string>): Option<Hit>
  {
    if ts == [] then None
    else
      match Step(tb, ts[0], lang, q, words, calculation, knowledge)
      case Some(a) => Some(Hit(ts[0], a))
      case None => FirstHit(tb, ts[1..], lang, q, words, calculation, knowledge)
  }

  /** The whole cascade: the steps tried in order, the first answer wins. */
  function Cascade(tb: Tables, lang: string, q: string, words: nat, calculation: Option<string>, knowledge: seq<string>): Option<Hit>
  {
    FirstHit(tb, Order, lang, q, words, calculation, knowledge)
  }

  /** The dislike calculation the cascade starts with. */
  function DirectCalculation(question: string, lang: string): (r: Option<string>)
    ensures r.Some? <==> Ratio.IsDislikeCalculationRequest(question) && Ratio.DislikeRatio(question).Some?
    ensures r.Some? ==> r.value != ""
  {
    if Ratio.IsDislikeCalculationRequest(question) then Ratio.CalculateDislikeRatio(question, lang) else None
  }

  /** The cascade over a question with the given tables. The reply language
    * is the language detected from the question. */
  function Direct(tb: Tables, question: string): Option<Hit>
  {
    var lang := LanguageDetector.DetectLanguage(question);
    Cascade(tb, lang, Strip(Lower(question)), WordCount(Strip(Lower(question))), DirectCalculation(question, lang), Knowledge.RelevantKnowledge(question, lang))
  }

  /** `check_faq_direct_match(question)`, with the step that answered. */
  function DirectHit(question: string): Option<Hit>
  {
    Direct(Standard, question)
  }

  /** `check_faq_direct_match(question)`: the answer, or None. */
  function CheckFaqDirectMatch(question: string): (r: Option<string>)
    ensures r.Some? <==> DirectHit(question).Some?
  {
    match DirectHit(question)
    case None => None
    case Some(h) => Some(h.answer)
  }

  // ---------------------------------------------------------------- properties

  /** Every agency word is an agency keyword. */
  predicate WordsAreKeywords(tb: Tables)
  {
    forall w :: w in tb.agencyWords ==> w in tb.agency
  }

  /** Every answer of the tables is non-empty in each language. */
  predicate AnswersFilled(tb: Tables)
  {
    Filled(tb.agencyAnswer) && Filled(tb.videoAnswer) && Filled(tb.detailsAnswer) && Filled(tb.waitingAnswer) &&
    (forall i :: 0 <= i < |tb.reactions| ==> Filled(tb.reactions[i].1)) &&
    (forall i :: 0 <= i < |tb.greetings| ==> Filled(tb.greetings[i].1))
  }

  /** In the bot's tables every agency word is an agency keyword. */
  lemma StandardWordsAreKeywords()
    ensures WordsAreKeywords(Standard)
  {
    assert Standard.agencyWords == AgencyWords && Standard.agency == AgencyKeywords;
    assert forall w :: w in AgencyWords ==> w in AgencyKeywords;
  }

  /** In the bot's tables every answer is non-empty in each language. */
  lemma StandardAnswersFilled()
    ensures AnswersFilled(Standard)
  {
    forall i | 0 <= i < |Reactions|
      ensures Filled(Reactions[i].1)
    {
    }
    forall i | 0 <= i < |Greetings|
      ensures Filled(Greetings[i].1)
    {
    }
  }

  /** The short-question agency test adds nothing when every agency word is
    * an agency keyword. */
  lemma AgencyWordsRedundant(tb: Tables, q: string, words: nat)
    requires WordsAreKeywords(tb)
    ensures IsAgencyQuestion(tb, q, words) <==> AnyIn(tb.agency, q)
  {
    if CountIn(tb.agencyWords, q) > 0 {
      var i :| 0 <= i < |tb.agencyWords| && Contains(q, tb.agencyWords[i]);
      assert tb.agencyWords[i] in tb.agency;
    }
  }

  /** For the bot's tables: the short-question agency test adds nothing. */
  lemma AgencySecondTestRedundant(q: string, words: nat)
    ensures IsAgencyQuestion(Standard, q, words) <==> AnyIn(AgencyKeywords, q)
  {
    StandardWordsAreKeywords();
    AgencyWordsRedundant(Standard, q, words);
  }

  /** When each step of the cascade applies, stated step by step on its own. */
  predicate Applies(tb: Tables, t: Tier, q: string, words: nat, calculation: Option<string>, knowledge: seq<string>)
  {
    match t
    case Calculation => calculation.Some? && calculation.value != ""
    case KnowledgeBlock => knowledge != [] && words <= MaxKnowledgeWords
    case Agency => AnyIn(tb.agency, q)
    case Video => AnyIn(tb.video, q)
    case Country => AnyIn(tb.countries, Lower(q))
    case Reaction => exists i :: 0 <= i < |tb.reactions| && tb.reactions[i].0 == q
    case Greeting => exists i :: 0 <= i < |tb.greetings| && (Contains(q, tb.greetings[i].0) || Contains(tb.greetings[i].0, q))
    case Details => AnyIn(tb.details, q)
    case Waiting => AnyIn(tb.waiting, q)
  }

  /** Each step applied to a question. */
  predicate Fires(tb: Tables, t: Tier, question: string)
  {
    var lang := LanguageDetector.DetectLanguage(question);
    Applies(tb, t, Strip(Lower(question)), WordCount(Strip(Lower(question))), DirectCalculation(question, lang), Knowledge.RelevantKnowledge(question, lang))
  }

  /** The position of a step in `Order`. */
  function Rank(t: Tier): (r: nat)
    ensures r < |Order| && Order[r] == t
  {
    match t
    case Calculation => 0
    case KnowledgeBlock => 1
    case Agency => 2
    case Video => 3
    case Country => 4
    case Reaction => 5
    case Greeting => 6
    case Details => 7
    case Waiting => 8
  }

  /** The reaction lookup finds an entry exactly when some key is the message. */
  lemma ReactionForIff(reactions: seq<(string, LangTable)>, q: string)
    ensures ReactionFor(reactions, q).Some? <==> exists i :: 0 <= i < |reactions| && reactions[i].0 == q
  {
    if ReactionFor(reactions, q).Some? {
      var i := ReactionFor(reactions, q).value;
      assert reactions[i].0 == q;
    }
  }

  /** The greeting lookup finds an entry exactly when some key occurs in the
    * message or contains it. */
  lemma GreetingForIff(greetings: seq<(string, LangTable)>, q: string)
    ensures GreetingFor(greetings, q).Some? <==>
      exists i :: 0 <= i < |greetings| && (Contains(q, greetings[i].0) || Contains(greetings[i].0, q))
  {
    if GreetingFor(greetings, q).Some? {
      var i := GreetingFor(greetings, q).value;
      assert Contains(q, greetings[i].0) || Contains(greetings[i].0, q);
    }
  }

  /** A step answers exactly when it applies. */
  lemma StepApplies(tb: Tables, t: Tier, lang: string, q: string, words: nat, calculation: Option<string>, knowledge: seq<string>)
    requires WordsAreKeywords(tb)
    ensures Step(tb, t, lang, q, words, calculation, knowledge).Some? <==> Applies(tb, t, q, words, calculation, knowledge)
  {
    match t
    case Agency => AgencyWordsRedundant(tb, q, words);
    case Reaction => ReactionForIff(tb.reactions, q);
    case Greeting => GreetingForIff(tb.greetings, q);
    case _ =>
  }

  /** The answer of a step is non-empty when the tables and the knowledge
    * blocks are. */
  lemma StepNonEmpty(tb: Tables, t: Tier, lang: string, q: string, words: nat, calculation: Option<string>, knowledge: seq<string>)
    requires AnswersFilled(tb)
    requires forall x :: x in knowledge ==> x != ""
    requires Step(tb, t, lang, q, words, calculation, knowledge).Some?
    ensures Step(tb, t, lang, q, words, calculation, knowledge).value != ""
  {
    match t
    case KnowledgeBlock => assert knowledge[0] in knowledge;
    case Country => assert Filled(CountryAnswer(Capitalize(FirstCountry(tb.countries, q).value)));
    case Reaction => assert Filled(tb.reactions[ReactionFor(tb.reactions, q).value].1);
    case Greeting => assert Filled(tb.greetings[GreetingFor(tb.greetings, q).value].1);
    case _ =>
  }

  /** A first hit comes from the earliest step of `ts` with an answer; there
    * is none exactly when no step of `ts` answers. */
  lemma {:induction false} FirstHitIsFirst(tb: Tables, ts: seq<Tier>, lang: string, q: string, words: nat, calculation: Option<string>, knowledge: seq<string>)
    ensures FirstHit(tb, ts, lang, q, words, calculation, knowledge).None? <==>
      forall i :: 0 <= i < |ts| ==> Step(tb, ts[i], lang, q, words, calculation, knowledge).None?
    ensures var h := FirstHit(tb, ts, lang, q, words, calculation, knowledge);
      h.Some? ==>
        exists i ::
          && 0 <= i < |ts|
          && ts[i] == h.value.tier
          && Step(tb, ts[i], lang, q, words, calculation, knowledge) == Some(h.value.answer)
          && forall j :: 0 <= j < i ==> Step(tb, ts[j], lang, q, words, calculation, knowledge).None?
  {
    if ts != [] {
      FirstHitIsFirst(tb, ts[1..], lang, q, words, calculation, knowledge);
      assert forall i :: 1 <= i < |ts| ==> ts[i] == ts[1..][i - 1];
      var h := FirstHit(tb, ts, lang, q, words, calculation, knowledge);
      if Step(tb, ts[0], lang, q, words, calculation, knowledge).None? && h.Some? {
        var k :| && 0 <= k < |ts[1..]|
                 && ts[1..][k] == h.value.tier
                 && Step(tb, ts[1..][k], lang, q, words, calculation, knowledge) == Some(h.value.answer)
                 && forall j :: 0 <= j < k ==> Step(tb, ts[1..][j], lang, q, words, calculation, knowledge).None?;
        assert ts[k + 1] == h.value.tier;
      }
    }
  }

  /** The cascade answers with the first step that applies, and with nothing
    * when no step applies. */
  lemma CascadeFirstApplicable(tb: Tables, lang: string, q: string, words: nat, calculation: Option<string>, knowledge: seq<string>)
    requires WordsAreKeywords(tb)
    ensures Cascade(tb, lang, q, words, calculation, knowledge).None? <==> forall t :: !Applies(tb, t, q, words, calculation, knowledge)
    ensures var h := Cascade(tb, lang, q, words, calculation, knowledge);
      h.Some? ==>
        Applies(tb, h.value.tier, q, words, calculation, knowledge) &&
        forall t :: Rank(t) < Rank(h.value.tier) ==> !Applies(tb, t, q, words, calculation, knowledge)
  {
    if Cascade(tb, lang, q, words, calculation, knowledge).None? {
      CascadeNothingApplies(tb, lang, q, words, calculation, knowledge);
    } else {
      CascadeHitIsFirst(tb, lang, q, words, calculation, knowledge);
    }
  }

  lemma CascadeNothingApplies(tb: Tables, lang: string, q: string, words: nat, calculation: Option<string>, knowledge: seq<string>)
    requires WordsAreKeywords(tb)
    requires Cascade(tb, lang, q, words, calculation, knowledge).None?
    ensures forall t :: !Applies(tb, t, q, words, calculation, knowledge)
  {
    FirstHitIsFirst(tb, Order, lang, q, words, calculation, knowledge);
    forall t ensures !Applies(tb, t, q, words, calculation, knowledge) {
      assert Order[Rank(t)] == t;
      StepApplies(tb, t, lang, q, words, calculation, knowledge);
    }
  }

  lemma CascadeHitIsFirst(tb: Tables, lang: string, q: string, words: nat, calculation: Option<string>, knowledge: seq<string>)
    requires WordsAreKeywords(tb)
    requires Cascade(tb, lang, q, words, calculation, knowledge).Some?
    ensures var h := Cascade(tb, lang, q, words, calculation, knowledge);
      Applies(tb, h.value.tier, q, words, calculation, knowledge) &&
      forall t :: Rank(t) < Rank(h.value.tier) ==> !Applies(tb, t, q, words, calculation, knowledge)
  {
    FirstHitIsFirst(tb, Order, lang, q, words, calculation, knowledge);
    var h := Cascade(tb, lang, q, words, calculation, knowledge);
    var i :| && 0 <= i < |Order|
             && Order[i] == h.value.tier
             && Step(tb, Order[i], lang, q, words, calculation, knowledge) == Some(h.value.answer)
             && forall j :: 0 <= j < i ==> Step(tb, Order[j], lang, q, words, calculation, knowledge).None?;
    StepApplies(tb, h.value.tier, lang, q, words, calculation, knowledge);
    RankOfOrder(i);
    forall t | Rank(t) < i ensures !Applies(tb, t, q, words, calculation, knowledge) {
      StepApplies(tb, t, lang, q, words, calculation, knowledge);
    }
  }

  /** `Rank` reads a step's position back from `Order`. */
  lemma RankOfOrder(i: nat)
    requires i < |Order|
    ensures Rank(Order[i]) == i
  {
  }

  /** The direct match answers with the first step that applies to the
    * question, and with nothing when none applies. */
  lemma FirstApplicableStep(tb: Tables, question: string)
    requires WordsAreKeywords(tb)
    ensures Direct(tb, question).None? <==> forall t :: !Fires(tb, t, question)
    ensures Direct(tb, question).Some? ==>
      Fires(tb, Direct(tb, question).value.tier, question) &&
      forall t :: Rank(t) < Rank(Direct(tb, question).value.tier) ==> !Fires(tb, t, question)
  {
    var lang := LanguageDetector.DetectLanguage(question);
    var q := Strip(Lower(question));
    var w, c, k := WordCount(q), DirectCalculation(question, lang), Knowledge.RelevantKnowledge(question, lang);
    assert Direct(tb, question) == Cascade(tb, lang, q, w, c, k);
    forall t ensures Fires(tb, t, question) == Applies(tb, t, q, w, c, k) {
    }
    CascadeFirstApplicable(tb, lang, q, w, c, k);
  }

  /** The cascade's answers are non-empty when its tables and the knowledge
    * blocks are. */
  lemma CascadeNonEmpty(tb: Tables, lang: string, q: string, words: nat, calculation: Option<string>, knowledge: seq<string>)
    requires AnswersFilled(tb)
    requires forall x :: x in knowledge ==> x != ""
    requires Cascade(tb, lang, q, words, calculation, knowledge).Some?
    ensures Cascade(tb, lang, q, words, calculation, knowledge).value.answer != ""
  {
    FirstHitIsFirst(tb, Order, lang, q, words, calculation, knowledge);
    var h := Cascade(tb, lang, q, words, calculation, knowledge);
    var i :| && 0 <= i < |Order|
             && Order[i] == h.value.tier
             && Step(tb, Order[i], lang, q, words, calculation, knowledge) == Some(h.value.answer)
             && forall j :: 0 <= j < i ==> Step(tb, Order[j], lang, q, words, calculation, knowledge).None?;
    StepNonEmpty(tb, Order[i], lang, q, words, calculation, knowledge);
  }

  /** Every direct answer is a non-empty text. */
  lemma DirectAnswerNonEmpty(tb: Tables, question: string)
    requires AnswersFilled(tb)
    requires Direct(tb, question).Some?
    ensures Direct(tb, question).value.answer != ""
  {
    var lang := LanguageDetector.DetectLanguage(question);
    var q := Strip(Lower(question));
    Knowledge.RelevantNonEmpty(question, lang);
    CascadeNonEmpty(tb, lang, q, WordCount(q), DirectCalculation(question, lang), Knowledge.RelevantKnowledge(question, lang));
  }

  /** With the bot's tables, every direct answer is a non-empty text. */
  lemma DirectHitNonEmpty(question: string)
    requires DirectHit(question).Some?
    ensures DirectHit(question).value.answer != ""
  {
    StandardAnswersFilled();
    DirectAnswerNonEmpty(Standard, question);
  }

  /** More than fifteen words never get a knowledge block. */
  lemma LongQuestionNoBlock(tb: Tables, question: string)
    requires WordsAreKeywords(tb)
    requires WordCount(Strip(Lower(question))) > MaxKnowledgeWords
    ensures Direct(tb, question).Some? ==> Direct(tb, question).value.tier != KnowledgeBlock
  {
    FirstApplicableStep(tb, question);
  }

  /** A reaction answers only a message that is exactly its key, once case
    * and surrounding blanks are dropped, in the question's language. */
  lemma ReactionIsWholeMessage(tb: Tables, question: string)
    requires Direct(tb, question).Some? && Direct(tb, question).value.tier == Reaction
    ensures exists i ::
      && 0 <= i < |tb.reactions|
      && tb.reactions[i].0 == Strip(Lower(question))
      && Direct(tb, question).value.answer == Pick(tb.reactions[i].1, LanguageDetector.DetectLanguage(question))
  {
    var lang := LanguageDetector.DetectLanguage(question);
    var q := Strip(Lower(question));
    var w, c, k := WordCount(q), DirectCalculation(question, lang), Knowledge.RelevantKnowledge(question, lang);
    FirstHitIsFirst(tb, Order, lang, q, w, c, k);
    var h := Cascade(tb, lang, q, w, c, k);
    var i :| && 0 <= i < |Order|
             && Order[i] == h.value.tier
             && Step(tb, Order[i], lang, q, w, c, k) == Some(h.value.answer)
             && forall j :: 0 <= j < i ==> Step(tb, Order[j], lang, q, w, c, k).None?;
    var r := ReactionFor(tb.reactions, q).value;
    assert tb.reactions[r].0 == q;
  }

  /** Steps without an answer are passed over. */
  lemma {:induction false} FirstHitSkip(tb: Tables, ts: seq<Tier>, k: nat, lang: string, q: string, words: nat, calculation: Option<string>, knowledge: seq<string>)
    requires k <= |ts|
    requires forall j :: 0 <= j < k ==> Step(tb, ts[j], lang, q, words, calculation, knowledge).None?
    ensures FirstHit(tb, ts, lang, q, words, calculation, knowledge) == FirstHit(tb, ts[k..], lang, q, words, calculation, knowledge)
  {
    if k > 0 {
      assert ts[1..][k - 1..] == ts[k..];
      FirstHitSkip(tb, ts[1..], k - 1, lang, q, words, calculation, knowledge);
    }
  }

  /** A list of non-empty keywords has none in the empty text. */
  lemma NothingInEmpty(ks: seq<string>)
    requires forall i :: 0 <= i < |ks| ==> ks[i] != ""
    ensures !AnyIn(ks, "")
  {
    forall i | 0 <= i < |ks|
      ensures !Contains("", ks[i])
    {
      EmptyContainsOnlyEmpty(ks[i]);
    }
  }

  /** With non-empty keys, the empty message passes every step before the
    * greetings and is answered by the first greeting. */
  lemma EmptyCascade(tb: Tables, lang: string)
    requires forall i :: 0 <= i < |tb.agency| ==> tb.agency[i] != ""
    requires forall i :: 0 <= i < |tb.video| ==> tb.video[i] != ""
    requires forall i :: 0 <= i < |tb.countries| ==> tb.countries[i] != ""
    requires forall i :: 0 <= i < |tb.reactions| ==> tb.reactions[i].0 != ""
    requires |tb.greetings| > 0
    requires WordsAreKeywords(tb)
    ensures Cascade(tb, lang, "", 0, None, []) == Some(Hit(Greeting, Pick(tb.greetings[0].1, lang)))
  {
    NothingInEmpty(tb.agency);
    NothingInEmpty(tb.video);
    NothingInEmpty(tb.countries);
    assert Lower("") == "";
    forall j | 0 <= j < 6
      ensures Step(tb, Order[j], lang, "", 0, None, []).None?
    {
      StepApplies(tb, Order[j], lang, "", 0, None, []);
    }
    FirstHitSkip(tb, Order, 6, lang, "", 0, None, []);
    assert Contains(tb.greetings[0].0, "") by {
      assert IsPrefix("", tb.greetings[0].0);
    }
    assert GreetingFor(tb.greetings, "") == Some(0);
    assert Order[6..][0] == Greeting;
  }
}
