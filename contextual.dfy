/** Follow-up questions such as "what now?" answered from what the bot said
  * last (utils/ai_handler.py, is_contextual_question). */
module Contextual {
  import opened Text
  import opened Lang

  /** One entry of the conversation log: who spoke and what was said. */
  datatype Said = Said(role: string, content: string)

  /** Phrases asking what to do next. */
  const WhatToDoVariants: seq<string> := [
    "що мені робити", "что мне делать", "що робити", "что делать",
    "що мені", "что мне", "що далі", "что дальше",
    "що тепер", "что теперь", "що зараз", "что сейчас",
    "what should i do", "what now", "what next", "what to do", "what i need to do",
    "і що", "и что", "а що", "а what", "а тепер", "а теперь",
    "що мені робити зараз", "что мне делать сейчас",
    "okay, what", "ok, what", "so what", "okay what"]

  /** Markers of a bot message that asked for photos. */
  const PhotoRequestKeywords: seq<string> := [
    "send 2-3 photos", "send 2–3 photos", "пришли 2-3 фото", "пришли 2–3 фото",
    "надішли 2-3 фото", "надішли 2–3 фото", "waiting for photos", "жду фото", "чекаю фото",
    "how to start", "як почати", "как начать", "if the format suits"]

  /** Markers of a bot message that gave instructions. */
  const InstructionsKeywords: seq<string> := [
    "інструкц", "инструкц", "instruction",
    "реєстр", "регистр", "registr",
    "надішли", "пришли", "send",
    "скрин", "screenshot",
    "активуют", "активують", "activate",
    "офіс", "офис", "office",
    "тестовий період", "тестовый період",
    "заробити", "заработать"]

  /** Words of a "photos are only for the office" message. */
  const OnlyForKeywords: seq<string> := ["тільки для", "только для", "only for"]

  /** Words of an instruction about the screenshot or the office. */
  const ActivationKeywords: seq<string> := ["скрин", "screenshot", "офіс", "офис"]

  const SendPhotosReply: LangTable := LangTable(
    "Пришли мне 2-3 своих фото (хорошего качества, чтобы было чётко видно лицо) 📸",
    "Надішли мені 2-3 свої фото (хорошої якості, щоб було чітко видно обличчя) 📸",
    "Send me 2-3 photos of yourself (good quality, face clearly visible) 📸")

  const PhotosForReviewReply: LangTable := LangTable(
    "Нужно отправить мне 2-3 своих фото. После этого я отправлю их на рассмотрение офису 😊",
    "Потрібно надіслати мені 2-3 свої фото. Після цього я відправлю їх на розгляд офісу 😊",
    "You need to send me 2-3 photos of yourself. After that I will send them for office review 😊")

  const WaitActivationReply: LangTable := LangTable(
    "Просто жди активации от офиса. Обычно это происходит на следующий будний день. Как только активируют — сможешь начать работать! 😊",
    "Просто чекай активації від офісу. Зазвичай це відбувається наступного робочого дня. Як тільки активують — зможеш почати працювати! 😊",
    "Just wait for activation from the office. Usually it happens the next business day. Once activated — you can start working! 😊")

  const FollowInstructionsReply: LangTable := LangTable(
    "Следуй инструкциям выше шаг за шагом. Если что-то непонятно на конкретном шаге — спрашивай! 😊",
    "Дотримуйся інструкцій вище крок за кроком. Якщо щось незрозуміло на конкретному кроці — питай! 😊",
    "Follow the instructions above step by step. If something is unclear at a specific step — ask! 😊")

  /** How many of the bot's latest messages are looked at. */
  const RecentLimit: nat := 3

  /** The lowered contents of the bot's messages, newest first. */
  function BotNewestFirst(history: seq<Said>): (r: seq<string>)
    ensures |r| <= |history|
  {
    if |history| == 0 then []
    else BotNewestFirst(history[1..]) + (if history[0].role == "bot" then [Lower(history[0].content)] else [])
  }

  /** At most the first `n` entries. */
  function Cap(s: seq<string>, n: nat): (r: seq<string>)
    ensures |r| == if |s| < n then |s| else n
    ensures r == s[..|r|]
  {
    if |s| <= n then s else s[..n]
  }

  /** The bot messages the rule reads: the three latest, newest first. */
  function RecentBotMessages(history: seq<Said>): seq<string>
  {
    Cap(BotNewestFirst(history), RecentLimit)
  }

  /** The reply a single bot message calls for, if any. */
  function MarkerReply(m: string): (r: Option<LangTable>)
    ensures r.Some? <==> AnyIn(PhotoRequestKeywords, m) || (Contains(m, "фото") && AnyIn(OnlyForKeywords, m)) || AnyIn(InstructionsKeywords, m)
  {
    if AnyIn(PhotoRequestKeywords, m) then Some(SendPhotosReply)
    else if Contains(m, "фото") && AnyIn(OnlyForKeywords, m) then Some(PhotosForReviewReply)
    else if AnyIn(InstructionsKeywords, m) then
      if AnyIn(ActivationKeywords, m) then Some(WaitActivationReply) else Some(FollowInstructionsReply)
    else None
  }

  /** The reply of the first message, in order, that calls for one. */
  function FirstMarkerReply(ms: seq<string>): (r: Option<LangTable>)
    ensures r.None? <==> forall k :: 0 <= k < |ms| ==> MarkerReply(ms[k]).None?
    ensures r.Some? ==>
      exists k ::
        && 0 <= k < |ms|
        && r == MarkerReply(ms[k])
        && forall j :: 0 <= j < k ==> MarkerReply(ms[j]).None?
  {
    if |ms| == 0 then None
    else if MarkerReply(ms[0]).Some? then MarkerReply(ms[0])
    else
      var r := FirstMarkerReply(ms[1..]);
      assert forall k :: 1 <= k < |ms| ==> ms[k] == ms[1..][k - 1];
      r
  }

  /** The follow-up rule as a whole: a what-next phrase in the lowered,
    * stripped question, at least two logged messages, and a marker in one
    * of the bot's latest messages. */
  function Contextual(question: string, history: seq<Said>): Option<LangTable>
  {
    if !AnyIn(WhatToDoVariants, Strip(Lower(question))) || |history| < 2 then None
    else FirstMarkerReply(RecentBotMessages(history))
  }

  /** Capping after appending one entry. */
  lemma CapAppend(s: seq<string>, x: string, n: nat)
    ensures Cap(s + [x], n) == if |s| < n then s + [x] else Cap(s, n)
  {
    if |s| >= n {
      assert (s + [x])[..n] == s[..n];
    }
  }

  /** The collecting loop of `is_contextual_question`: from the newest entry
    * back, the lowered contents of bot messages while fewer than three are
    * held. */
  method CollectRecentBotMessages(history: seq<Said>) returns (lastBotMessages: seq<string>)
    ensures lastBotMessages == RecentBotMessages(history)
  {
    lastBotMessages := [];
    var count := 0;
    var i := |history|;
    while i > 0
      invariant 0 <= i <= |history|
      invariant lastBotMessages == Cap(BotNewestFirst(history[i..]), RecentLimit)
      invariant count == |lastBotMessages|
    {
      i := i - 1;
      var msg := history[i];
      assert history[i..][1..] == history[i + 1..];
      assert BotNewestFirst(history[i..]) ==
        BotNewestFirst(history[i + 1..]) + (if msg.role == "bot" then [Lower(msg.content)] else []);
      if msg.role == "bot" {
        CapAppend(BotNewestFirst(history[i + 1..]), Lower(msg.content), RecentLimit);
      }
      if msg.role == "bot" && count < RecentLimit {
        lastBotMessages := lastBotMessages + [Lower(msg.content)];
        count := count + 1;
      }
    }
    assert history[0..] == history;
  }

  /** The answering loop of `is_contextual_question`: the first message with
    * a marker decides. */
  method ScanForMarker(ms: seq<string>) returns (reply: Option<LangTable>)
    ensures reply == FirstMarkerReply(ms)
  {
    var k := 0;
    while k < |ms|
      invariant 0 <= k <= |ms|
      invariant FirstMarkerReply(ms) == FirstMarkerReply(ms[k..])
    {
      var m := ms[k];
      assert ms[k..][1..] == ms[k + 1..];
      if AnyIn(PhotoRequestKeywords, m) {
        return Some(SendPhotosReply);
      }
      if Contains(m, "фото") && AnyIn(OnlyForKeywords, m) {
        return Some(PhotosForReviewReply);
      }
      if AnyIn(InstructionsKeywords, m) {
        if AnyIn(ActivationKeywords, m) {
          return Some(WaitActivationReply);
        } else {
          return Some(FollowInstructionsReply);
        }
      }
      k := k + 1;
    }
    return None;
  }

  /** `is_contextual_question(question, history)`. */
  method IsContextualQuestion(question: string, history: seq<Said>) returns (reply: Option<LangTable>)
    ensures reply == Contextual(question, history)
  {
    var q := Strip(Lower(question));
    if !AnyIn(WhatToDoVariants, q) {
      return None;
    }
    if |history| < 2 {
      return None;
    }
    var lastBotMessages := CollectRecentBotMessages(history);
    if |lastBotMessages| == 0 {
      return None;
    }
    reply := ScanForMarker(lastBotMessages);
  }

  // ---------------------------------------------------------------- properties

  /** Without a what-next phrase, or with fewer than two logged messages,
    * there is no follow-up reply. */
  lemma NeedsPhraseAndHistory(question: string, history: seq<Said>)
    ensures Contextual(question, history).Some? ==>
      AnyIn(WhatToDoVariants, Strip(Lower(question))) && |history| >= 2
  {
  }

  /** `x` is the lowered content of one of the bot's messages in the log. */
  predicate FromBot(history: seq<Said>, x: string)
  {
    exists i :: 0 <= i < |history| && history[i].role == "bot" && x == Lower(history[i].content)
  }

  /** What is read is the lowered content of bot messages of the log. */
  lemma {:induction false} RecentAreBotMessages(history: seq<Said>)
    ensures forall x :: x in BotNewestFirst(history) ==> FromBot(history, x)
    decreases |history|
  {
    if |history| > 0 {
      RecentAreBotMessages(history[1..]);
      var rest := BotNewestFirst(history[1..]);
      assert BotNewestFirst(history) == rest + (if history[0].role == "bot" then [Lower(history[0].content)] else []);
      forall x | x in BotNewestFirst(history)
        ensures FromBot(history, x)
      {
        if x in rest {
          var i :| 0 <= i < |history[1..]| && history[1..][i].role == "bot" && x == Lower(history[1..][i].content);
          assert history[i + 1] == history[1..][i];
        } else {
          assert x == Lower(history[0].content);
        }
      }
    }
  }

  /** Newest-first order: a message logged after the rest comes first. */
  lemma BotNewestFirstAppend(history: seq<Said>, m: Said)
    ensures BotNewestFirst(history + [m]) ==
      (if m.role == "bot" then [Lower(m.content)] else []) + BotNewestFirst(history)
  {
    BotNewestFirstConcat(history, [m]);
    assert [m][1..] == [];
  }

  /** The bot messages of a longer log: the later part's come first. */
  lemma {:induction false} BotNewestFirstConcat(a: seq<Said>, b: seq<Said>)
    ensures BotNewestFirst(a + b) == BotNewestFirst(b) + BotNewestFirst(a)
    decreases |a|
  {
    if |a| == 0 {
      assert a + b == b;
    } else {
      assert (a + b)[1..] == a[1..] + b;
      BotNewestFirstConcat(a[1..], b);
    }
  }

  /** A message that is not the bot's, logged last, changes nothing. */
  lemma UserMessagesIgnored(question: string, history: seq<Said>, m: Said)
    requires m.role != "bot" && |history| >= 2
    ensures Contextual(question, history + [m]) == Contextual(question, history)
  {
    BotNewestFirstAppend(history, m);
    assert RecentBotMessages(history + [m]) == RecentBotMessages(history);
  }

  /** Only the three latest bot messages matter: anything logged before a
    * stretch holding three bot messages is never read. */
  lemma OlderMessagesIgnored(question: string, older: seq<Said>, recent: seq<Said>)
    requires |BotNewestFirst(recent)| >= RecentLimit
    ensures Contextual(question, older + recent) == Contextual(question, recent)
  {
    BotNewestFirstConcat(older, recent);
    var r := BotNewestFirst(recent);
    assert (r + BotNewestFirst(older))[..RecentLimit] == r[..RecentLimit];
    assert |recent| >= 2;
  }

  /** A photo request in the latest bot message is answered with the request
    * for photos, whatever came before. */
  lemma LatestPhotoRequestWins(question: string, history: seq<Said>, m: Said)
    requires AnyIn(WhatToDoVariants, Strip(Lower(question))) && |history| >= 1
    requires m.role == "bot" && AnyIn(PhotoRequestKeywords, Lower(m.content))
    ensures Contextual(question, history + [m]) == Some(SendPhotosReply)
  {
    BotNewestFirstAppend(history, m);
  }

  /** Every follow-up reply has a text in each language. */
  lemma MarkerReplyFilled(m: string)
    ensures MarkerReply(m).Some? ==> Filled(MarkerReply(m).value)
  {
    assert Filled(SendPhotosReply) && Filled(PhotosForReviewReply);
    assert Filled(WaitActivationReply) && Filled(FollowInstructionsReply);
  }

  /** A follow-up answer is never empty, whatever the reply language. */
  lemma ContextualFilled(question: string, history: seq<Said>)
    ensures Contextual(question, history).Some? ==> Filled(Contextual(question, history).value)
  {
    var r := Contextual(question, history);
    if r.Some? {
      var ms := RecentBotMessages(history);
      assert r == FirstMarkerReply(ms);
      var k :| 0 <= k < |ms| && r == MarkerReply(ms[k]);
      MarkerReplyFilled(ms[k]);
    }
  }
}
