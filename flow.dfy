/** The decisions the onboarding handlers take (handlers/user.py,
  * handlers/screenshot.py, handlers/approval.py, handlers/admin.py), each a
  * function of what the handler has read, with the conversation states of
  * states.py. */
module Flow {
  import opened Text
  import opened Lang
  import Config
  import Tables
  import Generation

  /** `UserStates`: the conversation state of a user. */
  datatype UState = Chatting | WaitingPhotos | AskingWorkHours | AskingExperience | PendingReview
                  | HelpingRegistration | WaitingScreenshot | Registered | Rejected | WaitingAdmin

  /** The status text stored for a state: the two share their names. */
  function StatusOf(s: UState): string
  {
    match s
    case Chatting => "chatting"
    case WaitingPhotos => "waiting_photos"
    case AskingWorkHours => "asking_work_hours"
    case AskingExperience => "asking_experience"
    case PendingReview => "pending_review"
    case HelpingRegistration => "helping_registration"
    case WaitingScreenshot => "waiting_screenshot"
    case Registered => "registered"
    case Rejected => "rejected"
    case WaitingAdmin => "waiting_admin"
  }

  /** Distinct states have distinct names. */
  lemma StatusOfInjective(a: UState, b: UState)
    ensures StatusOf(a) == StatusOf(b) ==> a == b
  {
  }

  /** The statuses `cmd_start` restores a state for. */
  const RestoredStatuses: seq<string> :=
    ["chatting", "asking_work_hours", "asking_experience", "pending_review", "waiting_screenshot", "registered",
     "helping_registration", "waiting_admin"]

  /** `status_to_state.get(status, UserStates.chatting)`. */
  function StateForStatus(status: string): UState
  {
    if status == "chatting" then Chatting
    else if status == "asking_work_hours" then AskingWorkHours
    else if status == "asking_experience" then AskingExperience
    else if status == "pending_review" then PendingReview
    else if status == "waiting_screenshot" then WaitingScreenshot
    else if status == "registered" then Registered
    else if status == "helping_registration" then HelpingRegistration
    else if status == "waiting_admin" then WaitingAdmin
    else Chatting
  }

  /** A returning user gets back the state their status names exactly when
    * the status is one of the eight in the table; any other status, such as
    * 'approved' or 'new', gives chatting. */
  lemma StateForStatusRestores(status: string)
    ensures status in RestoredStatuses <==> StatusOf(StateForStatus(status)) == status
    ensures status !in RestoredStatuses ==> StateForStatus(status) == Chatting
  {
  }

  // ---------------------------------------------------------------- /start

  /** What `cmd_start` does for a user other than the operator. */
  datatype StartStep = Ignored | NewInGroup | NewChatting | BackInGroup | Restored(state: UState)

  /** The branch `cmd_start` takes, from the stored row (read before the
    * membership check) and the membership answer. */
  function StartDecision(user: Option<Tables.User>, inGroup: bool): (step: StartStep)
    ensures step.Ignored? <==> user.Some? && user.value.status == "rejected"
    ensures user.None? ==> step == (if inGroup then NewInGroup else NewChatting)
  {
    if user.Some? && user.value.status == "rejected" then Ignored
    else if user.None? then (if inGroup then NewInGroup else NewChatting)
    else if inGroup && user.value.status != "registered" && user.value.status != "approved" then BackInGroup
    else Restored(StateForStatus(user.value.status))
  }

  /** The state a user is in after `/start`, if it changes. */
  function StartState(step: StartStep): Option<UState>
  {
    match step
    case Ignored => None
    case NewInGroup => Some(Registered)
    case NewChatting => Some(Chatting)
    case BackInGroup => Some(Registered)
    case Restored(s) => Some(s)
  }

  /** A new user starts registered when already in the group and chatting
    * otherwise; a returning group member who is neither registered nor
    * approved becomes registered; every other returning user is restored by
    * status, so an approved user comes back chatting. */
  lemma StartStates(user: Option<Tables.User>, inGroup: bool)
    ensures user.None? ==> StartState(StartDecision(user, inGroup)) == Some(if inGroup then Registered else Chatting)
    ensures user.Some? && user.value.status != "rejected" ==>
      StartState(StartDecision(user, inGroup)) ==
        Some(if inGroup && user.value.status !in ["registered", "approved"] then Registered
             else StateForStatus(user.value.status))
    ensures user.Some? && user.value.status == "approved" ==> StartState(StartDecision(user, inGroup)) == Some(Chatting)
  {
  }

  // ---------------------------------------------------------------- photos

  /** What a single photo in chatting does, given the stored count. */
  datatype PhotoStep = LimitReached | Saved(count: nat)

  /** `handle_photo_in_chatting` without an album: refused when the count
    * has reached PHOTOS_MAX, else saved. */
  function SinglePhoto(count: nat): (step: PhotoStep)
    ensures step.LimitReached? <==> count >= Config.PhotosMax
    ensures step.Saved? ==> step.count == count + 1 <= Config.PhotosMax
  {
    if count >= Config.PhotosMax then LimitReached else Saved(count + 1)
  }

  /** What an album does: refused outright, refused as too large (with the
    * number still allowed), or saved whole. */
  datatype AlbumStep = AlbumLimitReached | TooMany(allowed: int) | AlbumSaved(count: nat)

  /** The album branch: all photos are saved, or none. */
  function Album(count: nat, size: nat): (step: AlbumStep)
    ensures step.AlbumSaved? <==> count < Config.PhotosMax && count + size <= Config.PhotosMax
    ensures step.AlbumSaved? ==> step.count == count + size
    ensures step.TooMany? ==> step.allowed == Config.PhotosMax - count
  {
    if count >= Config.PhotosMax then AlbumLimitReached
    else if count + size > Config.PhotosMax then TooMany(Config.PhotosMax - count)
    else AlbumSaved(count + size)
  }

  /** After photos are saved: move on to the questions once PHOTOS_MIN are
    * there, else say how many are still missing. */
  function PhotosStillNeeded(count: nat): (n: nat)
    ensures n == 0 <==> count >= Config.PhotosMin
    ensures n > 0 ==> count + n == Config.PhotosMin
  {
    if count >= Config.PhotosMin then 0 else Config.PhotosMin - count
  }

  /** The photo handlers never take a user past PHOTOS_MAX from below it, and
    * a save moves to the questions exactly when the new count reaches
    * PHOTOS_MIN. */
  lemma PhotoCap(count: nat, size: nat)
    ensures SinglePhoto(count).Saved? ==> SinglePhoto(count).count <= Config.PhotosMax
    ensures Album(count, size).AlbumSaved? ==> Album(count, size).count <= Config.PhotosMax
    ensures SinglePhoto(count).Saved? ==>
      (PhotosStillNeeded(SinglePhoto(count).count) == 0 <==> count + 1 >= Config.PhotosMin)
    ensures count == 0 && size == 1 ==> Album(count, size) == AlbumSaved(1) && PhotosStillNeeded(1) == 1
  {
  }

  // ---------------------------------------------------------------- the escalation gate

  /** `ai_result['escalate'] or ai_result['confidence'] < AI_CONFIDENCE_THRESHOLD`. */
  predicate Escalates(r: Generation.Reply)
  {
    r.escalate || r.confidence < Config.AiConfidenceThreshold
  }

  /** The operator gets the failed resolution and nothing the shortcuts
    * answer: the fallback reply escalates, table, follow-up and
    * forbidden-topic answers never do, and a generated answer below 70
    * does. */
  lemma GateAgreesWithResolver(answer: string, confidence: int)
    ensures Escalates(Generation.Escalation)
    ensures !Escalates(Generation.Reply(answer, Generation.DirectConfidence, false))
    ensures !Escalates(Generation.Reply(answer, Generation.ContextualConfidence, false))
    ensures !Escalates(Generation.Reply(answer, Generation.ForbiddenConfidence, false))
    ensures !Escalates(Generation.Reply(answer, Generation.PlainTextConfidence, false))
    ensures Escalates(Generation.Reply(answer, confidence, false)) <==> confidence < 70
  {
  }

  // ---------------------------------------------------------------- identifiers

  /** An application ID typed or captioned by the user: digits only, six to
    * fifteen of them. */
  predicate AcceptsId(s: string)
  {
    IsDigits(s) && 6 <= |s| <= 15
  }

  /** What a screenshot leads to. */
  datatype ScreenshotStep = Failed | ByRecognition(id: string) | ByCaption(id: string) | AskForId

  /** `handle_screenshot`: an error while fetching or reading the image is
    * `failure`; a recognised ID wins over the caption; the stripped caption
    * counts only when it is an acceptable ID. */
  function ScreenshotDecision(recognised: Option<string>, caption: Option<string>, failure: bool): ScreenshotStep
  {
    if failure then Failed
    else if recognised.Some? && recognised.value != "" then ByRecognition(recognised.value)
    else
      var c := if caption.Some? then Strip(caption.value) else "";
      if AcceptsId(c) then ByCaption(c) else AskForId
  }

  /** Registration follows a screenshot exactly when an ID was recognised or
    * the caption holds one, and the recognised ID takes precedence. */
  lemma ScreenshotRegisters(recognised: Option<string>, caption: Option<string>, failure: bool)
    ensures var step := ScreenshotDecision(recognised, caption, failure);
      (step.ByRecognition? || step.ByCaption?) <==>
        !failure && ((recognised.Some? && recognised.value != "") || (caption.Some? && AcceptsId(Strip(caption.value))))
    ensures !failure && recognised.Some? && recognised.value != "" ==>
      ScreenshotDecision(recognised, caption, failure) == ByRecognition(recognised.value)
    ensures ScreenshotDecision(recognised, caption, failure).ByCaption? ==>
      AcceptsId(ScreenshotDecision(recognised, caption, failure).id)
  {
  }

  /** A digit string of acceptable length is accepted whatever surrounds it
    * in blanks, and nothing with a non-digit is. */
  lemma AcceptsIdShape(s: string)
    ensures AcceptsId(s) ==> forall i :: 0 <= i < |s| ==> '0' <= s[i] <= '9'
    ensures |s| < 6 || |s| > 15 ==> !AcceptsId(s)
  {
  }

  // ---------------------------------------------------------------- operator replies

  /** The status a user returns to after the operator's answer. */
  function ResumeStatus(prior: string): (s: string)
    ensures s == "registered" || s == "chatting"
  {
    if prior == "registered" || prior == "waiting_screenshot" then "registered" else "chatting"
  }

  /** Resumed as registered exactly from registered or waiting_screenshot, so
    * a registered user whose question was escalated (now waiting_admin)
    * comes back chatting. */
  lemma ResumeRule(prior: string)
    ensures ResumeStatus(prior) == "registered" <==> prior in ["registered", "waiting_screenshot"]
    ensures ResumeStatus("waiting_admin") == "chatting"
    ensures StateForStatus(ResumeStatus(prior)) == (if ResumeStatus(prior) == "registered" then Registered else Chatting)
  {
  }

  /** `[k.strip() for k in text.split(',')]`. */
  function ParseKeywords(text: string): (ks: seq<string>)
    ensures |ks| == |SplitOn(text, ',')|
    ensures forall k :: 0 <= k < |ks| ==> ks[k] == Strip(SplitOn(text, ',')[k])
  {
    var ps := SplitOn(text, ',');
    seq(|ps|, k requires 0 <= k < |ps| => Strip(ps[k]))
  }

  /** One keyword per comma-separated piece, empty pieces kept: a text
    * without a comma is one keyword, and a text ending in a comma ends with
    * an empty keyword. */
  lemma KeywordPieces(text: string)
    ensures ',' !in text ==> ParseKeywords(text) == [Strip(text)]
    ensures |text| > 0 && text[|text| - 1] == ',' ==> ParseKeywords(text)[|ParseKeywords(text)| - 1] == ""
  {
    if ',' !in text {
      SplitNone(text, ',');
    }
    if |text| > 0 && text[|text| - 1] == ',' {
      SplitEndsEmpty(text[..|text| - 1], ',');
      assert text[..|text| - 1] + [','] == text;
    }
  }

  /** A text ending in the separator splits into at least two pieces, the
    * last one empty. */
  lemma {:induction false} SplitEndsEmpty(s: string, sep: char)
    ensures var ps := SplitOn(s + [sep], sep); |ps| >= 2 && ps[|ps| - 1] == ""
    decreases |s|
  {
    if |s| == 0 {
      assert SplitOn([sep], sep) == [""] + SplitOn([], sep);
    } else {
      assert (s + [sep])[1..] == s[1..] + [sep];
      SplitEndsEmpty(s[1..], sep);
    }
  }

  /** So a stray trailing comma stores a topic that blocks every message. */
  lemma TrailingCommaBlocksEverything(text: string, message: string)
    requires |text| > 0 && text[|text| - 1] == ','
    ensures Generation.Forbidden(message, [ParseKeywords(text)])
  {
    KeywordPieces(text);
    var ks := ParseKeywords(text);
    Generation.EmptyKeywordBlocksAll(message, [ks], 0, |ks| - 1);
  }

  // ---------------------------------------------------------------- statistics

  /** Python's `round` of `n / d` for `d > 0`: nearest integer, halves to
    * even. */
  function RoundHalfEven(n: nat, d: nat): (r: nat)
    requires d > 0
    ensures r * d <= n + d && n <= r * d + d
  {
    var q := n / d;
    var m := n % d;
    if 2 * m > d then q + 1
    else if 2 * m < d then q
    else if q % 2 == 0 then q
    else q + 1
  }

  /** The share of automatic answers in percent, 0 when there are none. */
  function Efficiency(adminAnswers: nat, autoAnswers: nat): nat
  {
    if adminAnswers + autoAnswers > 0 then RoundHalfEven(100 * autoAnswers, adminAnswers + autoAnswers) else 0
  }

  /** The efficiency is a percentage: 0 without answers or without automatic
    * ones, 100 when every answer was automatic, and never above 100. */
  lemma EfficiencyBounds(adminAnswers: nat, autoAnswers: nat)
    ensures Efficiency(adminAnswers, autoAnswers) <= 100
    ensures autoAnswers == 0 ==> Efficiency(adminAnswers, autoAnswers) == 0
    ensures adminAnswers == 0 && autoAnswers > 0 ==> Efficiency(adminAnswers, autoAnswers) == 100
  {
    var d := adminAnswers + autoAnswers;
    if d > 0 {
      var n := 100 * autoAnswers;
      assert 100 * d == n + 100 * adminAnswers;
      RoundAtMost(n, d, 100);
      if autoAnswers == 0 {
        DivExact(0, d, 0);
      }
      if adminAnswers == 0 {
        DivExact(n, d, 100);
      }
    }
  }

  /** Rounding a quotient that is at most `k` gives at most `k`. */
  lemma RoundAtMost(n: nat, d: nat, k: nat)
    requires d > 0 && n <= k * d
    ensures RoundHalfEven(n, d) <= k
  {
    var q := n / d;
    var m := n % d;
    assert n == q * d + m;
    if q > k {
      MulMonotone(k + 1, q, d);
    } else if q == k {
      assert m == 0;
    }
  }

  /** An exact quotient rounds to itself. */
  lemma DivExact(n: nat, d: nat, k: nat)
    requires d > 0 && n == k * d
    ensures RoundHalfEven(n, d) == k
  {
    var q := n / d;
    var m := n % d;
    assert n == q * d + m;
    if q > k {
      MulMonotone(k + 1, q, d);
    } else if q < k {
      MulMonotone(q + 1, k, d);
    }
  }

  lemma MulMonotone(a: nat, b: nat, d: nat)
    requires a <= b
    ensures a * d <= b * d
  {
    assert b * d == a * d + (b - a) * d;
  }

  // ---------------------------------------------------------------- approval

  /** `user['language'] if user else 'ru'`, a missing entry read as 'ru'. */
  function InstructionLanguage(user: Option<Tables.User>): (code: string)
    ensures user.None? ==> code == "ru"
  {
    if user.Some? && user.value.language.Some? then user.value.language.value else "ru"
  }

  /** The download step; each language is represented by its first line. */
  const InstructionPart1: LangTable :=
    LangTable("🔰 Скачивание приложения", "🔰 Завантаження застосунку", "🔰 Downloading the application")

  /** The registration step; each language is represented by its first line. */
  const InstructionPart2: LangTable := LangTable("📰 Регистрация", "📰 Реєстрація", "📰 Registration")

  /** How the first instruction is kept in the conversation log. */
  function PhotoInstructionRecord(part1: string): string
  {
    "[Фото с инструкцией]\n" + part1
  }

  /** Instructions go out in the stored language, Russian when the user or
    * the language is missing or the language has no table entry. */
  lemma InstructionsLanguage(user: Option<Tables.User>)
    ensures user.None? ==> Pick(InstructionPart1, InstructionLanguage(user)) == InstructionPart1.ru
    ensures user.Some? && user.value.language.Some? && user.value.language.value == "uk" ==>
      Pick(InstructionPart2, InstructionLanguage(user)) == InstructionPart2.uk
    ensures InstructionLanguage(user) !in ["uk", "en"] ==>
      Pick(InstructionPart1, InstructionLanguage(user)) == InstructionPart1.ru &&
      Pick(InstructionPart2, InstructionLanguage(user)) == InstructionPart2.ru
  {
  }
}
