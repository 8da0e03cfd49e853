# HR assistant bot for Telegram — a verified model

The bot talks to candidates for a job in a streaming app. It collects their
photos and screening answers and hands the application to one operator, who
approves or rejects it. It then walks approved candidates through the
registration and registers them once they send the ID of their new account.
Questions along the way get an answer from a resolver. The resolver is a
strict cascade:

1. the table-driven direct answers (dislike-ratio calculator, knowledge
   blocks, agency, video, country, reactions, greetings, details, waiting);
2. follow-up answers built from the bot's own latest messages;
3. up to three calls of a text-generation backend, with a forbidden-topic
   filter in front.

A reply the resolver cannot stand behind goes to the operator. The operator's
answer is logged, the user resumes, and the operator can maintain the
forbidden topics, read conversations and look at statistics. A background
sweep hides users who have gone quiet.

The model has three layers:

- **Pure decision logic.** Modules `LanguageDetector`, `Reviews`, `Ratio`,
  `Knowledge`, `Materials`, `DirectMatch`, `Contextual`, `Generation`,
  `Flow`, `Keyboards`, `Translator` and `AutoHide`. These are datatypes and
  functions, with methods wherever the code runs a loop.
- **The store.** Module `Tables` has one pure function per SQL statement over
  the content `Db` of all tables. Class `Store.Database` holds one field per
  table and has one method per statement. Each method promises that its new
  snapshot is the statement's function applied to the old one.
- **The handlers.** Module `Onboarding` gives each handler as a transition
  from the world before the event to the world after it. The world holds the
  store, the conversation state of every user, the operator's own state and
  the messages sent so far. Class `Bot.Bot` performs each transition in
  place on a `Store.Database` and its own fields, and is proved to equal the
  transition.

What the network answers comes in as parameters:

- whether the user is in the group;
- whether a message was delivered;
- the ID read from a screenshot;
- each backend call's result (`nat -> Backend`);
- what `json.loads` makes of a text.

Three points of the code's order and scope that the model follows:

- The resolver answers in the language detected from the current question
  (utils/ai_handler.py:1137-1139). The user's stored language is not used for
  that. It is used only to choose the registration instructions, which fall
  back to Russian (handlers/approval.py:34, 50, 110).
- The forbidden-topic filter runs inside each generation attempt
  (utils/ai_handler.py:1211). That is after the direct and follow-up tiers
  (1139-1149), not before them.
- The "5 dislikes and 10 likes" example is a property of the calculator
  (`Ratio.FiveDislikesTenLikes`). The full cascade answers with a ratio only
  when the message also holds a calculation phrase (utils/ai_handler.py:384-406,
  758).

Some behaviour of the code is surprising, and the model states it as lemmas:

- Keywords match inside words.
- Russian words with ь, ю or я can read as Ukrainian.
- A keyword list ending in a comma stores an empty keyword, and that keyword
  blocks every message.
- Each start-up seeds the configured forbidden topics again.
- A registered user whose question was escalated resumes as chatting.
- A second decision on an application still overwrites the user's status.

## Model

| member | source | states |
|---|---|---|
| Lang.Pick | utils/ai_handler.py:1151 | a localised table read at a language code gives one of its three entries |
| Lang.PickFallsBackToRu | utils/ai_handler.py:1214 | any code other than 'uk' and 'en' reads the Russian entry, as `.get(lang, table['ru'])` does |
| Config.PhotoBounds | config.py:12-13 | the photo bounds are consistent: 0 < PHOTOS_MIN <= PHOTOS_MAX |
| Config.ForbiddenTopicsWellFormed | config.py:35-40 | four configured topics, each with a non-empty list of non-empty keywords |
| Config.UniversalResponseFilled | config.py:42-46 | the universal response has a non-empty text in each language |
| LanguageDetector.Classify | utils/language_detector.py:7-31 | the result is a language code; a Ukrainian signal (more than two Ukrainian letters or a Ukrainian keyword) gives 'uk'; otherwise more English than Russian keywords gives 'en'; otherwise any Russian keyword gives 'ru' |
| LanguageDetector.DetectLanguage | utils/language_detector.py:1-31 | always one of 'ru', 'uk', 'en'; the empty text is 'ru' |
| LanguageDetector.DetectIgnoresCase | utils/language_detector.py:5 | a text and its lower-cased form get the same language |
| LanguageDetector.FallbackByLetters | utils/language_detector.py:23-31 | without keywords the letters decide: 'en' iff Latin letters outnumber Cyrillic ones, 'uk' iff not and some Ukrainian letter occurs |
| LanguageDetector.RussianReadAsUkrainian | utils/language_detector.py:7 | the Russian "пью чаю" is read as Ukrainian, because ь, ю and я count as Ukrainian letters |
| LanguageDetector.KeywordInsideWord | utils/language_detector.py:12 | keywords match inside words: "this" contains "hi" and reads as English |
| Reviews.ReviewIgnoresCase | handlers/reviews.py:33-35 | a review request is recognised whatever the case of the message |
| Reviews.EmptyIsNotReviewRequest | handlers/reviews.py:25-31 | no keyword is empty, so an empty message is never a review request |
| Reviews.ReviewMonotone | handlers/reviews.py:33-35 | a message containing a review request is itself one (substring matching) |
| Ratio.SecondBranchRedundant | utils/ai_handler.py:384-406 | the request test holds iff a calculation phrase, a like/dislike word and two numbers occur; its second branch never adds a case |
| Ratio.FirstPosition | utils/ai_handler.py:418-427 | the position is the smallest `find` among the patterns that occur, and 999 when none does |
| Ratio.FirstPositionBefore | utils/ai_handler.py:429 | for texts shorter than 999 characters, comparing positions asks whether some dislike pattern occurs before every like pattern that occurs |
| Ratio.DislikeRatio | utils/ai_handler.py:408-435 | no result iff fewer than two numbers or a zero total; the counts are the first two numbers in some order; the verdict is good iff dislikes are below 18% of the total |
| Ratio.DislikesFirstRule | utils/ai_handler.py:418-427 | the first number is the dislike count exactly when "дизлайк" or "dislike" occurs before every like keyword ("like" inside "dislike" included) |
| Ratio.CalculateDislikeRatio | utils/ai_handler.py:408-461 | a reply exists iff the calculation succeeds, and it is non-empty |
| Ratio.RatioReplyFallsBackToRu | utils/ai_handler.py:437-461 | an unknown language gets the Russian template |
| Ratio.FiveDislikesTenLikes | utils/ai_handler.py:408-435 | "5 dislikes and 10 likes" reads 5 dislikes and 10 likes and is flagged as too many dislikes |
| Ratio.ThreeDislikesTwentyLikes | utils/ai_handler.py:408-435 | "3 dislikes and 20 likes" reads 3 and 20 and is good |
| Ratio.ExtractNumbers | utils/ai_handler.py:379-382 | no numbers come back exactly when the text has no digit |
| Text.DigitRunsNone | utils/ai_handler.py:379-382 | a text without digits yields no numbers |
| Text.DigitRunsOfRun | utils/ai_handler.py:379-382 | a run of digits is read as the one number it spells |
| Text.DigitRunsSeparated | utils/ai_handler.py:379-382 | a non-digit splits the numbers into those before it followed by those after it; with the two rows above, one number per maximal digit run, left to right |
| Ratio.ExampleReading | utils/ai_handler.py:379-382 | in "a dislikes and b likes" the numbers are read as a dislikes and b likes |
| Knowledge.KnowledgeFor | utils/ai_handler.py:466 | the material table of 'uk' and 'en' is their own, every other code reads the Russian one |
| Knowledge.Lookup | utils/ai_handler.py:23-298 | the block returned is stored under the key |
| Knowledge.PriorityMatch | utils/ai_handler.py:473-493 | the first priority category with a keyword in the question and a block in the table; none iff no category qualifies |
| Knowledge.ValuesWhere | utils/ai_handler.py:495-508 | the blocks whose key contains the category name or the matched keyword, and only those |
| Knowledge.GeneralMatches | utils/ai_handler.py:495-508 | a block is collected iff some category contributes it |
| Knowledge.PriorityScan | utils/ai_handler.py:473-493 | the priority loop returns exactly the block of the first qualifying category, or nothing |
| Knowledge.CollectBlocks | utils/ai_handler.py:500-506 | the inner loop over the table collects the blocks `ValuesWhere` names, in table order |
| Knowledge.GeneralScan | utils/ai_handler.py:495-508 | the general loop returns `GeneralMatches` |
| Knowledge.FindRelevantKnowledge | utils/ai_handler.py:463-508 | the method returns what the lookup specifies: calculation, else priority block, else general blocks |
| Knowledge.PriorityBlocksPresent | utils/ai_handler.py:23-298 | every language's table holds a block for each priority category |
| Knowledge.CalculationAnswersAlone | utils/ai_handler.py:468-471 | a successful dislike calculation is the whole answer |
| Knowledge.PriorityGivesOneBlock | utils/ai_handler.py:473-493 | a question with a priority keyword gets exactly one block, that of the first matching category |
| Knowledge.GeneralProvenance | utils/ai_handler.py:495-508 | otherwise a block is returned iff some category has a keyword in the question and the block's key contains that keyword or the category name |
| Knowledge.NoKeywordNoKnowledge | utils/ai_handler.py:463-508 | without a calculation, a question holding no keyword gets no knowledge |
| Knowledge.KnowledgeFallsBackToRu | utils/ai_handler.py:466 | an unknown language reads the Russian material |
| Knowledge.RelevantNonEmpty | utils/ai_handler.py:23-298 | every returned block is a non-empty text |
| Knowledge.EmptyQuestionNoKnowledge | utils/ai_handler.py:463-508 | the empty question gets no knowledge |
| Materials.Content | utils/ai_handler.py:518-520 | a material's content is empty iff both its text and its transcription are |
| Materials.WordPoints | utils/ai_handler.py:524-527 | a question word scores iff it is longer than three characters and occurs in the content |
| Materials.ScoredList | utils/ai_handler.py:515-537 | the kept entries are materials of the input with non-empty content and a positive score, carrying their score |
| Materials.Insert | utils/ai_handler.py:539 | one insertion step of the ranking adds exactly the entry |
| Materials.SortByScoreSorted | utils/ai_handler.py:539 | the ranking is in non-increasing score order |
| Materials.SortByScorePermutation | utils/ai_handler.py:539 | the ranking is a permutation of the scored list |
| Materials.SortByScoreStable | utils/ai_handler.py:539 | the ranking is stable: entries of equal score keep their input order |
| Materials.Top | utils/ai_handler.py:541 | the first `max_results` entries as (material, content) pairs |
| Materials.ScoreContent | utils/ai_handler.py:522-534 | the score loops compute the score: word points plus ten per shared keyword |
| Materials.FindRelevantMaterials | utils/ai_handler.py:510-541 | the method returns the specified top materials |
| Materials.ScorePositive | utils/ai_handler.py:522-534 | a content scores iff a question word of more than three letters occurs in it or it shares a keyword with the question |
| Materials.TopResultsSound | utils/ai_handler.py:510-541 | at most `max_results` materials come back, each from the input, with its non-empty content and a positive score |
| Materials.TopResultsOrdered | utils/ai_handler.py:539-541 | results come best first |
| Materials.TopResultsComplete | utils/ai_handler.py:539-541 | a scoring material is left out only when the list is full of materials scoring at least as much |
| Materials.RankingIsStable | utils/ai_handler.py:539 | materials of equal score come back in the order they were given |
| DirectMatch.CountryAnswer | utils/ai_handler.py:807-815 | the country reply has a text in each language |
| DirectMatch.FirstCountry | utils/ai_handler.py:543-548 | the first listed country the lowered text contains, and none iff no country occurs |
| DirectMatch.FirstKey | utils/ai_handler.py:979-1024 | the first table entry whose key matches, and none iff no key matches |
| DirectMatch.DirectCalculation | utils/ai_handler.py:758-761 | the calculation tier answers iff the message is a calculation request and the ratio is computable, with a non-empty text |
| DirectMatch.CheckFaqDirectMatch | utils/ai_handler.py:752-1049 | a direct answer exists iff some tier of the cascade answers |
| DirectMatch.StandardWordsAreKeywords | utils/ai_handler.py:767-792 | in the bot's tables every short-question agency word is an agency keyword |
| DirectMatch.StandardAnswersFilled | utils/ai_handler.py:767-1047 | every answer of the bot's tables is non-empty in each language |
| DirectMatch.AgencyWordsRedundant | utils/ai_handler.py:767-792 | when agency words are keywords, the agency test reduces to its keyword test |
| DirectMatch.AgencySecondTestRedundant | utils/ai_handler.py:767-792 | for the bot's tables the short-question agency test never adds a case |
| DirectMatch.Rank | utils/ai_handler.py:752-1049 | each tier has a position in the fixed order of the cascade |
| DirectMatch.ReactionForIff | utils/ai_handler.py:979-1004 | a reaction is found iff some key is the whole message |
| DirectMatch.GreetingForIff | utils/ai_handler.py:1006-1024 | a greeting is found iff some key occurs in the message or contains it |
| DirectMatch.StepApplies | utils/ai_handler.py:752-1049 | each tier answers exactly when its own condition holds |
| DirectMatch.FirstHitIsFirst | utils/ai_handler.py:752-1049 | the hit comes from the earliest answering tier, and there is none iff no tier answers |
| DirectMatch.CascadeFirstApplicable | utils/ai_handler.py:752-1049 | the cascade answers with the first applicable tier, and with nothing iff none applies |
| DirectMatch.CascadeNothingApplies | utils/ai_handler.py:1049 | no answer means no tier applies |
| DirectMatch.CascadeHitIsFirst | utils/ai_handler.py:752-1047 | an answer comes from an applicable tier with no applicable tier before it |
| DirectMatch.FirstApplicableStep | utils/ai_handler.py:752-1049 | for a raw question: the direct match answers with the first tier that fires, and with nothing iff none fires |
| DirectMatch.DirectAnswerNonEmpty | utils/ai_handler.py:752-1047 | with filled tables every direct answer is non-empty |
| DirectMatch.DirectHitNonEmpty | utils/ai_handler.py:752-1047 | with the bot's tables every direct answer is non-empty |
| DirectMatch.LongQuestionNoBlock | utils/ai_handler.py:763-765 | a question of more than fifteen words is never answered by a knowledge block |
| DirectMatch.ReactionIsWholeMessage | utils/ai_handler.py:979-1004 | a reaction answers only a message that is exactly its key (case and outer blanks dropped), in the question's language |
| DirectMatch.EmptyCascade | utils/ai_handler.py:1006-1024 | with non-empty keys the empty message passes every tier before the greetings and gets the first greeting |
| Contextual.BotNewestFirst | utils/ai_handler.py:1075-1079 | the bot's messages, lowered, newest first, no more than the log holds |
| Contextual.Cap | utils/ai_handler.py:1077 | at most the first n entries, as a prefix |
| Contextual.MarkerReply | utils/ai_handler.py:1083-1129 | a bot message calls for a reply iff it holds a photo-request marker, a "photos only for the office" marker or an instruction marker |
| Contextual.FirstMarkerReply | utils/ai_handler.py:1083-1129 | the reply of the first message, in order, that calls for one; none iff none does |
| Contextual.CollectRecentBotMessages | utils/ai_handler.py:1073-1079 | the collecting loop yields the three latest bot messages, newest first |
| Contextual.ScanForMarker | utils/ai_handler.py:1083-1129 | the answering loop yields the first marker reply |
| Contextual.IsContextualQuestion | utils/ai_handler.py:1051-1129 | the method computes the follow-up rule |
| Contextual.NeedsPhraseAndHistory | utils/ai_handler.py:1057-1071 | a follow-up reply needs a what-next phrase and at least two logged messages |
| Contextual.RecentAreBotMessages | utils/ai_handler.py:1075-1079 | what is read is the lowered content of bot messages of the log |
| Contextual.BotNewestFirstAppend | utils/ai_handler.py:1075 | a message logged last comes first when it is the bot's |
| Contextual.UserMessagesIgnored | utils/ai_handler.py:1076 | a user message logged last changes no follow-up reply |
| Contextual.OlderMessagesIgnored | utils/ai_handler.py:1073-1079 | nothing logged before the three latest bot messages is read |
| Contextual.LatestPhotoRequestWins | utils/ai_handler.py:1083-1095 | a photo request in the latest bot message gets the send-photos reply, whatever came before |
| Contextual.MarkerReplyFilled | utils/ai_handler.py:1083-1129 | every follow-up reply has a text in each language |
| Contextual.ContextualFilled | utils/ai_handler.py:1150-1151 | a follow-up answer is never empty, whatever the language |
| Generation.ShortTextIsError | utils/ai_handler.py:566-567 | a text of fewer than three characters is an error text |
| Generation.MissingModelIsError | utils/ai_handler.py:558-559 | a text mentioning "model" and "exist" in any case is an error text |
| Generation.Unfence | utils/ai_handler.py:1256-1259 | an unfenced text is kept, and stripping never lengthens it |
| Generation.CleanIsWithout | utils/ai_handler.py:1261 | the four replacements remove exactly the characters `*` and `_` |
| Generation.CleanHasNoMarks | utils/ai_handler.py:1261 | cleaned text holds no `*` or `_` and is no longer |
| Generation.Truncate | utils/ai_handler.py:1268-1269 | an answer over 4000 characters becomes its first 3800 plus the continuation marker; shorter ones are kept |
| Generation.TruncateBounds | utils/ai_handler.py:1268-1269 | a truncated answer fits 4000 characters and keeps the original's beginning |
| Generation.TruncateKeepsNoMarks | utils/ai_handler.py:1303-1306 | truncation adds no `*` or `_` |
| Generation.CheckForbiddenTopics | utils/ai_handler.py:570-579 | the loops report a hit iff some stored keyword, lowered, occurs in the lowered message |
| Generation.EmptyKeywordBlocksAll | utils/ai_handler.py:576-578 | an empty stored keyword blocks every message |
| Generation.ForbiddenIgnoresCase | utils/ai_handler.py:571 | the filter ignores the case of the message |
| Generation.ForbiddenMonotone | utils/ai_handler.py:577 | a message containing a blocked message is blocked |
| Generation.GetAiResponse | utils/ai_handler.py:1205-1316 | one resolver call: the forbidden reply, an exception passed on, the hand-off for a reply without choices, or the normalised text, which may itself be a failed attempt when the decoded confidence is not a number |
| Generation.NormaliseCompletion | utils/ai_handler.py:1245-1310 | the completion handling equals the normalisation, a reply or a failed attempt |
| Generation.StripFence | utils/ai_handler.py:1256-1259 | the fence stripping in place equals `Unfence` |
| Generation.ReadParsed | utils/ai_handler.py:1263-1286 | non-JSON and non-dictionary results keep the text; a dictionary is read field by field |
| Generation.ReadDictionary | utils/ai_handler.py:1288-1306 | the defaults, the error check, the cut and the clean-up of a decoded dictionary, and the failed attempt when a confidence that is not a number gets compared |
| Generation.ErrorTextEscalates | utils/ai_handler.py:1248-1254 | a backend error text is handed to the operator with the empty reply |
| Generation.PlainTextReply | utils/ai_handler.py:1265-1275 | non-JSON text comes back cleaned and cut, confidence 75, no hand-off, within 4000 characters and without `*` or `_` |
| Generation.DictionaryDefaults | utils/ai_handler.py:1288-1293 | a dictionary without fields gets the text as answer and confidence 70, so no hand-off |
| Generation.DictionaryAnswer | utils/ai_handler.py:1288-1306 | a dictionary gives the hand-off, a failed attempt only for a confidence that is not a number, or a reply that fits the limit without marks, keeps its confidence (70 by default) and hands off as told or when below 70 |
| Generation.FromDictionaryCases | utils/ai_handler.py:1288-1306 | the three ways a dictionary ends, with the answer cut and cleaned, the confidence and the hand-off flag of a reply |
| Generation.NonNumericConfidence | utils/ai_handler.py:1288-1306 | a confidence that is not a number fails the attempt without a hand-off flag (the default test), and with the flag false unless the answer is an error text (the retry loop's `> 0` test); with the flag true the reply hands off |
| Generation.FirstAcceptedIsFirst | utils/ai_handler.py:1159-1203 | the retry result is the first kept attempt's reply after discarding every earlier one, and the hand-off when none is kept |
| Generation.Attempts | utils/ai_handler.py:1159-1162 | one outcome per attempt |
| Generation.AttemptAt | utils/ai_handler.py:1162 | attempt k is one resolver call on the backend's k-th result |
| Generation.TryAttempt | utils/ai_handler.py:1162 | the method makes attempt k |
| Generation.PausesAfter | utils/ai_handler.py:1174-1190 | the pause after an attempt is 3 seconds after an exception and 2 after a reply that is not kept |
| Generation.AttemptStep | utils/ai_handler.py:1160-1196 | one loop turn stops on a kept reply or after the last attempt, and otherwise pauses |
| Generation.RetryLoop | utils/ai_handler.py:1159-1203 | the loop returns the first kept reply (else the hand-off) after at most `max_retries` calls, pausing after each but the last |
| Generation.GetAiResponseWithRetry | utils/ai_handler.py:1131-1203 | the resolver: a direct answer, else a follow-up answer, else the attempt loop; never more than `max_retries` calls |
| Generation.ResolveShape | utils/ai_handler.py:1140-1203 | every resolver reply is a hand-off or a confident non-empty answer |
| Generation.AllAttemptsFail | utils/ai_handler.py:1198-1203 | with no kept attempt the result is the empty hand-off |
| Generation.ResponseShape | utils/ai_handler.py:1131-1203 | the whole resolver returns a hand-off or a confident non-empty answer |
| Generation.ForbiddenAnsweredOnFirstAttempt | utils/ai_handler.py:1211-1217 | a forbidden question gets the universal response with confidence 100 on the first attempt |
| Generation.FaqCategory | utils/ai_handler.py:595-603 | the FAQ category is one of new, registration, working |
| Generation.FaqCategoryCases | utils/ai_handler.py:595-603 | registration statuses read the registration FAQ, working ones the working FAQ, every other status the FAQ for newcomers |
| Flow.StatusOfInjective | states.py:3-13 | distinct conversation states have distinct status names |
| Flow.StateForStatusRestores | handlers/user.py:86-96 | a returning user gets the state named by the status exactly for the eight listed statuses, chatting otherwise |
| Flow.StartDecision | handlers/user.py:57-97 | a rejected user is ignored, and only they are; a new user is registered or chatting by the membership answer |
| Flow.StartStates | handlers/user.py:65-97 | new users start registered in the group, chatting otherwise; returning group members not registered or approved become registered; an approved user comes back chatting |
| Flow.SinglePhoto | handlers/user.py:112-115 | a photo is refused iff PHOTOS_MAX are stored, otherwise the count rises by one and stays within PHOTOS_MAX |
| Flow.Album | handlers/user.py:136-145 | an album is saved whole iff it fits under PHOTOS_MAX; too large, the number still allowed is reported |
| Flow.PhotosStillNeeded | handlers/user.py:153-158 | nothing is missing iff PHOTOS_MIN are stored; otherwise the count plus the missing number is PHOTOS_MIN |
| Flow.PhotoCap | handlers/user.py:112-173 | the photo handlers never pass PHOTOS_MAX, and a save moves to the questions iff the new count reaches PHOTOS_MIN |
| Flow.GateAgreesWithResolver | handlers/user.py:468 | the fallback reply escalates; direct, follow-up, forbidden and plain-text answers never do; a generated answer escalates iff below 70 |
| Flow.ScreenshotRegisters | handlers/screenshot.py:44-75 | registration follows iff an ID was recognised or the stripped caption is one, and the recognised ID wins |
| Flow.AcceptsIdShape | handlers/screenshot.py:94-100 | an accepted ID is six to fifteen digits |
| Flow.ResumeStatus | handlers/admin.py:230-235 | a user resumes as registered or chatting |
| Flow.ResumeRule | handlers/admin.py:230-235 | registered exactly from registered or waiting_screenshot; a user waiting for the operator resumes as chatting |
| Flow.ParseKeywords | handlers/admin.py:322 | one stripped keyword per comma-separated piece |
| Flow.KeywordPieces | handlers/admin.py:322 | a text without a comma is one keyword; a text ending in a comma ends with an empty keyword |
| Flow.TrailingCommaBlocksEverything | handlers/admin.py:322-325 | a topic stored from a text ending in a comma blocks every message |
| Flow.RoundHalfEven | handlers/admin.py:60 | Python's `round` of a quotient is within one unit of it |
| Flow.EfficiencyBounds | handlers/admin.py:58-60 | the efficiency is at most 100, 0 without automatic answers, 100 when every answer was automatic |
| Flow.InstructionLanguage | handlers/approval.py:33-34 | a missing user reads Russian |
| Flow.InstructionsLanguage | handlers/approval.py:34-110 | instructions go out in the stored language, Russian when the user or language is missing or unknown |
| Keyboards.ParseId | handlers/approval.py:20 | accepts exactly the runs of ASCII digits, with their value; that covers every id the keyboards write |
| Keyboards.CallbackId | handlers/admin.py:339 | an id decoded from callback data comes from an existing all-digit piece |
| Keyboards.ReviewKeyboard | keyboards/admin.py:4-10 | one row, approve then reject, both decoding to the user |
| Keyboards.AnswerKeyboard | keyboards/admin.py:12-17 | one button decoding to the user |
| Keyboards.StatusEmojiDefault | keyboards/admin.py:55-63 | the question mark is shown exactly for statuses outside the seven listed |
| Keyboards.UsersListKeyboard | keyboards/admin.py:52-71 | one row per user among the first twenty |
| Keyboards.UsersListDecodes | handlers/admin.py:250 | each row of the users list decodes to the id of the user it shows |
| Keyboards.TopicsKeyboard | keyboards/admin.py:38-50 | one delete row per topic, then the add row |
| Keyboards.TopicsKeyboardDecodes | handlers/admin.py:339 | each delete row decodes to its topic's id |
| Keyboards.OneFieldRoundTrip | handlers/approval.py:125 | data "a_id" gives id back from piece 1 |
| Keyboards.TwoFieldRoundTrip | handlers/admin.py:250 | data "a_b_id" gives id back from piece 2 |
| Keyboards.ReviewRoundTrip | handlers/admin.py:191 | every callback the keyboards build decodes back to the id it carries |
| Translator.LangName | utils/translator.py:23-28 | the target is named Ukrainian iff it is 'uk', English otherwise |
| Translator.Prompt | utils/translator.py:30-36 | the prompt opens with the instruction naming the target language |
| Translator.Unwrap | utils/translator.py:58-61 | a reply is stripped; a fenced reply gives the stripped text after the fence |
| Translator.UnwrapFenced | utils/translator.py:60-61 | a fenced reply gives back exactly the fenced text |
| Translator.FirstAnswer | utils/translator.py:38-64 | the first answered attempt, and none iff no attempt answered |
| Translator.Attempts | utils/translator.py:38-49 | one reply per attempt, each for the same prompt |
| Translator.Pauses | utils/translator.py:52-53 | the pause after attempt k is 2(k+1) seconds |
| Translator.AttemptLoop | utils/translator.py:38-81 | the loop returns the unwrapped first answered reply after that many calls, or nothing after all calls, pausing after each failed call but the last |
| Translator.TranslateWithRetry | utils/translator.py:19-81 | the loop returns the specified translation, makes the specified number of calls and pauses after each failed one but the last |
| Translator.ShortTextUnchanged | utils/translator.py:20-21 | a text under three non-blank characters comes back unchanged, without a call |
| Translator.TranslateMissing | utils/translator.py:38-81 | the translation is missing iff every attempt failed, and then all attempts were made |
| Translator.TranslateUsesFirstAnswer | utils/translator.py:58-64 | otherwise the first answered reply, unwrapped, after that many calls |
| Translator.TranslateAll | utils/translator.py:83-97 | the Russian version is the text itself; the others are its translations |
| Translator.ShortTextEverywhere | utils/translator.py:83-97 | a short text is the same in all three languages |
| AutoHide.Sweep | utils/auto_hide.py:27-33 | one UPDATE keeps the number of rows |
| AutoHide.CountEligible | utils/auto_hide.py:34 | the row count of one UPDATE is at most the number of users |
| AutoHide.StatusGroupsDisjoint | utils/auto_hide.py:13-14 | the two status groups share no status |
| AutoHide.AutoHideIsRule | utils/auto_hide.py:25-46 | the two UPDATEs apply the hide rule to every user independently |
| AutoHide.SweepOnlyHides | utils/auto_hide.py:28-31 | a sweep changes only `hidden_at`, never unhides or moves a mark, and leaves rejected users alone |
| AutoHide.HideRuleTimeouts | utils/auto_hide.py:9-10 | a registering user is hidden iff idle over an hour, a registered one iff idle over eight hours |
| AutoHide.AutoHideIdempotent | utils/auto_hide.py:16-46 | a second sweep at the same time hides nobody else |
| AutoHide.SweepPass | utils/auto_hide.py:27-34 | the UPDATE over the rows returns the new rows and the row count |
| AutoHide.AutoHideInactiveUsers | utils/auto_hide.py:19-46 | one run on the store: only the users change, by the two UPDATEs, and the two row counts are returned |
| Tables.FindUser | database/users.py:5-9 | the row found has the id; none iff no row has it |
| Tables.CreateUser | database/users.py:11-17 | fails iff the id is taken; otherwise the user has the column defaults: status new, no photos, not in the group |
| Tables.UpdateUser | database/users.py:19-25 | the update applies to the rows with the id and to no other |
| Tables.UpdateUserStatusEffect | database/users.py:19-25 | only that user's status and last activity change; an unknown id changes nothing |
| Tables.AddUserToGroupsEffect | database/users.py:39-45 | only that user's group flag is set |
| Tables.GroupFlagSticks | database/users.py:33-45 | joining sets the flag of an existing user, and no user operation clears it |
| Tables.CountWhere | database/users.py:52-68 | a `COUNT(*) ... WHERE column = value` never exceeds the number of rows |
| Tables.CountWhereAppend | database/users.py:52-68 | a row added at the end raises the count by one iff it has the value |
| Tables.StatusCountsBounded | database/users.py:47-62 | the four status counts together never exceed the total |
| Tables.SourcesPartitionLog | database/users.py:64-68 | when every record is automatic or the operator's, the two counts add up to the log |
| Tables.SortDescCorrect | database/users.py:30 | the sort is by descending key and a permutation |
| Tables.GetAllUsersList | database/users.py:27-31 | every user, most recently active first |
| Tables.MessagesOf | database/messages.py:22-29 | only the user's own messages, no more than were saved |
| Tables.GetMessages | database/messages.py:12-20 | the newest `limit` messages of the user, oldest first |
| Tables.SaveMessageConversation | database/messages.py:4-9 | a saved message ends the user's conversation and leaves others as they were |
| Tables.NewestMessageInWindow | database/messages.py:12-20 | after a save, the message window ends with the saved message |
| Tables.PendingQuestionTable | database/messages.py:31-47 | one question per user: saving replaces it, deleting removes it, other users' entries stay |
| Tables.PhotosOf | database/photos.py:16-23 | no more photos than stored rows |
| Tables.SavePhotoEffect | database/photos.py:4-14 | a photo is appended to the user's photos and the counter rises by exactly one |
| Tables.NoPhotosOfStranger | database/photos.py:16-23 | a user without a row has no photos when every photo has an owner |
| Tables.EmptyCountsMatch | database/core.py:7-36 | the photo counters match the photos in the fresh tables |
| Tables.CreateUserKeepsCounts | database/users.py:11-17 | creating a user keeps every photo counter equal to the user's photo rows |
| Tables.UpdateStatusKeepsCounts | database/users.py:19-25 | a status change keeps the photo counters exact |
| Tables.SavePhotoKeepsCounts | database/photos.py:4-14 | saving a photo of an existing user keeps the photo counters exact |
| Tables.UpdateApplicationStatus | database/applications.py:12-17 | a decision keeps the number of applications |
| Tables.DecisionEffect | database/applications.py:14-16 | exactly the user's pending applications get the status, all of them |
| Tables.DecisionIsFinal | database/applications.py:14-16 | once decided, a second decision leaves the applications as they are |
| Tables.NewApplicationPending | database/applications.py:4-10 | a new application is appended as pending |
| Tables.GetAiLearning | database/ai_learning.py:12-16 | every record, highest confidence first |
| Tables.LearningAppendOnly | database/ai_learning.py:4-10 | the log only grows by the saved record, and only its source's count rises |
| Tables.WithoutTopic | database/forbidden.py:19-22 | deletion keeps exactly the rows with another id |
| Tables.AddTopics | database/forbidden.py:24-30 | seeding appends one row per configured topic and changes no other table |
| Tables.TopicKeywords | utils/ai_handler.py:572-575 | the filter reads the keyword list of every stored topic |
| Tables.InitTwiceDuplicates | database/forbidden.py:24-30 | seeding twice stores the configured topics twice (no unique column) |
| Tables.TopicTableOps | database/forbidden.py:11-22 | adding keeps topic ids distinct and increasing; deleting removes exactly the rows with that id |
| Tables.FindGroupMessage | database/group_messages.py:4-10 | the record found has the message id; none iff no record has it |
| Tables.Unprocessed | database/group_messages.py:12-16 | exactly the records not yet processed |
| Tables.GroupMessageTable | database/group_messages.py:4-21 | the first capture of a message id wins, a new record is unprocessed, marking is idempotent |
| Tables.MarkedNotUnprocessed | database/group_messages.py:18-21 | a marked message is no longer listed as unprocessed |
| Tables.ClearEmpties | database/group_messages.py:29-31 | clearing empties the table |
| Store.Database.constructor | database/core.py:4-134 | the store starts with the empty tables |
| Store.Database.CreateUser | database/users.py:11-17 | reports whether the INSERT succeeded; the new snapshot is the statement's |
| Store.Database.UpdateUserStatus | database/users.py:19-25 | the new snapshot is the status update |
| Store.Database.AddUserToGroups | database/users.py:39-45 | the new snapshot is the group flag update |
| Store.Database.SaveMessage | database/messages.py:4-9 | the new snapshot is the message insert |
| Store.Database.SavePendingQuestion | database/messages.py:31-37 | the new snapshot is the INSERT OR REPLACE |
| Store.Database.DeletePendingQuestion | database/messages.py:45-47 | the new snapshot is the delete |
| Store.Database.SavePhoto | database/photos.py:4-14 | the new snapshot is the photo insert plus the counter update |
| Store.Database.CreateApplication | database/applications.py:4-10 | the new snapshot is the application insert |
| Store.Database.UpdateApplicationStatus | database/applications.py:12-17 | the loop over the rows yields the decision's snapshot |
| Store.Database.SaveAiLearning | database/ai_learning.py:4-10 | the new snapshot is the log insert |
| Store.Database.AddForbiddenTopic | database/forbidden.py:11-17 | the new snapshot is the topic insert |
| Store.Database.DeleteForbiddenTopic | database/forbidden.py:19-22 | the new snapshot is the topic delete |
| Store.Database.InitForbiddenTopics | database/forbidden.py:24-30 | the seeding loop yields the seeded snapshot |
| Store.Database.SaveGroupMessage | database/group_messages.py:4-10 | the new snapshot is the INSERT OR IGNORE |
| Store.Database.MarkMessageProcessed | database/group_messages.py:18-21 | the new snapshot is the mark |
| Store.Database.ClearGroupMessages | database/group_messages.py:29-31 | the new snapshot is the cleared table |
| Onboarding.History | utils/ai_handler.py:1148 | the resolver reads the user's last ten messages as (role, content) |
| Onboarding.StartNewUser | handlers/user.py:65-78 | a first /start creates the user with no photos, registered and in state registered when in the group, chatting otherwise |
| Onboarding.StartRejected | handlers/user.py:59-63 | /start from a rejected user changes nothing but the group flag |
| Onboarding.SavePhotosEffect | handlers/user.py:144-145 | saving an album's photos appends them in order and raises the counter by their number |
| Onboarding.AfterPhotosKeeps | handlers/user.py:150-159 | moving on keeps photos and counter, and enters the questions iff PHOTOS_MIN are stored |
| Onboarding.PhotoEffect | handlers/user.py:100-173 | a photo is refused once PHOTOS_MAX are stored; else it is stored, the counter rises by one, and the questions start iff the counter reaches PHOTOS_MIN |
| Onboarding.AlbumAllOrNothing | handlers/user.py:132-159 | an album is stored whole or not at all; an album that fits adds its photos and raises the counter by its size, and the questions start iff the counter then reaches PHOTOS_MIN |
| Onboarding.ScreeningEffect | handlers/user.py:177-241 | the two answers become one pending application and the user waits for review |
| Onboarding.DecisionKeyboardNamesUser | handlers/user.py:234-239 | the decision keyboard sent with an application decodes to its user |
| Onboarding.PreparedKeeps | handlers/user.py:367-372 | preparing saves the question and keeps the user's status, the kept question and the log |
| Onboarding.ReviewRequestNotSaved | handlers/user.py:444-446 | a review request is answered with reviews and neither saved nor resolved |
| Onboarding.QuestionSavedFirst | handlers/user.py:449-459 | the question is saved before the resolver runs, so the history it reads ends with it |
| Onboarding.HandOffEffect | handlers/user.py:468-488 | the hand-off keeps the question, logs nothing, moves a user outside registration help to waiting_admin, and sends the operator the question with an answer button, then tells the user it was passed on |
| Onboarding.QuestionEscalated | handlers/user.py:468-488 | on escalation the question is kept for the operator and nothing is logged; chatting and registered users wait for the operator, a user in registration keeps status and state; the operator gets the question with an answer button for the user, then the user is told it was passed on |
| Onboarding.QuestionAnswered | handlers/user.py:490-495 | otherwise the answer is sent to the user, saved as the bot's and logged as automatic; status and state stay |
| Onboarding.WaitingAdminKeepsQuestion | handlers/user.py:318-348 | a follow-up while waiting adds the acknowledgement to the user and the follow-up with an answer button for the operator to the outbox, in that order; the kept question, the log, the users and the states stay |
| Onboarding.ScreenshotEffect | handlers/screenshot.py:19-80 | a screenshot registers the user iff an ID was recognised or the caption is one, and the operator gets it with that ID (the recognised one first); otherwise the store and the states stay, and the operator gets the screenshot without an ID while the user is asked to type it, or on a failure the user gets the error reply |
| Onboarding.RedirectThenUnrecognised | handlers/user.py:414-429 | a photo from a registered or registering user without a readable ID leaves them waiting_screenshot |
| Onboarding.TypedIdEffect | handlers/screenshot.py:83-113 | an acceptable typed ID registers the user; anything else is ignored |
| Onboarding.DataPrefixes | handlers/approval.py:18 | the decision callbacks start with the prefixes the handlers filter on |
| Onboarding.ApproveEffect | handlers/approval.py:19-29 | approval decides the pending applications, sets approved and state helping_registration |
| Onboarding.RejectEffect | handlers/approval.py:124-134 | rejection sets status and state rejected, after which every user handler ignores the user |
| Onboarding.SecondDecision | database/applications.py:12-17 | a rejection after an approval leaves the applications as approved yet still marks the user rejected |
| Onboarding.AnswerEffect | handlers/admin.py:202-243 | a kept question is logged as the operator's with confidence 100 and removed, and without one the log and the kept questions stay; after delivery the user resumes by the resume rule whether or not a question was kept; a failed delivery or a missing user row changes no status; the operator's mode is cleared |
| Onboarding.AnswerCallbackSelects | handlers/admin.py:187-195 | the answer button selects its user |
| Onboarding.ListedTopics | handlers/admin.py:343-347 | the topics keyboard lists every stored topic with its id |
| Onboarding.ViewConversationShows | handlers/admin.py:246-276 | a users-list button shows that user's newest twenty messages and nobody else's, the store untouched |
| Onboarding.TopicEffect | handlers/admin.py:315-341 | the stored topic holds one keyword per comma-separated piece, and a delete button removes exactly that topic |
| Onboarding.GuardsHold | handlers/admin.py:188 | non-operators change nothing in the operator's handlers; the user handlers do nothing for the operator or a rejected user |
| Bot.Bot.Start | handlers/user.py:47-97 | /start performed in place equals the /start transition |
| Bot.Bot.SavePhotos | handlers/user.py:144-145 | the save loop equals saving the photos one after the other |
| Bot.Bot.AfterPhotos | handlers/user.py:150-159 | the step after a save equals its transition |
| Bot.Bot.Photo | handlers/user.py:161-173 | a single photo in place equals the photo transition |
| Bot.Bot.AlbumPhotos | handlers/user.py:119-159 | an album in place equals the album transition |
| Bot.Bot.WorkHours | handlers/user.py:177-187 | the work-hours answer in place equals its transition |
| Bot.Bot.Experience | handlers/user.py:190-241 | the experience answer in place equals its transition |
| Bot.Bot.Question | handlers/user.py:432-495 | a question in place equals the question transition |
| Bot.Bot.Prepare | handlers/user.py:367-372 | the steps before the resolver equal the prepared store |
| Bot.Bot.HandOff | handlers/user.py:468-488 | the escalation branch in place equals the hand-off |
| Bot.Bot.WaitingAdminText | handlers/user.py:318-348 | the follow-up while waiting equals its transition |
| Bot.Bot.Screenshot | handlers/screenshot.py:19-80 | the screenshot handler in place equals its transition |
| Bot.Bot.ScreenshotInWaiting | handlers/screenshot.py:19-80 | a photo in waiting_screenshot equals its transition |
| Bot.Bot.PhotoAsScreenshot | handlers/user.py:300-315 | a photo from a registering or registered user equals its transition |
| Bot.Bot.TypedId | handlers/screenshot.py:83-113 | a typed ID equals its transition |
| Bot.Bot.Approve | handlers/approval.py:19-120 | approval in place equals the approval transition |
| Bot.Bot.Reject | handlers/approval.py:124-143 | rejection in place equals the rejection transition |
| Bot.Bot.AnswerCallback | handlers/admin.py:187-199 | the answer button equals its transition |
| Bot.Bot.AnswerText | handlers/admin.py:202-243 | the operator's answer in place equals its transition |
| Bot.Bot.StartTopic | handlers/admin.py:297-303 | the add-topic button equals its transition |
| Bot.Bot.TopicName | handlers/admin.py:306-312 | the topic name equals its transition |
| Bot.Bot.TopicKeywordsText | handlers/admin.py:315-331 | the keyword list in place equals its transition |
| Bot.Bot.DeleteTopic | handlers/admin.py:335-349 | the delete button in place equals its transition |
| Bot.Bot.ViewConversation | handlers/admin.py:246-276 | the conversation view equals its transition |
| Bot.Bot.ShowStats | handlers/admin.py:52-76 | the statistics message equals its transition |

## Left out

- Telegram itself (routing by filters, delivery, media groups, chat actions, the one-second minimum reply delay) is not modelled. Each handler is a transition called for its event, and a sent message is an entry of the outbox.
- The generation backend, its providers and its timeouts are a parameter. Each call yields a timeout, a failure, no choices or a text. `json.loads` is an abstract parameter too.
- Generation.Json, Generation.ReadDictionary, Generation.GetAiResponse: a decoded confidence is an integer or "not a number". A fractional one such as 69.5 is not representable; the parameter standing for `json.loads` must round it, and the 70 threshold and the `> 0` test can then decide differently. A decoded hand-off flag is a boolean, so the truthiness of other JSON values is not modelled. When the flag is false and the confidence is not a number, the code raises in the retry loop's `> 0` test (utils/ai_handler.py:1168); the model raises in `get_ai_response` instead. The retry loop treats both the same way. A hand-off whose confidence is not a number carries 0, and nothing reads that value.
- Prompt assembly in `build_context_prompt` is left out, apart from the FAQ category. It reads a `language` column that the schema lacks. Any failure there surfaces as the backend's failure outcome.
- The pause durations are returned as numbers; no clock is modelled. The album debounce (`asyncio.sleep(1.0)` and the group cache) is not modelled: an album arrives as one event. Concurrent handlers are not modelled either.
- Text recognition of screenshots (`extract_id`) is a parameter, and so is the group-membership query.
- Long fixed reply texts (knowledge blocks, the job description, registration instructions) are represented by their first line. The forms of the ratio reply that print floats (`:.1%`, `:.3f`) are not rendered.
- Ratio.DislikeRatio: the float comparison `dislikes / total < 0.18` is stated as the exact integer test `100*d < 18*(d+l)`. The two agree whenever the total of dislikes and likes is below about 3.7·10¹⁴, which covers all realistic counts. Above that, rounding can make Python report a ratio just under 18% as not good (for example 900000000000007 dislikes and 4100000000000032 likes).
- Flow.EfficiencyBounds: states only the bounds of `round(auto / total * 100)`, with Python's rounding modelled on the exact quotient, not on the float.
- The statistics do not model the average confidence `AVG(confidence)`, which is a float.
- Ratio.ExtractNumbers: reads ASCII digits only, whereas Python's `\d` also matches other Unicode digits.
- Text.Strip, Text.Words, Text.Lower, Text.IsDigits, Flow.AcceptsId: only part of Python's Unicode behaviour is modelled. Whitespace is the six ASCII blanks; `strip()` and `split()` also remove U+001C–U+001F, U+0085, U+00A0, U+2000–U+200A, U+3000 and others. Digits are ASCII 0–9; `isdigit()` accepts every Unicode decimal digit. Lower-casing covers Latin A–Z and the Cyrillic capitals; `lower()` also maps Latin-1, Greek and other capitals. So a typed or captioned ID written in Arabic-Indic digits, or followed by a no-break space, registers the user in the code but not in the model.
- Keyboards.ParseId: accepts exactly the runs of ASCII digits. Python's `int()` also accepts a sign, surrounding blanks and non-ASCII digits; the keyboards never write those, and every id they write decodes back (Keyboards.OneFieldRoundTrip, Keyboards.TwoFieldRoundTrip).
- Timestamps are integers supplied by the caller. Row order stands for timestamp order.
- The settings table (welcome and rejection texts, links) is not modelled. The texts are passed in as parameters.
- The FAQ table is not modelled. `get_faq` is used only by prompt assembly.
- handlers/analysis.py, database/analysis.py, utils/audio_transcription.py, `send_reviews` (file I/O), logging and start-up wiring in main.py are not part of this model.
- The operator's menu handlers that only send fixed texts or files are not modelled: `cmd_admin`, welcome editing, logs, export, and the conversations and topics menus. Their keyboards are modelled in `Keyboards`.
