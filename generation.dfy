/** Answering through the generation backend (utils/ai_handler.py:
  * is_g4f_error, check_forbidden_topics, get_ai_response and
  * get_ai_response_with_retry), and the reply-category choice of
  * build_context_prompt. The backend and the JSON decoder are parameters. */
module Generation {
  import opened Text
  import opened Lang
  import Config
  import LanguageDetector
  import DirectMatch
  import Contextual

  // ---------------------------------------------------------------- replies

  /** The `{answer, confidence, escalate}` dictionary a resolver returns. */
  datatype Reply = Reply(answer: string, confidence: int, escalate: bool)

  /** The reply that hands the question to the operator. */
  const Escalation: Reply := Reply("", 0, true)

  /** Confidence of a table-driven answer and of a follow-up answer. */
  const DirectConfidence: int := 95
  const ContextualConfidence: int := 92
  /** Confidence of a plain-text generated answer. */
  const PlainTextConfidence: int := 75
  /** Confidence assumed when the generated dictionary has none. */
  const DefaultConfidence: int := 70
  /** Confidence of the forbidden-topic reply. */
  const ForbiddenConfidence: int := 100

  /** Answers longer than this are cut. */
  const MaxAnswer: nat := 4000
  /** How much of a cut answer is kept. */
  const KeptAnswer: nat := 3800
  /** What follows a cut answer. */
  const ContinuationMarker: string := "\n\n(продолжение в следующем сообщении...)"

  /** What one call of the backend gave: it timed out, it raised, it came back
    * without choices, or it came back with a text. */
  datatype Backend = Timeout | Failure | NoChoices | Completion(text: string)

  /** A decoded confidence: a number, or a value of another JSON type (a
    * string, null, a list, a dictionary) that no number compares with. */
  datatype Conf = Num(value: int) | NotNumber

  /** What `json.loads` makes of a text: a dictionary with or without each of
    * the three fields (the answer already passed through `str`), or any other
    * value, shown by its `str`. */
  datatype Json = JDict(answer: Option<string>, confidence: Option<Conf>, escalate: Option<bool>) | JOther(shown: string)

  /** What one `get_ai_response` call ends with: an exception (a timeout or
    * another error) or a reply. */
  datatype Outcome = Raised(timeout: bool) | Returned(reply: Reply)

  // ---------------------------------------------------------------- backend text

  /** `is_g4f_error(content)`: texts the backend sends instead of an answer. */
  predicate IsG4fError(content: string)
  {
    var c := Lower(content);
    content == "" ||
    Contains(c, "does not exist") ||
    Contains(c, "the model does not") ||
    (Contains(c, "model") && Contains(c, "exist")) ||
    IsPrefix("error", c) ||
    Contains(c, "api.airforce") ||
    Contains(c, "bad request") ||
    |Strip(content)| < 3
  }

  /** Fewer than three characters is always an error text. */
  lemma ShortTextIsError(content: string)
    requires |content| < 3
    ensures IsG4fError(content)
  {
  }

  /** Any text mentioning a model that does not exist is an error text,
    * wherever the words occur and whatever their case. */
  lemma MissingModelIsError(content: string)
    requires Contains(Lower(content), "model") && Contains(Lower(content), "exist")
    ensures IsG4fError(content)
  {
  }

  /** The fenced-code stripping: a "```json" fence loses seven characters in
    * front and three at the end, a plain "```" fence three at each end. */
  function Unfence(content: string): (r: string)
    ensures !IsPrefix("```", content) ==> r == content
    ensures |r| <= |content|
  {
    if IsPrefix("```json", content) then Strip(SliceDrop(content, 7, 3))
    else if IsPrefix("```", content) then Strip(SliceDrop(content, 3, 3))
    else content
  }

  /** `.replace('**', '').replace('__', '').replace('*', '').replace('_', '')`. */
  function Clean(s: string): string
  {
    Replace(Replace(Replace(Replace(s, "**", ""), "__", ""), "*", ""), "_", "")
  }

  /** The clean-up removes exactly the characters `*` and `_`. */
  lemma CleanIsWithout(s: string)
    ensures Clean(s) == Without(s, {'*', '_'})
  {
    var s1 := Replace(s, "**", "");
    var s2 := Replace(s1, "__", "");
    var s3 := Replace(s2, "*", "");
    ReplaceCharIsWithout(s3, '_');
    ReplaceCharIsWithout(s2, '*');
    WithoutTwice(s2, {'*'}, {'_'});
    assert {'*'} + {'_'} == {'*', '_'};
    ReplaceDoubleThenWithout(s1, '_', {'*', '_'});
    ReplaceDoubleThenWithout(s, '*', {'*', '_'});
  }

  /** Cleaned text has no `*` and no `_`, and is no longer than before. */
  lemma CleanHasNoMarks(s: string)
    ensures |Clean(s)| <= |s|
    ensures forall i :: 0 <= i < |Clean(s)| ==> Clean(s)[i] != '*' && Clean(s)[i] != '_'
  {
    CleanIsWithout(s);
  }

  /** Cutting an answer over 4000 characters to 3800 and the marker. */
  function Truncate(s: string): (r: string)
    ensures |s| <= MaxAnswer ==> r == s
    ensures |s| > MaxAnswer ==> r == s[..KeptAnswer] + ContinuationMarker
  {
    if |s| > MaxAnswer then s[..KeptAnswer] + ContinuationMarker else s
  }

  /** A truncated answer fits the limit and keeps the original's beginning. */
  lemma TruncateBounds(s: string)
    ensures |Truncate(s)| <= MaxAnswer
    ensures Truncate(s)[..if |s| <= KeptAnswer then |s| else KeptAnswer] == s[..if |s| <= KeptAnswer then |s| else KeptAnswer]
  {
  }

  /** Truncation adds no `*` or `_`. */
  lemma TruncateKeepsNoMarks(s: string)
    requires forall i :: 0 <= i < |s| ==> s[i] != '*' && s[i] != '_'
    ensures forall i :: 0 <= i < |Truncate(s)| ==> Truncate(s)[i] != '*' && Truncate(s)[i] != '_'
  {
    if |s| > MaxAnswer {
      var r := Truncate(s);
      forall i | 0 <= i < |r|
        ensures r[i] != '*' && r[i] != '_'
      {
        if i >= KeptAnswer {
          assert r[i] == ContinuationMarker[i - KeptAnswer];
        }
      }
    }
  }

  /** The confidence a reply carries: 70 when the dictionary has none, and 0
    * for one that is not a number (only a hand-off carries such a value, and
    * nothing reads the confidence of a hand-off). */
  function ConfidenceOf(confidence: Option<Conf>): int
  {
    if confidence.None? then DefaultConfidence
    else if confidence.value.Num? then confidence.value.value
    else 0
  }

  /** The outcome made of a decoded dictionary: a missing answer is the text
    * `c` it was read from, a missing confidence is 70, a missing hand-off flag
    * is a confidence under the threshold; an error text as answer is handed
    * to the operator, any other answer is cut and cleaned. A confidence that
    * is not a number cannot be compared: without a hand-off flag the
    * default's `<` raises, and with the flag false the retry's `> 0` raises
    * on the returned reply; either way the attempt fails with an error. */
  function FromDictionary(j: Json, c: string): Outcome
    requires j.JDict?
  {
    var answer := if j.answer.Some? then j.answer.value else c;
    var numeric := j.confidence.None? || j.confidence.value.Num?;
    var confidence := ConfidenceOf(j.confidence);
    if !numeric && j.escalate.None? then Raised(false)
    else
      var escalate := if j.escalate.Some? then j.escalate.value else confidence < Config.AiConfidenceThreshold;
      if IsG4fError(answer) then Returned(Escalation)
      else if !numeric && !escalate then Raised(false)
      else Returned(Reply(Clean(Truncate(answer)), confidence, escalate))
  }

  /** The outcome made of what `json.loads` gave for the cleaned text `c`. */
  function Interpret(parsed: Option<Json>, c: string): Outcome
  {
    match parsed
    case None => Returned(Reply(Truncate(c), PlainTextConfidence, false))
    case Some(JOther(shown)) => Returned(Reply(Truncate(shown), PlainTextConfidence, false))
    case Some(j) => FromDictionary(j, c)
  }

  /** The outcome made of a backend text, `parse` standing for `json.loads`
    * (None when it raises). */
  function Normalise(text: string, parse: string -> Option<Json>): Outcome
  {
    var content := Strip(text);
    if IsG4fError(content) then Returned(Escalation)
    else
      var c := Clean(Unfence(content));
      Interpret(parse(c), c)
  }

  // ---------------------------------------------------------------- forbidden topics

  /** Some stored keyword, lowered, occurs in the lowered message. */
  predicate Forbidden(message: string, topics: seq<seq<string>>)
  {
    exists t, k :: 0 <= t < |topics| && 0 <= k < |topics[t]| && Contains(Lower(message), Lower(topics[t][k]))
  }

  /** `check_forbidden_topics(message)` over the keyword lists of the stored
    * topics, in order, stopping at the first keyword found. */
  method CheckForbiddenTopics(message: string, topics: seq<seq<string>>) returns (found: bool)
    ensures found <==> Forbidden(message, topics)
  {
    var msgLower := Lower(message);
    var t := 0;
    while t < |topics|
      invariant 0 <= t <= |topics|
      invariant forall t', k :: 0 <= t' < t && 0 <= k < |topics[t']| ==> !Contains(msgLower, Lower(topics[t'][k]))
    {
      var keywords := topics[t];
      var k := 0;
      while k < |keywords|
        invariant 0 <= k <= |keywords|
        invariant forall k' :: 0 <= k' < k ==> !Contains(msgLower, Lower(keywords[k']))
      {
        if Contains(msgLower, Lower(keywords[k])) {
          return true;
        }
        k := k + 1;
      }
      t := t + 1;
    }
    return false;
  }

  /** An empty stored keyword blocks every message. */
  lemma EmptyKeywordBlocksAll(message: string, topics: seq<seq<string>>, t: nat, k: nat)
    requires t < |topics| && k < |topics[t]| && topics[t][k] == ""
    ensures Forbidden(message, topics)
  {
    assert Lower(topics[t][k]) == "";
    assert IsPrefix("", Lower(message));
  }

  /** The filter ignores the case of the message. */
  lemma ForbiddenIgnoresCase(message: string, topics: seq<seq<string>>)
    ensures Forbidden(Lower(message), topics) <==> Forbidden(message, topics)
  {
    LowerIdempotent(message);
  }

  /** A message holding a keyword is blocked, whatever surrounds it. */
  lemma ForbiddenMonotone(message: string, longer: string, topics: seq<seq<string>>)
    requires Contains(Lower(longer), Lower(message))
    requires Forbidden(message, topics)
    ensures Forbidden(longer, topics)
  {
    var t, k :| 0 <= t < |topics| && 0 <= k < |topics[t]| && Contains(Lower(message), Lower(topics[t][k]));
    ContainsTransitive(Lower(longer), Lower(message), Lower(topics[t][k]));
  }

  // ---------------------------------------------------------------- one call

  /** `get_ai_response` for one backend result: the forbidden-topic reply in
    * the question's language, an exception passed on, the operator
    * hand-off for a result without choices, or the normalised text. */
  function Respond(question: string, topics: seq<seq<string>>, call: Backend, parse: string -> Option<Json>): Outcome
  {
    if Forbidden(question, topics) then
      Returned(Reply(Pick(Config.UniversalResponse, LanguageDetector.DetectLanguage(question)), ForbiddenConfidence, false))
    else
      match call
      case Timeout => Raised(true)
      case Failure => Raised(false)
      case NoChoices => Returned(Escalation)
      case Completion(text) => Normalise(text, parse)
  }

  /** `get_ai_response(user_id, question)`: the reply dictionary is built
    * and then corrected field by field. */
  method GetAiResponse(question: string, topics: seq<seq<string>>, call: Backend, parse: string -> Option<Json>) returns (outcome: Outcome)
    ensures outcome == Respond(question, topics, call, parse)
  {
    var questionLang := LanguageDetector.DetectLanguage(question);
    var forbidden := CheckForbiddenTopics(question, topics);
    if forbidden {
      return Returned(Reply(Pick(Config.UniversalResponse, questionLang), ForbiddenConfidence, false));
    }
    match call {
      case Timeout => return Raised(true);
      case Failure => return Raised(false);
      case NoChoices => return Returned(Escalation);
      case Completion(text) =>
        outcome := NormaliseCompletion(text, parse);
    }
  }

  /** The handling of a completion text inside `get_ai_response`: the error
    * check, the fence stripping, the clean-up and the JSON reading. */
  method NormaliseCompletion(text: string, parse: string -> Option<Json>) returns (outcome: Outcome)
    ensures outcome == Normalise(text, parse)
  {
    var content := Strip(text);
    if IsG4fError(content) {
      return Returned(Escalation);
    }
    content := StripFence(content);
    content := Clean(content);
    outcome := ReadParsed(parse(content), content);
  }

  /** The fence stripping, in place on the content. */
  method StripFence(content: string) returns (r: string)
    ensures r == Unfence(content)
  {
    r := content;
    if IsPrefix("```json", r) {
      r := Strip(SliceDrop(r, 7, 3));
    } else if IsPrefix("```", r) {
      r := Strip(SliceDrop(r, 3, 3));
    }
  }

  /** What `json.loads` gave: not JSON and a non-dictionary keep the text as
    * the answer, a dictionary is read field by field. */
  method ReadParsed(parsed: Option<Json>, content: string) returns (outcome: Outcome)
    ensures outcome == Interpret(parsed, content)
  {
    if parsed.None? {
      var answerText := content;
      if |answerText| > MaxAnswer {
        answerText := answerText[..KeptAnswer] + ContinuationMarker;
      }
      return Returned(Reply(answerText, PlainTextConfidence, false));
    }
    if parsed.value.JOther? {
      var answerText := parsed.value.shown;
      if |answerText| > MaxAnswer {
        answerText := answerText[..KeptAnswer] + ContinuationMarker;
      }
      return Returned(Reply(answerText, PlainTextConfidence, false));
    }
    outcome := ReadDictionary(parsed.value, content);
  }

  /** The fields of a decoded dictionary, with their defaults, checked and
    * cleaned; `content` is the text the dictionary was read from. */
  method ReadDictionary(result: Json, content: string) returns (outcome: Outcome)
    requires result.JDict?
    ensures outcome == FromDictionary(result, content)
  {
    var answer := if result.answer.Some? then result.answer.value else content;
    var confidence := if result.confidence.Some? then result.confidence.value else Num(DefaultConfidence);
    if confidence.NotNumber? && result.escalate.None? {
      // the default hand-off flag compares the confidence with the threshold
      return Raised(false);
    }
    var escalate := if result.escalate.Some? then result.escalate.value else confidence.value < Config.AiConfidenceThreshold;
    if IsG4fError(answer) {
      return Returned(Escalation);
    }
    if |answer| > MaxAnswer {
      answer := answer[..KeptAnswer] + ContinuationMarker;
    }
    answer := Clean(answer);
    if confidence.NotNumber? && !escalate {
      // the retry loop's `confidence > 0` on the returned reply
      return Raised(false);
    }
    return Returned(Reply(answer, if confidence.Num? then confidence.value else 0, escalate));
  }

  /** A backend error text is handed to the operator. */
  lemma ErrorTextEscalates(text: string, parse: string -> Option<Json>)
    requires IsG4fError(Strip(text))
    ensures Normalise(text, parse) == Returned(Escalation)
  {
  }

  /** Text that is not JSON comes back as it is, cleaned and cut, with
    * confidence 75 and no hand-off. */
  lemma PlainTextReply(text: string, parse: string -> Option<Json>)
    requires !IsG4fError(Strip(text))
    requires parse(Clean(Unfence(Strip(text)))).None?
    ensures Normalise(text, parse) == Returned(Reply(Truncate(Clean(Unfence(Strip(text)))), PlainTextConfidence, false))
    ensures |Normalise(text, parse).reply.answer| <= MaxAnswer
    ensures forall i :: 0 <= i < |Normalise(text, parse).reply.answer| ==>
      Normalise(text, parse).reply.answer[i] != '*' && Normalise(text, parse).reply.answer[i] != '_'
  {
    var c := Clean(Unfence(Strip(text)));
    CleanHasNoMarks(Unfence(Strip(text)));
    TruncateBounds(c);
    TruncateKeepsNoMarks(c);
  }

  /** A dictionary's missing fields are filled in: the cleaned text as the
    * answer, confidence 70, and a hand-off exactly when the confidence is
    * below the threshold. */
  lemma DictionaryDefaults(text: string, parse: string -> Option<Json>)
    requires !IsG4fError(Strip(text))
    requires parse(Clean(Unfence(Strip(text)))) == Some(JDict(None, None, None))
    requires !IsG4fError(Clean(Unfence(Strip(text))))
    ensures Normalise(text, parse).Returned?
    ensures Normalise(text, parse).reply.confidence == DefaultConfidence
    ensures !Normalise(text, parse).reply.escalate
    ensures Normalise(text, parse).reply.answer == Clean(Truncate(Clean(Unfence(Strip(text)))))
  {
  }

  /** A dictionary gives the hand-off, a failed attempt (only for a
    * confidence that is not a number), or a reply whose answer fits the
    * limit and holds no `*` or `_`, whose confidence is the dictionary's or
    * 70, and whose hand-off follows the dictionary or, without one, the
    * threshold. */
  lemma DictionaryAnswer(text: string, parse: string -> Option<Json>, a: Option<string>, conf: Option<Conf>, esc: Option<bool>)
    requires !IsG4fError(Strip(text))
    requires parse(Clean(Unfence(Strip(text)))) == Some(JDict(a, conf, esc))
    ensures var o := Normalise(text, parse);
      o == Returned(Escalation) ||
      (o == Raised(false) && conf == Some(NotNumber)) ||
      (&& o.Returned?
       && |o.reply.answer| <= MaxAnswer
       && (forall i :: 0 <= i < |o.reply.answer| ==> o.reply.answer[i] != '*' && o.reply.answer[i] != '_')
       && o.reply.confidence == ConfidenceOf(conf)
       && o.reply.escalate == (if esc.Some? then esc.value else o.reply.confidence < Config.AiConfidenceThreshold))
  {
    var c := Clean(Unfence(Strip(text)));
    var answer := if a.Some? then a.value else c;
    FromDictionaryCases(JDict(a, conf, esc), c);
    TruncateBounds(answer);
    CleanHasNoMarks(Truncate(answer));
  }

  /** The three ways a dictionary ends, with the fields of a reply. */
  lemma FromDictionaryCases(j: Json, c: string)
    requires j.JDict?
    ensures var o := FromDictionary(j, c);
      var answer := if j.answer.Some? then j.answer.value else c;
      o == Returned(Escalation) ||
      (o == Raised(false) && j.confidence == Some(NotNumber)) ||
      (&& o.Returned?
       && o.reply.answer == Clean(Truncate(answer))
       && o.reply.confidence == ConfidenceOf(j.confidence)
       && o.reply.escalate == (if j.escalate.Some? then j.escalate.value else o.reply.confidence < Config.AiConfidenceThreshold))
  {
  }

  /** A confidence that is not a number fails the attempt unless the
    * dictionary hands off: without a hand-off flag always, with the flag
    * false unless the answer is an error text (then the hand-off comes
    * first); with the flag true the reply is a hand-off. */
  lemma NonNumericConfidence(text: string, parse: string -> Option<Json>, a: Option<string>, esc: Option<bool>)
    requires !IsG4fError(Strip(text))
    requires parse(Clean(Unfence(Strip(text)))) == Some(JDict(a, Some(NotNumber), esc))
    ensures var c := Clean(Unfence(Strip(text)));
      var answer := if a.Some? then a.value else c;
      var o := Normalise(text, parse);
      (esc.None? ==> o == Raised(false)) &&
      (esc == Some(false) ==> (o == Raised(false) <==> !IsG4fError(answer)) &&
                              (IsG4fError(answer) ==> o == Returned(Escalation))) &&
      (esc == Some(true) ==> o.Returned? && o.reply.escalate)
  {
  }

  // ---------------------------------------------------------------- retries

  /** A reply the retry loop keeps: a hand-off, or a confident non-empty
    * answer. */
  predicate Accepted(o: Outcome)
  {
    o.Returned? && (o.reply.escalate || (o.reply.confidence > 0 && o.reply.answer != ""))
  }

  /** The first kept reply of the attempts in order, else the hand-off. */
  function FirstAccepted(os: seq<Outcome>): Reply
  {
    if |os| == 0 then Escalation
    else if Accepted(os[0]) then os[0].reply
    else FirstAccepted(os[1..])
  }

  /** The retry result is the reply of the first kept attempt, every
    * earlier attempt having been discarded; with no kept attempt it is the
    * hand-off. */
  lemma {:induction false} FirstAcceptedIsFirst(os: seq<Outcome>)
    ensures (forall k :: 0 <= k < |os| ==> !Accepted(os[k])) ==> FirstAccepted(os) == Escalation
    ensures (exists k :: 0 <= k < |os| && Accepted(os[k])) ==>
      exists k ::
        && 0 <= k < |os|
        && Accepted(os[k])
        && FirstAccepted(os) == os[k].reply
        && forall j :: 0 <= j < k ==> !Accepted(os[j])
  {
    if |os| > 0 && !Accepted(os[0]) {
      FirstAcceptedIsFirst(os[1..]);
      assert forall k :: 1 <= k < |os| ==> os[k] == os[1..][k - 1];
      if exists k :: 0 <= k < |os| && Accepted(os[k]) {
        var k :| 0 <= k < |os| && Accepted(os[k]);
        assert Accepted(os[1..][k - 1]);
        var k' :| 0 <= k' < |os[1..]| && Accepted(os[1..][k']) && FirstAccepted(os[1..]) == os[1..][k'].reply
          && forall j :: 0 <= j < k' ==> !Accepted(os[1..][j]);
        assert os[k' + 1] == os[1..][k'];
        assert forall j :: 0 <= j < k' + 1 ==> !Accepted(os[j]) by {
          forall j | 0 <= j < k' + 1 ensures !Accepted(os[j]) {
            if j > 0 { assert os[j] == os[1..][j - 1]; }
          }
        }
      }
    } else if |os| > 0 {
      assert Accepted(os[0]);
    }
  }

  /** The first kept reply from position `i` on. */
  lemma FirstAcceptedStep(os: seq<Outcome>, i: nat)
    requires i < |os|
    ensures FirstAccepted(os[i..]) == if Accepted(os[i]) then os[i].reply else FirstAccepted(os[i + 1..])
  {
    assert os[i..][0] == os[i];
    assert os[i..][1..] == os[i + 1..];
  }

  /** The outcomes of `maxRetries` attempts, attempt `k` meeting backend
    * result `backend(k)`. */
  function Attempts(question: string, topics: seq<seq<string>>, maxRetries: nat, backend: nat -> Backend, parse: string -> Option<Json>): (os: seq<Outcome>)
    ensures |os| == maxRetries
  {
    seq(maxRetries, k requires 0 <= k < maxRetries => Respond(question, topics, backend(k), parse))
  }

  /** Attempt `k` is one `get_ai_response` call on backend result `backend(k)`. */
  lemma AttemptAt(question: string, topics: seq<seq<string>>, maxRetries: nat, backend: nat -> Backend,
                  parse: string -> Option<Json>, k: nat)
    requires k < maxRetries
    ensures Attempts(question, topics, maxRetries, backend, parse)[k] == Respond(question, topics, backend(k), parse)
  {
  }

  /** The resolver given the direct answer, the follow-up table, the reply
    * language and the outcomes of the attempts. */
  function Resolve(direct: Option<string>, contextual: Option<LangTable>, lang: string, os: seq<Outcome>): Reply
  {
    if direct.Some? && direct.value != "" then Reply(direct.value, DirectConfidence, false)
    else if contextual.Some? then Reply(Pick(contextual.value, lang), ContextualConfidence, false)
    else FirstAccepted(os)
  }

  /** `get_ai_response_with_retry(question, max_retries)`, the reply
    * language being the language of the question. */
  function ResponseWithRetry(question: string, history: seq<Contextual.Said>, topics: seq<seq<string>>, maxRetries: nat,
                             backend: nat -> Backend, parse: string -> Option<Json>): Reply
  {
    Resolve(DirectMatch.CheckFaqDirectMatch(question), Contextual.Contextual(question, history),
      LanguageDetector.DetectLanguage(question), Attempts(question, topics, maxRetries, backend, parse))
  }

  /** Attempt number `k`: one `get_ai_response` call. */
  method TryAttempt(question: string, topics: seq<seq<string>>, maxRetries: nat, backend: nat -> Backend,
                    parse: string -> Option<Json>, k: nat) returns (outcome: Outcome)
    requires k < maxRetries
    ensures outcome == Attempts(question, topics, maxRetries, backend, parse)[k]
  {
    outcome := GetAiResponse(question, topics, backend(k), parse);
    AttemptAt(question, topics, maxRetries, backend, parse, k);
  }

  /** The pauses after the first `n` attempts: 3 seconds after an
    * exception, 2 after a reply that is not kept. */
  function PausesAfter(os: seq<Outcome>, n: nat): (ps: seq<nat>)
    requires n <= |os|
    ensures |ps| == n
    ensures forall k :: 0 <= k < n ==> ps[k] == (if os[k].Raised? then 3 else 2)
  {
    seq(n, k requires 0 <= k < n => if os[k].Raised? then 3 else 2)
  }

  /** One more attempt adds its pause at the end. */
  lemma PausesAfterNext(os: seq<Outcome>, n: nat)
    requires n < |os|
    ensures PausesAfter(os, n + 1) == PausesAfter(os, n) + [if os[n].Raised? then 3 else 2]
  {
  }

  /** The state of the attempt loop before attempt `attempt`: the result is
    * still to be found from `attempt` on, and the pauses so far were
    * taken. */
  predicate Pending(os: seq<Outcome>, attempt: nat, pauses: seq<nat>)
  {
    attempt <= |os| && FirstAccepted(os) == FirstAccepted(os[attempt..]) && pauses == PausesAfter(os, attempt)
  }

  /** One turn of the attempt loop: attempt number `attempt` is made; the
    * loop stops on a kept reply or after the last attempt, and otherwise
    * pauses. */
  method AttemptStep(question: string, topics: seq<seq<string>>, maxRetries: nat, backend: nat -> Backend,
                     parse: string -> Option<Json>, ghost os: seq<Outcome>, attempt: nat, pauses: seq<nat>)
    returns (done: bool, reply: Reply, pauses': seq<nat>)
    requires os == Attempts(question, topics, maxRetries, backend, parse) && attempt < maxRetries
    requires Pending(os, attempt, pauses)
    ensures done ==> reply == FirstAccepted(os) && pauses' == PausesAfter(os, attempt)
    ensures !done ==> attempt + 1 < maxRetries && Pending(os, attempt + 1, pauses')
  {
    var outcome := TryAttempt(question, topics, maxRetries, backend, parse, attempt);
    FirstAcceptedStep(os, attempt);
    if Accepted(outcome) {
      // a hand-off or a confident non-empty answer ends the loop
      return true, outcome.reply, pauses;
    }
    if attempt == maxRetries - 1 {
      assert os[attempt + 1..] == [];
      return true, Escalation, pauses;
    }
    pauses' := pauses + [if outcome.Raised? then 3 else 2];
    PausesAfterNext(os, attempt);
    return false, Escalation, pauses';
  }

  /** The attempt loop: at most `maxRetries` calls, stopping at the first kept
    * reply, with a pause after every attempt but the last. */
  method RetryLoop(question: string, topics: seq<seq<string>>, maxRetries: nat, backend: nat -> Backend, parse: string -> Option<Json>)
    returns (reply: Reply, attempts: nat, pauses: seq<nat>)
    ensures reply == FirstAccepted(Attempts(question, topics, maxRetries, backend, parse))
    ensures attempts <= maxRetries
    ensures pauses == PausesAfter(Attempts(question, topics, maxRetries, backend, parse), if attempts == 0 then 0 else attempts - 1)
  {
    ghost var os := Attempts(question, topics, maxRetries, backend, parse);
    reply, attempts, pauses := Escalation, 0, [];
    var done := false;
    while !done && attempts < maxRetries
      invariant attempts <= maxRetries
      invariant done ==> 0 < attempts && reply == FirstAccepted(os) && pauses == PausesAfter(os, attempts - 1)
      invariant !done ==> (attempts == 0 || attempts < maxRetries) && Pending(os, attempts, pauses)
    {
      done, reply, pauses := AttemptStep(question, topics, maxRetries, backend, parse, os, attempts, pauses);
      attempts := attempts + 1;
    }
    if !done {
      // no attempt was made at all: the fall-back hand-off
      assert os[attempts..] == [];
      reply := Escalation;
    }
  }

  /** `get_ai_response_with_retry(user_id, question, max_retries)`: a direct
    * answer, else a follow-up answer, else the attempt loop. */
  method GetAiResponseWithRetry(question: string, history: seq<Contextual.Said>, topics: seq<seq<string>>, maxRetries: nat,
                                backend: nat -> Backend, parse: string -> Option<Json>)
    returns (reply: Reply, attempts: nat)
    ensures reply == ResponseWithRetry(question, history, topics, maxRetries, backend, parse)
    ensures attempts <= maxRetries
  {
    var questionLang := LanguageDetector.DetectLanguage(question);
    var directAnswer := DirectMatch.CheckFaqDirectMatch(question);
    if directAnswer.Some? && directAnswer.value != "" {
      return Reply(directAnswer.value, DirectConfidence, false), 0;
    }
    var contextualAnswer := Contextual.IsContextualQuestion(question, history);
    if contextualAnswer.Some? {
      return Reply(Pick(contextualAnswer.value, questionLang), ContextualConfidence, false), 0;
    }
    var pauses;
    reply, attempts, pauses := RetryLoop(question, topics, maxRetries, backend, parse);
  }

  // ---------------------------------------------------------------- properties

  /** Every reply of the resolver is a hand-off, or a confident non-empty
    * answer; the fall-back is exactly the empty hand-off. */
  lemma ResolveShape(direct: Option<string>, contextual: Option<LangTable>, lang: string, os: seq<Outcome>)
    requires contextual.Some? ==> Filled(contextual.value)
    ensures var r := Resolve(direct, contextual, lang, os);
      r.escalate || (r.confidence > 0 && r.answer != "")
  {
    FirstAcceptedIsFirst(os);
  }

  /** When no attempt gives a kept reply, the result is the empty hand-off. */
  lemma AllAttemptsFail(direct: Option<string>, contextual: Option<LangTable>, lang: string, os: seq<Outcome>)
    requires direct.None? && contextual.None?
    requires forall k :: 0 <= k < |os| ==> !Accepted(os[k])
    ensures Resolve(direct, contextual, lang, os) == Escalation
  {
    FirstAcceptedIsFirst(os);
  }

  /** The whole resolver: a hand-off, or a confident non-empty answer. */
  lemma ResponseShape(question: string, history: seq<Contextual.Said>, topics: seq<seq<string>>, maxRetries: nat,
                      backend: nat -> Backend, parse: string -> Option<Json>)
    ensures var r := ResponseWithRetry(question, history, topics, maxRetries, backend, parse);
      r.escalate || (r.confidence > 0 && r.answer != "")
  {
    Contextual.ContextualFilled(question, history);
    ResolveShape(DirectMatch.CheckFaqDirectMatch(question), Contextual.Contextual(question, history),
      LanguageDetector.DetectLanguage(question), Attempts(question, topics, maxRetries, backend, parse));
  }

  /** A forbidden question is answered by the universal response, with
    * confidence 100, on the first attempt, unless a direct or follow-up
    * answer came first. */
  lemma ForbiddenAnsweredOnFirstAttempt(question: string, topics: seq<seq<string>>, maxRetries: nat,
                                        backend: nat -> Backend, parse: string -> Option<Json>)
    requires Forbidden(question, topics) && maxRetries > 0
    ensures FirstAccepted(Attempts(question, topics, maxRetries, backend, parse)) ==
      Reply(Pick(Config.UniversalResponse, LanguageDetector.DetectLanguage(question)), ForbiddenConfidence, false)
  {
    Config.UniversalResponseFilled();
    AttemptAt(question, topics, maxRetries, backend, parse, 0);
  }

  // ---------------------------------------------------------------- reply category

  /** The FAQ category `build_context_prompt` reads for a user status. */
  function FaqCategory(status: string): (c: string)
    ensures c == "new" || c == "registration" || c == "working"
  {
    if status in ["new", "chatting", "waiting_photos", "asking_work_hours", "asking_experience"] then "new"
    else if status in ["helping_registration", "waiting_screenshot"] then "registration"
    else if status in ["registered", "approved"] then "working"
    else "new"
  }

  /** Registration statuses read the registration FAQ, working ones the
    * working FAQ, and every other status (unknown ones included) the FAQ for
    * newcomers. */
  lemma FaqCategoryCases(status: string)
    ensures FaqCategory(status) == "registration" <==> status == "helping_registration" || status == "waiting_screenshot"
    ensures FaqCategory(status) == "working" <==> status == "registered" || status == "approved"
    ensures FaqCategory(status) == "new" <==>
      status !in ["helping_registration", "waiting_screenshot", "registered", "approved"]
  {
  }
}
