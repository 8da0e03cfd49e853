/** Translation of operator texts (utils/translator.py): a prompt to the
  * text backend, a few attempts with growing pauses, and the unwrapping of
  * a fenced reply. The backend is a parameter: given the prompt and the
  * attempt number, it answers with one of `Attempt`. */
module Translator {
  import opened Text

  /** What one backend call yields. A timeout and any other exception are
    * handled alike; an empty reply (no response or no choices) is retried
    * without raising. */
  datatype Attempt = NoChoices | Timeout | Failure | Content(text: string)

  /** Attempts by default. */
  const DefaultRetries: nat := 3

  const Fence: string := "```"

  /** `lang_names.get(target_lang, 'English')`. */
  function LangName(target: string): (name: string)
    ensures name == "Ukrainian" <==> target == "uk"
    ensures name == "Ukrainian" || name == "English"
  {
    if target == "uk" then "Ukrainian" else "English"
  }

  /** The instruction sent to the backend. */
  function Prompt(text: string, target: string): (p: string)
    ensures IsPrefix("Translate this text to " + LangName(target), p)
  {
    var head := "Translate this text to " + LangName(target);
    var p := head + ".\n" + "Keep the same style and tone.\n" + "Do not add any explanations or comments.\n"
      + "Return ONLY the translated text.\n\n" + "Text to translate:\n" + text;
    assert p[..|head|] == head;
    p
  }

  /** Texts shorter than three non-blank characters are returned as they are. */
  predicate TooShort(text: string)
  {
    |text| == 0 || |Strip(text)| < 3
  }

  /** The reply made usable: stripped, and when it opens a code fence, the
    * stripped text between the first fence and the next one (or the end). */
  function Unwrap(content: string): (r: string)
    ensures !IsPrefix(Fence, Strip(content)) ==> r == Strip(content)
    ensures IsPrefix(Fence, Strip(content)) ==> !Contains(Strip(content)[3..], Fence) ==> r == Strip(Strip(content)[3..])
  {
    var t := Strip(content);
    if IsPrefix(Fence, t) then
      var rest := t[3..];
      var k := Find(rest, Fence);
      if k < 0 then Strip(rest) else Strip(rest[..k])
    else t
  }

  /** A fenced reply gives back exactly the fenced text, when no fence
    * starts inside the text or straddles its end. */
  lemma UnwrapFenced(body: string, tail: string)
    requires !Contains(body + "``", Fence)
    requires Strip(Fence + body + Fence + tail) == Fence + body + Fence + tail
    ensures Unwrap(Fence + body + Fence + tail) == Strip(body)
  {
    var t := Fence + body + Fence + tail;
    var rest := t[3..];
    assert t[..3] == Fence;
    assert rest == body + Fence + tail;
    assert rest[|body|..][..3] == Fence;
    forall j | 0 <= j < |body|
      ensures !IsPrefix(Fence, rest[j..])
    {
      FenceNotBefore(body, tail, j);
    }
    ContainsAt(rest, Fence);
    var k := Find(rest, Fence);
    assert k == |body|;
    assert rest[..k] == body;
  }

  /** No fence starts inside the body when the body followed by two
    * backticks holds none. */
  lemma FenceNotBefore(body: string, tail: string, j: nat)
    requires j < |body| && !Contains(body + "``", Fence)
    ensures !IsPrefix(Fence, (body + Fence + tail)[j..])
  {
    var b := body + "``";
    ContainsAt(b, Fence);
    assert (body + Fence + tail)[j..][..3] == b[j..][..3];
  }

  /** The result of one call, as the loop reads it. */
  predicate Answered(a: Attempt)
  {
    a.Content?
  }

  /** The index of the first answered attempt, if any. */
  function FirstAnswer(attempts: seq<Attempt>): (r: Option<nat>)
    ensures r.Some? ==> r.value < |attempts| && Answered(attempts[r.value])
    ensures r.Some? ==> forall j :: 0 <= j < r.value ==> !Answered(attempts[j])
    ensures r.None? <==> forall j :: 0 <= j < |attempts| ==> !Answered(attempts[j])
  {
    if |attempts| == 0 then None
    else if Answered(attempts[0]) then Some(0)
    else
      var r := FirstAnswer(attempts[1..]);
      assert forall j :: 1 <= j < |attempts| ==> attempts[j] == attempts[1..][j - 1];
      if r.None? then None else Some(r.value + 1)
  }

  /** The first answer is at `k` when `k` is answered and nothing before. */
  lemma FirstAnswerAt(attempts: seq<Attempt>, k: nat)
    requires k < |attempts| && Answered(attempts[k])
    requires forall j :: 0 <= j < k ==> !Answered(attempts[j])
    ensures FirstAnswer(attempts) == Some(k)
  {
  }

  /** The replies of `maxRetries` attempts. */
  function Attempts(text: string, target: string, maxRetries: nat, call: (string, nat) -> Attempt): (r: seq<Attempt>)
    ensures |r| == maxRetries
    ensures forall k :: 0 <= k < maxRetries ==> r[k] == call(Prompt(text, target), k)
  {
    seq(maxRetries, k requires 0 <= k < maxRetries => call(Prompt(text, target), k))
  }

  /** `_translate_with_retry(text, target_lang, max_retries)`: the text
    * itself when too short, else the unwrapped first reply, else None. */
  function Translate(text: string, target: string, maxRetries: nat, call: (string, nat) -> Attempt): Option<string>
  {
    if TooShort(text) then Some(text)
    else
      var first := FirstAnswer(Attempts(text, target, maxRetries, call));
      if first.None? then None
      else Some(Unwrap(Attempts(text, target, maxRetries, call)[first.value].text))
  }

  /** The number of calls made. */
  function Calls(text: string, target: string, maxRetries: nat, call: (string, nat) -> Attempt): nat
  {
    if TooShort(text) then 0
    else
      var first := FirstAnswer(Attempts(text, target, maxRetries, call));
      if first.None? then maxRetries else first.value + 1
  }

  /** The pauses: 2, 4, 6, ... seconds after each failed attempt but the
    * last. */
  function Pauses(n: nat): (ws: seq<nat>)
    ensures |ws| == n
    ensures forall k :: 0 <= k < n ==> ws[k] == 2 * (k + 1)
  {
    seq(n, k requires 0 <= k < n => 2 * (k + 1))
  }

  /** The attempt loop over the replies `os` to `prompt`: stops at the
    * first answered attempt, pausing after each failed one but the last. */
  method AttemptLoop(prompt: string, maxRetries: nat, call: (string, nat) -> Attempt, ghost os: seq<Attempt>)
    returns (result: Option<string>, calls: nat, pauses: seq<nat>)
    requires |os| == maxRetries && forall k :: 0 <= k < maxRetries ==> os[k] == call(prompt, k)
    ensures FirstAnswer(os).None? ==> result.None? && calls == maxRetries
    ensures FirstAnswer(os).Some? ==> result == Some(Unwrap(os[FirstAnswer(os).value].text)) && calls == FirstAnswer(os).value + 1
    ensures pauses == Pauses(if calls == 0 then 0 else calls - 1)
  {
    result, calls, pauses := None, 0, [];
    var done := false;
    while !done && calls < maxRetries
      invariant calls <= maxRetries
      invariant done ==> 0 < calls && FirstAnswer(os) == Some(calls - 1) && result == Some(Unwrap(os[calls - 1].text))
      invariant !done ==> result.None? && forall j :: 0 <= j < calls ==> !Answered(os[j])
      invariant !done && calls < maxRetries ==> pauses == Pauses(calls)
      invariant done || calls == maxRetries ==> pauses == Pauses(if calls == 0 then 0 else calls - 1)
    {
      var a := call(prompt, calls);
      if a.Content? {
        FirstAnswerAt(os, calls);
        result, done := Some(Unwrap(a.text)), true;
      } else if calls < maxRetries - 1 {
        // a reply without choices, a timeout or an error: pause and retry
        pauses := pauses + [2 * (calls + 1)];
      }
      calls := calls + 1;
    }
  }

  /** `_translate_with_retry`; returns the translation, the number of calls,
    * and the pauses it took. */
  method TranslateWithRetry(text: string, target: string, maxRetries: nat, call: (string, nat) -> Attempt)
    returns (result: Option<string>, calls: nat, pauses: seq<nat>)
    ensures result == Translate(text, target, maxRetries, call)
    ensures calls == Calls(text, target, maxRetries, call)
    ensures pauses == Pauses(if calls == 0 then 0 else calls - 1)
  {
    if |text| == 0 || |Strip(text)| < 3 {
      return Some(text), 0, [];
    }
    result, calls, pauses := AttemptLoop(Prompt(text, target), maxRetries, call, Attempts(text, target, maxRetries, call));
  }

  /** Short texts cost no call and come back unchanged. */
  lemma ShortTextUnchanged(text: string, target: string, maxRetries: nat, call: (string, nat) -> Attempt)
    requires TooShort(text)
    ensures Translate(text, target, maxRetries, call) == Some(text)
    ensures Calls(text, target, maxRetries, call) == 0
  {
  }

  /** A translation is missing only when every attempt failed, and then all
    * attempts were made. */
  lemma TranslateMissing(text: string, target: string, maxRetries: nat, call: (string, nat) -> Attempt)
    requires !TooShort(text)
    ensures Translate(text, target, maxRetries, call).None? <==>
      forall k :: 0 <= k < maxRetries ==> !Answered(call(Prompt(text, target), k))
    ensures Translate(text, target, maxRetries, call).None? ==> Calls(text, target, maxRetries, call) == maxRetries
  {
    var os := Attempts(text, target, maxRetries, call);
    assert forall k :: 0 <= k < maxRetries ==> os[k] == call(Prompt(text, target), k);
  }

  /** Otherwise the reply of the first answered attempt is used, after
    * that many calls. */
  lemma TranslateUsesFirstAnswer(text: string, target: string, maxRetries: nat, call: (string, nat) -> Attempt, k: nat)
    requires !TooShort(text) && k < maxRetries
    requires Answered(call(Prompt(text, target), k))
    requires forall j :: 0 <= j < k ==> !Answered(call(Prompt(text, target), j))
    ensures Translate(text, target, maxRetries, call) == Some(Unwrap(call(Prompt(text, target), k).text))
    ensures Calls(text, target, maxRetries, call) == k + 1
  {
    var os := Attempts(text, target, maxRetries, call);
    FirstAnswerAt(os, k);
  }

  /** The three language versions of an operator text. */
  datatype Translations = Translations(ru: string, uk: Option<string>, en: Option<string>)

  /** `translate_ru_to_uk_en(text)`: Russian is the text itself. */
  function TranslateAll(text: string, maxRetries: nat, call: (string, nat) -> Attempt): (t: Translations)
    ensures t.ru == text
    ensures t.uk == Translate(text, "uk", maxRetries, call) && t.en == Translate(text, "en", maxRetries, call)
  {
    Translations(text, Translate(text, "uk", maxRetries, call), Translate(text, "en", maxRetries, call))
  }

  /** A short text is the same in all three languages. */
  lemma ShortTextEverywhere(text: string, maxRetries: nat, call: (string, nat) -> Attempt)
    requires TooShort(text)
    ensures TranslateAll(text, maxRetries, call) == Translations(text, Some(text), Some(text))
  {
  }
}
