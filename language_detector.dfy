/** Guessing the language of a message (utils/language_detector.py). */
module LanguageDetector {
  import opened Text
  import opened Lang

  /** Letters counted as a sign of Ukrainian; ь, ю and я are Russian letters too. */
  const UkrainianChars: set<char> := {'ґ', 'є', 'і', 'ї', 'ь', 'ю', 'я', 'ѝ'}
  const EnglishWords: seq<string> := ["hello", "hi", "yes", "no", "please", "thanks", "thank", "work", "money", "how"]
  const RussianWords: seq<string> := ["привет", "здравствуй", "да", "нет", "пожалуйста", "спасибо", "работа", "деньги", "как"]
  const UkrainianWords: seq<string> := ["привіт", "вітаю", "так", "ні", "будь ласка", "дякую", "робота", "гроші", "як"]

  /** A letter of the Cyrillic range `'а' <= c <= 'я'` or one of ё, ъ, ы. */
  predicate IsCyrillicLetter(c: char)
  {
    ('а' <= c <= 'я') || c == 'ё' || c == 'ъ' || c == 'ы'
  }

  predicate IsLatinLetter(c: char)
  {
    'a' <= c <= 'z'
  }

  function UkrainianCharCount(s: string): nat
  {
    if |s| == 0 then 0 else (if s[0] in UkrainianChars then 1 else 0) + UkrainianCharCount(s[1..])
  }

  function CyrillicCount(s: string): nat
  {
    if |s| == 0 then 0 else (if IsCyrillicLetter(s[0]) then 1 else 0) + CyrillicCount(s[1..])
  }

  function LatinCount(s: string): nat
  {
    if |s| == 0 then 0 else (if IsLatinLetter(s[0]) then 1 else 0) + LatinCount(s[1..])
  }

  /** The decision on an already lower-cased, non-empty text: keyword and
    * letter signals first, letter counts as the fallback. */
  function Classify(t: string): (code: string)
    ensures IsLangCode(code)
    ensures UkrainianCharCount(t) > 2 || AnyIn(UkrainianWords, t) ==> code == "uk"
    ensures !(UkrainianCharCount(t) > 2 || AnyIn(UkrainianWords, t)) ==>
      (CountIn(EnglishWords, t) > CountIn(RussianWords, t) && CountIn(EnglishWords, t) > 0 ==> code == "en")
    ensures (&& !(UkrainianCharCount(t) > 2 || AnyIn(UkrainianWords, t))
             && !(CountIn(EnglishWords, t) > CountIn(RussianWords, t) && CountIn(EnglishWords, t) > 0)
             && CountIn(RussianWords, t) > 0) ==> code == "ru"
  {
    var ukrChars := UkrainianCharCount(t);
    var eng := CountIn(EnglishWords, t);
    var rus := CountIn(RussianWords, t);
    var ukr := CountIn(UkrainianWords, t);
    if ukrChars > 2 || ukr > 0 then "uk"
    else if eng > rus && eng > 0 then "en"
    else if rus > 0 then "ru"
    else if LatinCount(t) > CyrillicCount(t) then "en"
    else if ukrChars > 0 then "uk"
    else "ru"
  }

  /** `detect_language(text)`: 'ru' for an empty text, otherwise the
    * classification of the lower-cased text. */
  function DetectLanguage(text: string): (code: string)
    ensures IsLangCode(code)
    ensures text == "" ==> code == "ru"
  {
    if text == "" then "ru" else Classify(Lower(text))
  }

  /** Detection ignores case: a text and its lower-cased form agree. */
  lemma DetectIgnoresCase(text: string)
    ensures DetectLanguage(Lower(text)) == DetectLanguage(text)
  {
    LowerIdempotent(text);
  }

  /** When no keyword decides, the letter counts do: English iff Latin letters
    * outnumber Cyrillic ones, otherwise Ukrainian iff some Ukrainian letter. */
  lemma {:induction false} FallbackByLetters(text: string)
    requires text != ""
    requires UkrainianCharCount(Lower(text)) <= 2
    requires !AnyIn(UkrainianWords, Lower(text)) && !AnyIn(EnglishWords, Lower(text)) && !AnyIn(RussianWords, Lower(text))
    ensures DetectLanguage(text) == "en" <==> LatinCount(Lower(text)) > CyrillicCount(Lower(text))
    ensures DetectLanguage(text) == "uk" <==> LatinCount(Lower(text)) <= CyrillicCount(Lower(text)) && UkrainianCharCount(Lower(text)) > 0
  {
    var t := Lower(text);
    assert CountIn(EnglishWords, t) == 0 && CountIn(RussianWords, t) == 0 && CountIn(UkrainianWords, t) == 0;
  }

  /** Russian words spelt with ь and ю are read as Ukrainian: "пью чаю" has
    * three letters from the Ukrainian set. */
  lemma RussianReadAsUkrainian()
    ensures DetectLanguage("пью чаю") == "uk"
  {
    var t := Lower("пью чаю");
    assert t == "пью чаю";
    assert UkrainianCharCount(t) == 3;
  }

  /** Keywords match inside words: "this" contains "hi" and reads as English. */
  lemma KeywordInsideWord()
    ensures DetectLanguage("this") == "en"
  {
    var t := Lower("this");
    assert t == "this";
    assert UkrainianCharCount(t) == 0;
    assert IsPrefix("hi", t[1..]);
    assert Contains(t, "hi");
    assert EnglishWords[1] == "hi";
    assert AnyIn(EnglishWords, t);
    assert !AnyIn(UkrainianWords, t) by {
      forall i | 0 <= i < |UkrainianWords| ensures !Contains(t, UkrainianWords[i]) {
        NotContainsAbsentHead(t, UkrainianWords[i]);
      }
    }
    assert !AnyIn(RussianWords, t) by {
      forall i | 0 <= i < |RussianWords| ensures !Contains(t, RussianWords[i]) {
        NotContainsAbsentHead(t, RussianWords[i]);
      }
    }
  }
}
