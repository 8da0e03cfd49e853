/** The bot's tunable constants (config.py). */
module Config {
  import opened Lang

  /** Photos a candidate must upload before the screening questions. */
  const PhotosMin: nat := 2
  /** Photos a candidate may upload at most. */
  const PhotosMax: nat := 3
  /** A generated answer below this confidence goes to the operator. */
  const AiConfidenceThreshold: int := 70

  /** A forbidden topic and the keywords that reveal it. */
  datatype Topic = Topic(name: string, keywords: seq<string>)

  /** The topics seeded into the forbidden-topic table at start-up, in order. */
  const ForbiddenTopics: seq<Topic> := [
    Topic("politics", ["політика", "війна", "вибори", "президент", "уряд", "политика", "война", "выборы",
                       "правительство", "politics", "war", "election", "president", "government"]),
    Topic("religion", ["релігія", "бог", "іслам", "християнство", "церква", "религия", "ислам", "христианство",
                       "церковь", "religion", "god", "islam", "christianity", "church"]),
    Topic("psychology", ["депресія", "суїцид", "психолог", "травма", "розлад", "депрессия", "суицид",
                         "расстройство", "depression", "suicide", "psychologist", "trauma", "disorder"]),
    Topic("guarantees", ["гарантія доходу", "100% заробіток", "точна сума", "гарантия дохода", "100% заработок",
                         "точная сумма", "guaranteed income", "100% earnings", "exact amount"])
  ]

  /** The reply to a question on a forbidden topic. */
  const UniversalResponse: LangTable := LangTable(
    "Я консультирую только по вопросам работы в нашем приложении.\nЕсли есть вопросы по формату работы — с радостью отвечу 🙂",
    "Я консультую тільки з питань роботи в нашому застосунку.\nЯкщо є питання щодо формату роботи — з радістю відповім 🙂",
    "I only consult on questions about working in our application.\nIf you have questions about the work format — I'll be happy to answer 🙂")

  /** The photo bounds are consistent. */
  lemma PhotoBounds()
    ensures 0 < PhotosMin <= PhotosMax
  {
  }

  /** Four topics, each with a non-empty list of non-empty keywords. */
  lemma ForbiddenTopicsWellFormed()
    ensures |ForbiddenTopics| == 4
    ensures forall t :: t in ForbiddenTopics ==> |t.keywords| > 0 && forall k :: k in t.keywords ==> k != ""
  {
  }

  /** The universal response has a non-empty text for every language. */
  lemma UniversalResponseFilled()
    ensures Filled(UniversalResponse)
  {
  }
}
