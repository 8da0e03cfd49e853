/** The onboarding state machine as transitions of a world: the store, the
  * conversation state and state data of every user, the operator's own
  * conversation state, and the messages sent so far. Each handler of
  * handlers/user.py, handlers/screenshot.py, handlers/approval.py and
  * handlers/admin.py is one function from the world before the event to the
  * world after it; a handler whose state filter does not match the sender's
  * state leaves the world as it is. What the network answers (group
  * membership, delivery, the recognised ID, the backend) comes in as
  * parameters. */
module Onboarding {
  import opened Text
  import opened Lang
  import Config
  import opened Tables
  import opened Flow
  import Generation
  import Contextual
  import Keyboards
  import Reviews

  /** What the bot says; texts fixed in the handlers are named, not spelled. */
  datatype Note =
    | AdminGreeting | GroupWelcome | Welcome(text: string) | WelcomeBackInGroup | WelcomeBack
    | PhotoLimit | AlbumTooLarge(allowed: int) | NeedMorePhotos(remaining: nat) | AskWorkHours | AskExperience
    | ApplicationCard(user: nat, workHours: Option<string>, experience: string) | ApplicationPhotos(fileIds: seq<string>)
    | Decide(user: nat, keyboard: seq<seq<Keyboards.Button>>) | ApplicationSent
    | ReviewsSent | Answer(text: string) | Handoff | Forwarded
    | QuestionForOperator(user: nat, question: string, keyboard: seq<seq<Keyboards.Button>>)
    | FollowUpForOperator(user: nat, question: string, keyboard: seq<seq<Keyboards.Button>>)
    | ScreenshotForOperator(user: nat, id: Option<string>) | RegistrationSent | AskIdByText | ScreenshotError
    | TypedIdForOperator(user: nat, typed: string)
    | Instructions(text: string) | Rejection(text: string) | Decided(approved: bool)
    | AskAnswer(user: nat) | AnswerDelivered | DeliveryFailed
    | AskTopicName | AskKeywords | TopicAdded(name: string, keywords: seq<string>)
    | TopicsList(keyboard: seq<seq<Keyboards.Button>>) | StatsReport(stats: Stats, efficiency: nat)
    | Conversation(user: nat, shown: seq<Message>)

  /** A message and the chat it goes to. */
  datatype Output = Output(chat: int, note: Note)

  /** The operator's conversation state with its data. */
  datatype AdminMode = Idle | Answering(user: nat) | NamingTopic | ListingKeywords(name: string)

  /** Everything the handlers read and write. */
  datatype World = World(admin: nat, db: Db, fsm: map<int, UState>, workHours: map<int, string>, mode: AdminMode,
                         outbox: seq<Output>)

  /** Attempts of the resolver per question. */
  const Retries: nat := 3
  /** Messages of history the resolver reads. */
  const HistoryWindow: nat := 10

  // ---------------------------------------------------------------- small steps

  function Tell(w: World, chat: int, note: Note): World
  {
    w.(outbox := w.outbox + [Output(chat, note)])
  }

  function SetStatus(w: World, u: int, status: string, now: int): World
  {
    w.(db := UpdateUserStatus(w.db, u, status, now))
  }

  function Enter(w: World, u: int, s: UState): World
  {
    w.(fsm := w.fsm[u := s])
  }

  /** The sender's conversation state is `s`. */
  predicate In(w: World, u: int, s: UState)
  {
    u in w.fsm && w.fsm[u] == s
  }

  /** `is_user_rejected`: the user exists and is rejected. */
  predicate IsRejected(d: Db, u: int)
  {
    GetUser(d, u).Some? && GetUser(d, u).value.status == "rejected"
  }

  /** The guard of every user handler: the operator and rejected users get
    * nothing. */
  predicate Blocked(w: World, u: int)
  {
    u == w.admin || IsRejected(w.db, u)
  }

  /** The last messages of the user as the resolver reads them. */
  function History(d: Db, u: int): (h: seq<Contextual.Said>)
    ensures |h| == |GetMessages(d, u, HistoryWindow)|
    ensures forall k :: 0 <= k < |h| ==>
      h[k] == Contextual.Said(GetMessages(d, u, HistoryWindow)[k].role, GetMessages(d, u, HistoryWindow)[k].content)
  {
    var ms := GetMessages(d, u, HistoryWindow);
    seq(|ms|, k requires 0 <= k < |ms| => Contextual.Said(ms[k].role, ms[k].content))
  }

  /** `get_ai_response_with_retry(user_id, question)` on the store `d`. */
  function ResolverReply(d: Db, u: int, question: string, backend: nat -> Generation.Backend,
                         parse: string -> Option<Generation.Json>): Generation.Reply
  {
    Generation.ResponseWithRetry(question, History(d, u), TopicKeywords(d), Retries, backend, parse)
  }

  // ---------------------------------------------------------------- /start

  /** The username stored for a new user. */
  function StartName(u: nat, username: Option<string>): string
  {
    if username.Some? && username.value != "" then username.value else "user_" + NatToString(u)
  }

  /** `cmd_start`. `inGroup` is the membership answer (false when the query
    * fails); `welcome` is the stored welcome text. */
  function Start(w: World, u: nat, username: Option<string>, inGroup: bool, welcome: string, now: int): World
  {
    if u == w.admin then Tell(w, u, AdminGreeting)
    else
      var user := GetUser(w.db, u);
      var w1 := if inGroup then w.(db := AddUserToGroups(w.db, u)) else w;
      match StartDecision(user, inGroup)
      case Ignored => w1
      case NewInGroup =>
        (match CreateUser(w1.db, u, StartName(u, username), now)
         case None => w1
         case Some(d) => Tell(Enter(SetStatus(w1.(db := d), u, "registered", now), u, Registered), u, GroupWelcome))
      case NewChatting =>
        (match CreateUser(w1.db, u, StartName(u, username), now)
         case None => w1
         case Some(d) => Tell(Enter(SetStatus(w1.(db := d), u, "chatting", now), u, Chatting), u, Welcome(welcome)))
      case BackInGroup => Tell(Enter(SetStatus(w1, u, "registered", now), u, Registered), u, WelcomeBackInGroup)
      case Restored(s) => Enter(Tell(w1, u, WelcomeBack), u, s)
  }

  /** A first `/start` creates the user and leaves them registered when in
    * the group, chatting otherwise, with the state to match. */
  lemma StartNewUser(w: World, u: nat, username: Option<string>, inGroup: bool, welcome: string, now: int)
    requires u != w.admin && GetUser(w.db, u).None?
    ensures var w2 := Start(w, u, username, inGroup, welcome, now);
      var s := if inGroup then Registered else Chatting;
      GetUser(w2.db, u).Some? && GetUser(w2.db, u).value.status == StatusOf(s) && w2.fsm == w.fsm[u := s] &&
      GetUser(w2.db, u).value.photosCount == 0 && GetUser(w2.db, u).value.inGroups == false
  {
    AddUserToGroupsEffect(w.db, u, u);
    if inGroup {
      var w1 := w.(db := AddUserToGroups(w.db, u));
      assert GetUser(w1.db, u).None?;
      var d := CreateUser(w1.db, u, StartName(u, username), now).value;
      UpdateUserStatusEffect(d, u, "registered", now, u);
      assert Start(w, u, username, inGroup, welcome, now) ==
        Tell(Enter(SetStatus(w1.(db := d), u, "registered", now), u, Registered), u, GroupWelcome);
    } else {
      var d := CreateUser(w.db, u, StartName(u, username), now).value;
      UpdateUserStatusEffect(d, u, "chatting", now, u);
      assert Start(w, u, username, inGroup, welcome, now) ==
        Tell(Enter(SetStatus(w.(db := d), u, "chatting", now), u, Chatting), u, Welcome(welcome));
    }
  }

  /** `/start` from a rejected user changes nothing but the group flag. */
  lemma StartRejected(w: World, u: nat, username: Option<string>, inGroup: bool, welcome: string, now: int)
    requires u != w.admin && IsRejected(w.db, u)
    ensures Start(w, u, username, inGroup, welcome, now) == (if inGroup then w.(db := AddUserToGroups(w.db, u)) else w)
  {
  }

  // ---------------------------------------------------------------- photos

  /** Save a sequence of photos one after the other. */
  function SavePhotos(d: Db, u: int, fileIds: seq<string>): Db
    decreases |fileIds|
  {
    if |fileIds| == 0 then d else SavePhotos(SavePhoto(d, u, fileIds[0]), u, fileIds[1..])
  }

  /** Saving photos adds them in order and raises the counter by their
    * number. */
  lemma {:induction false} SavePhotosEffect(d: Db, u: int, fileIds: seq<string>)
    requires GetUser(d, u).Some?
    ensures GetUser(SavePhotos(d, u, fileIds), u).Some?
    ensures GetUser(SavePhotos(d, u, fileIds), u).value.photosCount == GetUser(d, u).value.photosCount + |fileIds|
    ensures GetPhotos(SavePhotos(d, u, fileIds), u) == GetPhotos(d, u) + fileIds
    decreases |fileIds|
  {
    if |fileIds| > 0 {
      var d1 := SavePhoto(d, u, fileIds[0]);
      SavePhotoEffect(d, u, fileIds[0], u);
      SavePhotosEffect(d1, u, fileIds[1..]);
      assert SavePhotos(d, u, fileIds) == SavePhotos(d1, u, fileIds[1..]);
      assert (GetPhotos(d, u) + [fileIds[0]]) + fileIds[1..] == GetPhotos(d, u) + fileIds;
    }
  }

  /** After a save: ask for the missing photos, or go on to the questions. */
  function AfterPhotos(w: World, u: int, count: nat, now: int): World
  {
    if PhotosStillNeeded(count) > 0 then Tell(w, u, NeedMorePhotos(PhotosStillNeeded(count)))
    else Tell(Enter(SetStatus(w, u, "asking_work_hours", now), u, AskingWorkHours), u, AskWorkHours)
  }

  /** Moving on after a save keeps the photos and the counter. */
  lemma AfterPhotosKeeps(w: World, u: int, count: nat, now: int)
    requires GetUser(w.db, u).Some?
    ensures GetPhotos(AfterPhotos(w, u, count, now).db, u) == GetPhotos(w.db, u)
    ensures GetUser(AfterPhotos(w, u, count, now).db, u).Some?
    ensures GetUser(AfterPhotos(w, u, count, now).db, u).value.photosCount == GetUser(w.db, u).value.photosCount
    ensures In(AfterPhotos(w, u, count, now), u, AskingWorkHours) <==> count >= Config.PhotosMin || In(w, u, AskingWorkHours)
    ensures count < Config.PhotosMin ==> AfterPhotos(w, u, count, now).fsm == w.fsm
  {
    UpdateUserStatusEffect(w.db, u, "asking_work_hours", now, u);
  }

  /** `handle_photo_in_chatting` for a photo outside an album. */
  function Photo(w: World, u: int, fileId: string, now: int): World
  {
    if !In(w, u, Chatting) || Blocked(w, u) || GetUser(w.db, u).None? then w
    else match SinglePhoto(GetUser(w.db, u).value.photosCount)
      case LimitReached => Tell(w, u, PhotoLimit)
      case Saved(c) => AfterPhotos(w.(db := SavePhoto(w.db, u, fileId)), u, c, now)
  }

  /** `handle_photo_in_chatting` for an album, delivered as one event. */
  function AlbumPhotos(w: World, u: int, fileIds: seq<string>, now: int): World
  {
    if !In(w, u, Chatting) || Blocked(w, u) || GetUser(w.db, u).None? then w
    else match Album(GetUser(w.db, u).value.photosCount, |fileIds|)
      case AlbumLimitReached => Tell(w, u, PhotoLimit)
      case TooMany(allowed) => Tell(w, u, AlbumTooLarge(allowed))
      case AlbumSaved(_) =>
        var d := SavePhotos(w.db, u, fileIds);
        match GetUser(d, u)
        case None => w.(db := d)
        case Some(after) => AfterPhotos(w.(db := d), u, after.photosCount, now)
  }

  /** A photo is refused once PHOTOS_MAX are stored; otherwise it is stored
    * and the counter rises by exactly one, and the user moves on to the
    * questions exactly when the counter reaches PHOTOS_MIN. */
  lemma PhotoEffect(w: World, u: int, fileId: string, now: int)
    requires In(w, u, Chatting) && !Blocked(w, u) && GetUser(w.db, u).Some?
    ensures var before := GetUser(w.db, u).value.photosCount;
      var w2 := Photo(w, u, fileId, now);
      GetUser(w2.db, u).Some? &&
      (before >= Config.PhotosMax ==> w2.db == w.db && w2.fsm == w.fsm) &&
      (before < Config.PhotosMax ==>
        GetPhotos(w2.db, u) == GetPhotos(w.db, u) + [fileId] &&
        GetUser(w2.db, u).value.photosCount == before + 1 &&
        (In(w2, u, AskingWorkHours) <==> before + 1 >= Config.PhotosMin) &&
        (before + 1 < Config.PhotosMin ==> w2.fsm == w.fsm))
  {
    var before := GetUser(w.db, u).value.photosCount;
    if before < Config.PhotosMax {
      SavePhotoEffect(w.db, u, fileId, u);
      AfterPhotosKeeps(w.(db := SavePhoto(w.db, u, fileId)), u, before + 1, now);
    }
  }

  /** An album is stored whole or not at all: nothing is saved when the
    * stored count plus the album size exceeds PHOTOS_MAX. An album that fits
    * is saved photo by photo, and then the user moves on to the questions
    * exactly when the counter has reached PHOTOS_MIN. */
  lemma AlbumAllOrNothing(w: World, u: int, fileIds: seq<string>, now: int)
    requires In(w, u, Chatting) && !Blocked(w, u) && GetUser(w.db, u).Some?
    ensures var before := GetUser(w.db, u).value.photosCount;
      var w2 := AlbumPhotos(w, u, fileIds, now);
      (before + |fileIds| > Config.PhotosMax ==> w2.db == w.db && w2.fsm == w.fsm) &&
      (before + |fileIds| <= Config.PhotosMax ==>
        GetPhotos(w2.db, u) == GetPhotos(w.db, u) + fileIds &&
        GetUser(w2.db, u).Some? && GetUser(w2.db, u).value.photosCount == before + |fileIds|) &&
      (0 < |fileIds| && before + |fileIds| <= Config.PhotosMax ==>
        (In(w2, u, AskingWorkHours) <==> before + |fileIds| >= Config.PhotosMin) &&
        (before + |fileIds| < Config.PhotosMin ==> w2.fsm == w.fsm))
  {
    var before := GetUser(w.db, u).value.photosCount;
    if before + |fileIds| <= Config.PhotosMax {
      var d := SavePhotos(w.db, u, fileIds);
      SavePhotosEffect(w.db, u, fileIds);
      AfterPhotosKeeps(w.(db := d), u, GetUser(d, u).value.photosCount, now);
    }
  }

  // ---------------------------------------------------------------- screening questions

  /** `handle_work_hours`. */
  function WorkHours(w: World, u: int, text: string, now: int): World
  {
    if !In(w, u, AskingWorkHours) || Blocked(w, u) then w
    else Tell(Enter(SetStatus(w.(workHours := w.workHours[u := text]), u, "asking_experience", now), u, AskingExperience),
              u, AskExperience)
  }

  /** `handle_experience`: the application, then the card for the operator
    * with the photos and the decision keyboard. */
  function Experience(w: World, u: nat, text: string, now: int): World
  {
    if !In(w, u, AskingExperience) || Blocked(w, u) then w
    else
      var hours := if u in w.workHours then Some(w.workHours[u]) else None;
      var w1 := Enter(SetStatus(w.(db := CreateApplication(w.db, u, hours, text)), u, "pending_review", now), u, PendingReview);
      if GetUser(w1.db, u).None? then w1
      else
        var photos := GetPhotos(w1.db, u);
        var w2 := Tell(w1, w.admin, ApplicationCard(u, hours, text));
        var w3 := if |photos| > 0 then Tell(w2, w.admin, ApplicationPhotos(photos)) else w2;
        Tell(Tell(w3, w.admin, Decide(u, Keyboards.ReviewKeyboard(u))), u, ApplicationSent)
  }

  /** The two answers end up in one pending application, and the user waits
    * for review; the decision keyboard names this user. */
  lemma ScreeningEffect(w: World, u: nat, hours: string, experience: string, now: int, later: int)
    requires In(w, u, AskingWorkHours) && !Blocked(w, u)
    ensures In(WorkHours(w, u, hours, now), u, AskingExperience)
    ensures var w2 := Experience(WorkHours(w, u, hours, now), u, experience, later);
      In(w2, u, PendingReview) &&
      w2.db.applications == WorkHours(w, u, hours, now).db.applications + [Application(u, Some(hours), experience, "pending")]
  {
    UpdateUserStatusEffect(w.db, u, "asking_experience", now, u);
  }

  /** The decision keyboard sent with an application decodes to its user. */
  lemma DecisionKeyboardNamesUser(u: nat)
    ensures Keyboards.CallbackId(Keyboards.ReviewKeyboard(u)[0][0].data, 1) == Some(u)
    ensures Keyboards.CallbackId(Keyboards.ReviewKeyboard(u)[0][1].data, 1) == Some(u)
  {
  }

  // ---------------------------------------------------------------- questions

  /** Which of the three question handlers runs. */
  datatype Asked = InChatting | InRegistered | InRegistration

  function StateOfAsked(a: Asked): UState
  {
    match a
    case InChatting => Chatting
    case InRegistered => Registered
    case InRegistration => HelpingRegistration
  }

  /** The store after the resolver answered on its own: the answer is kept as
    * a bot message and logged as an automatic answer. */
  function AutoAnswered(d: Db, u: int, question: string, r: Generation.Reply): Db
  {
    SaveAiLearning(SaveMessage(d, u, "bot", r.answer), question, r.answer, "auto", r.confidence)
  }

  /** The store the resolver reads: the question saved as a user message,
    * and for a registered user not yet flagged, the group flag set when the
    * membership answer is yes. */
  function Prepared(d: Db, u: int, question: string, asked: Asked, inGroup: bool): Db
  {
    var d1 := SaveMessage(d, u, "user", question);
    if asked == InRegistered && !IsUserInGroups(d1, u) && inGroup then AddUserToGroups(d1, u) else d1
  }

  /** Preparing saves the question and keeps everything else the handlers
    * read: the user's status, the kept question and the log. */
  lemma PreparedKeeps(d: Db, u: int, question: string, asked: Asked, inGroup: bool)
    requires GetUser(d, u).Some?
    ensures var p := Prepared(d, u, question, asked, inGroup);
      GetUser(p, u).Some? && GetUser(p, u).value.status == GetUser(d, u).value.status &&
      p.pending == d.pending && p.learning == d.learning &&
      GetUserConversations(p, u) == GetUserConversations(d, u) + [Message(u, "user", question)]
  {
    var d1 := SaveMessage(d, u, "user", question);
    AddUserToGroupsEffect(d1, u, u);
    SaveMessageConversation(d, u, "user", question, u);
  }

  /** The escalation branch: a user in chatting or registered moves to
    * waiting_admin, the question is kept, and the operator and the user are
    * told (a missing user fails on its username before that). */
  function HandOff(w: World, u: nat, question: string, asked: Asked, now: int): World
  {
    var w3 := if asked == InRegistration then w else Enter(SetStatus(w, u, "waiting_admin", now), u, WaitingAdmin);
    var w4 := w3.(db := SavePendingQuestion(w3.db, u, question));
    if GetUser(w4.db, u).None? then w4
    else Tell(Tell(w4, w.admin, QuestionForOperator(u, question, Keyboards.AnswerKeyboard(u))), u, Handoff)
  }

  /** The hand-off keeps the question, leaves the log, moves a user outside
    * registration help to waiting_admin, and tells the operator and then
    * the user. */
  lemma HandOffEffect(w: World, u: nat, question: string, asked: Asked, now: int)
    requires GetUser(w.db, u).Some?
    ensures var w2 := HandOff(w, u, question, asked, now);
      GetPendingQuestion(w2.db, u) == Some(question) && w2.db.learning == w.db.learning && GetUser(w2.db, u).Some? &&
      (asked != InRegistration ==> GetUser(w2.db, u).value.status == "waiting_admin" && In(w2, u, WaitingAdmin)) &&
      (asked == InRegistration ==> GetUser(w2.db, u).value.status == GetUser(w.db, u).value.status && w2.fsm == w.fsm) &&
      w2.outbox == w.outbox + [Output(w.admin, QuestionForOperator(u, question, Keyboards.AnswerKeyboard(u))),
                               Output(u, Handoff)]
  {
    UpdateUserStatusEffect(w.db, u, "waiting_admin", now, u);
  }

  /** `handle_question`, `handle_registered_user` and
    * `handle_registration_questions`. `inGroup` is the membership answer the
    * registered handler asks for when the flag is not set. */
  function Question(w: World, u: nat, question: string, asked: Asked, inGroup: bool,
                    backend: nat -> Generation.Backend, parse: string -> Option<Generation.Json>, now: int): World
  {
    if !In(w, u, StateOfAsked(asked)) || Blocked(w, u) then w
    else if Reviews.IsReviewRequest(question) then Tell(w, u, ReviewsSent)
    else
      var d2 := Prepared(w.db, u, question, asked, inGroup);
      var r := ResolverReply(d2, u, question, backend, parse);
      if Escalates(r) then HandOff(w.(db := d2), u, question, asked, now)
      else Tell(w.(db := AutoAnswered(d2, u, question, r)), u, Answer(r.answer))
  }

  /** A review request is answered with reviews and neither saved nor
    * resolved. */
  lemma ReviewRequestNotSaved(w: World, u: nat, question: string, asked: Asked, inGroup: bool,
                              backend: nat -> Generation.Backend, parse: string -> Option<Generation.Json>, now: int)
    requires In(w, u, StateOfAsked(asked)) && !Blocked(w, u) && Reviews.IsReviewRequest(question)
    ensures Question(w, u, question, asked, inGroup, backend, parse, now) == Tell(w, u, ReviewsSent)
  {
  }

  /** The question is saved before the resolver runs, so the history it reads
    * ends with the question. */
  lemma QuestionSavedFirst(d: Db, u: int, question: string)
    ensures var h := History(SaveMessage(d, u, "user", question), u);
      |h| > 0 && h[|h| - 1] == Contextual.Said("user", question)
  {
    NewestMessageInWindow(d, u, "user", question, HistoryWindow);
  }

  /** On escalation the question is kept for the operator and nothing is
    * logged; a user in chatting or registered now waits for the operator,
    * while a user being helped with registration keeps status and state.
    * The operator gets the question with an answer button, then the user is
    * told it was passed on. */
  lemma QuestionEscalated(w: World, u: nat, question: string, asked: Asked, inGroup: bool,
                          backend: nat -> Generation.Backend, parse: string -> Option<Generation.Json>, now: int)
    requires In(w, u, StateOfAsked(asked)) && !Blocked(w, u) && !Reviews.IsReviewRequest(question)
    requires GetUser(w.db, u).Some?
    requires Escalates(ResolverReply(Prepared(w.db, u, question, asked, inGroup), u, question, backend, parse))
    ensures var w2 := Question(w, u, question, asked, inGroup, backend, parse, now);
      GetPendingQuestion(w2.db, u) == Some(question) && w2.db.learning == w.db.learning && GetUser(w2.db, u).Some? &&
      (asked != InRegistration ==> GetUser(w2.db, u).value.status == "waiting_admin" && In(w2, u, WaitingAdmin)) &&
      (asked == InRegistration ==> GetUser(w2.db, u).value.status == GetUser(w.db, u).value.status && w2.fsm == w.fsm) &&
      w2.outbox == w.outbox + [Output(w.admin, QuestionForOperator(u, question, Keyboards.AnswerKeyboard(u))),
                               Output(u, Handoff)]
  {
    var d2 := Prepared(w.db, u, question, asked, inGroup);
    PreparedKeeps(w.db, u, question, asked, inGroup);
    UpdateUserStatusEffect(d2, u, "waiting_admin", now, u);
    HandOffEffect(w.(db := d2), u, question, asked, now);
  }

  /** Otherwise the answer is sent to the user, kept as a bot message and
    * logged as automatic; no question is kept, and status and state stay. */
  lemma QuestionAnswered(w: World, u: nat, question: string, asked: Asked, inGroup: bool,
                         backend: nat -> Generation.Backend, parse: string -> Option<Generation.Json>, now: int)
    requires In(w, u, StateOfAsked(asked)) && !Blocked(w, u) && !Reviews.IsReviewRequest(question)
    requires GetUser(w.db, u).Some?
    requires !Escalates(ResolverReply(Prepared(w.db, u, question, asked, inGroup), u, question, backend, parse))
    ensures var r := ResolverReply(Prepared(w.db, u, question, asked, inGroup), u, question, backend, parse);
      var w2 := Question(w, u, question, asked, inGroup, backend, parse, now);
      w2.db.pending == w.db.pending &&
      w2.db.learning == w.db.learning + [Learning(question, r.answer, "auto", r.confidence)] &&
      GetUser(w2.db, u).Some? && GetUser(w2.db, u).value.status == GetUser(w.db, u).value.status && w2.fsm == w.fsm &&
      GetUserConversations(w2.db, u) ==
        GetUserConversations(w.db, u) + [Message(u, "user", question), Message(u, "bot", r.answer)] &&
      w2.outbox == w.outbox + [Output(u, Answer(r.answer))]
  {
    var d2 := Prepared(w.db, u, question, asked, inGroup);
    PreparedKeeps(w.db, u, question, asked, inGroup);
    var r := ResolverReply(d2, u, question, backend, parse);
    var w2 := Question(w, u, question, asked, inGroup, backend, parse, now);
    var d3 := SaveMessage(d2, u, "bot", r.answer);
    assert w2 == Tell(w.(db := AutoAnswered(d2, u, question, r)), u, Answer(r.answer));
    assert w2.db == d3.(learning := d3.learning + [Learning(question, r.answer, "auto", r.confidence)]);
    assert w2.db.users == d2.users && w2.db.pending == d2.pending && w2.db.messages == d3.messages;
    SaveMessageConversation(d2, u, "bot", r.answer, u);
    var c := GetUserConversations(w.db, u);
    assert GetUserConversations(w2.db, u) == GetUserConversations(d3, u);
    assert (c + [Message(u, "user", question)]) + [Message(u, "bot", r.answer)] ==
      c + [Message(u, "user", question), Message(u, "bot", r.answer)];
  }

  /** `handle_waiting_admin`: the follow-up is saved and forwarded; the
    * resolver is not asked and the kept question is not replaced. */
  function WaitingAdminText(w: World, u: nat, question: string): World
  {
    if !In(w, u, WaitingAdmin) || Blocked(w, u) then w
    else if Reviews.IsReviewRequest(question) then Tell(w, u, ReviewsSent)
    else
      var w1 := Tell(w.(db := SaveMessage(w.db, u, "user", question)), u, Forwarded);
      if GetUser(w1.db, u).None? then w1
      else Tell(w1, w.admin, FollowUpForOperator(u, question, Keyboards.AnswerKeyboard(u)))
  }

  /** A follow-up while waiting for the operator is acknowledged and
    * forwarded to the operator with an answer button; the kept question,
    * the log, the users and the states stay. */
  lemma WaitingAdminKeepsQuestion(w: World, u: nat, question: string)
    ensures var w2 := WaitingAdminText(w, u, question);
      GetPendingQuestion(w2.db, u) == GetPendingQuestion(w.db, u) && w2.db.learning == w.db.learning &&
      w2.db.users == w.db.users && w2.fsm == w.fsm
    ensures In(w, u, WaitingAdmin) && !Blocked(w, u) && !Reviews.IsReviewRequest(question) && GetUser(w.db, u).Some? ==>
      WaitingAdminText(w, u, question).outbox ==
        w.outbox + [Output(u, Forwarded), Output(w.admin, FollowUpForOperator(u, question, Keyboards.AnswerKeyboard(u)))]
  {
  }

  // ---------------------------------------------------------------- screenshots

  /** The common part of `handle_screenshot`; the user row is read after the
    * image, so a missing row fails like the image. */
  function Screenshot(w: World, u: nat, recognised: Option<string>, caption: Option<string>, failure: bool, now: int): World
  {
    if IsRejected(w.db, u) then w
    else match ScreenshotDecision(recognised, caption, failure || GetUser(w.db, u).None?)
      case Failed => Tell(w, u, ScreenshotError)
      case ByRecognition(id) =>
        Tell(Enter(SetStatus(Tell(w, w.admin, ScreenshotForOperator(u, Some(id))), u, "registered", now), u, Registered),
             u, RegistrationSent)
      case ByCaption(id) =>
        Tell(Enter(SetStatus(Tell(w, w.admin, ScreenshotForOperator(u, Some(id))), u, "registered", now), u, Registered),
             u, RegistrationSent)
      case AskForId => Tell(Tell(w, w.admin, ScreenshotForOperator(u, None)), u, AskIdByText)
  }

  /** A photo in waiting_screenshot (no operator check in this handler). */
  function ScreenshotInWaiting(w: World, u: nat, recognised: Option<string>, caption: Option<string>, failure: bool,
                               now: int): World
  {
    if !In(w, u, WaitingScreenshot) then w else Screenshot(w, u, recognised, caption, failure, now)
  }

  /** A photo in helping_registration or registered: first to
    * waiting_screenshot, then the screenshot handler. */
  function PhotoAsScreenshot(w: World, u: nat, recognised: Option<string>, caption: Option<string>, failure: bool,
                             now: int): World
  {
    if !(In(w, u, HelpingRegistration) || In(w, u, Registered)) || Blocked(w, u) then w
    else Screenshot(Enter(SetStatus(w, u, "waiting_screenshot", now), u, WaitingScreenshot), u, recognised, caption, failure, now)
  }

  /** A screenshot registers the user exactly when an ID was recognised or
    * the stripped caption is one, and the operator gets it with that ID;
    * otherwise status and state stay, and the user is asked to type the ID
    * (the operator getting the screenshot without one) or, on a failure,
    * told of the error. */
  lemma ScreenshotEffect(w: World, u: nat, recognised: Option<string>, caption: Option<string>, failure: bool, now: int)
    requires In(w, u, WaitingScreenshot) && !IsRejected(w.db, u) && GetUser(w.db, u).Some?
    ensures var w2 := ScreenshotInWaiting(w, u, recognised, caption, failure, now);
      var accepted := !failure && ((recognised.Some? && recognised.value != "") ||
                                   (caption.Some? && AcceptsId(Strip(caption.value))));
      (accepted ==> GetUser(w2.db, u).Some? && GetUser(w2.db, u).value.status == "registered" && In(w2, u, Registered)) &&
      (!accepted ==> w2.db == w.db && w2.fsm == w.fsm) &&
      (accepted ==>
        var id := if recognised.Some? && recognised.value != "" then recognised.value else Strip(caption.value);
        w2.outbox == w.outbox + [Output(w.admin, ScreenshotForOperator(u, Some(id))), Output(u, RegistrationSent)]) &&
      (failure ==> w2.outbox == w.outbox + [Output(u, ScreenshotError)]) &&
      (!failure && !accepted ==>
        w2.outbox == w.outbox + [Output(w.admin, ScreenshotForOperator(u, None)), Output(u, AskIdByText)])
  {
    var step := ScreenshotDecision(recognised, caption, failure);
    ScreenshotRegisters(recognised, caption, failure);
    assert (failure || GetUser(w.db, u).None?) == failure;
    var w2 := ScreenshotInWaiting(w, u, recognised, caption, failure, now);
    if step.ByRecognition? || step.ByCaption? {
      assert w2.db == UpdateUserStatus(w.db, u, "registered", now) && w2.fsm == w.fsm[u := Registered];
      UpdateUserStatusEffect(w.db, u, "registered", now, u);
    } else {
      assert w2.db == w.db && w2.fsm == w.fsm;
    }
  }

  /** After the redirect an unrecognised screenshot leaves the user in
    * waiting_screenshot. */
  lemma RedirectThenUnrecognised(w: World, u: nat, caption: Option<string>, now: int)
    requires (In(w, u, HelpingRegistration) || In(w, u, Registered)) && !Blocked(w, u) && GetUser(w.db, u).Some?
    requires caption.None? || !AcceptsId(Strip(caption.value))
    ensures var w2 := PhotoAsScreenshot(w, u, None, caption, false, now);
      GetUser(w2.db, u).Some? && GetUser(w2.db, u).value.status == "waiting_screenshot" && In(w2, u, WaitingScreenshot)
  {
    var w1 := Enter(SetStatus(w, u, "waiting_screenshot", now), u, WaitingScreenshot);
    UpdateUserStatusEffect(w.db, u, "waiting_screenshot", now, u);
    assert !IsRejected(w1.db, u) && GetUser(w1.db, u).Some?;
    assert ScreenshotDecision(None, caption, false) == AskForId;
    assert PhotoAsScreenshot(w, u, None, caption, false, now) ==
      Tell(Tell(w1, w.admin, ScreenshotForOperator(u, None)), u, AskIdByText);
  }

  /** `handle_manual_id`: an acceptable typed ID registers the user; anything
    * else is ignored without a word. */
  function TypedId(w: World, u: nat, text: string, now: int): World
  {
    if !In(w, u, WaitingScreenshot) || IsRejected(w.db, u) then w
    else
      var id := Strip(text);
      if !AcceptsId(id) || GetUser(w.db, u).None? then w
      else Tell(Enter(SetStatus(Tell(w, w.admin, TypedIdForOperator(u, id)), u, "registered", now), u, Registered),
                u, RegistrationSent)
  }

  lemma TypedIdEffect(w: World, u: nat, text: string, now: int)
    requires In(w, u, WaitingScreenshot) && !IsRejected(w.db, u) && GetUser(w.db, u).Some?
    ensures AcceptsId(Strip(text)) ==>
      GetUser(TypedId(w, u, text, now).db, u).Some? &&
      GetUser(TypedId(w, u, text, now).db, u).value.status == "registered" && In(TypedId(w, u, text, now), u, Registered)
    ensures !AcceptsId(Strip(text)) ==> TypedId(w, u, text, now) == w
  {
    UpdateUserStatusEffect(w.db, u, "registered", now, u);
  }

  // ---------------------------------------------------------------- decisions

  /** `approve_application`; the callback carries "approve_{id}". */
  function Approve(w: World, data: string, now: int): World
  {
    if !IsPrefix("approve_", data) then w
    else match Keyboards.CallbackId(data, 1)
      case None => w
      case Some(u) =>
        var d := UpdateUserStatus(UpdateApplicationStatus(w.db, u, "approved"), u, "approved", now);
        var lang := InstructionLanguage(GetUser(d, u));
        var part1 := Pick(InstructionPart1, lang);
        var part2 := Pick(InstructionPart2, lang);
        var d2 := SaveMessage(SaveMessage(d, u, "bot", PhotoInstructionRecord(part1)), u, "bot", part2);
        Tell(Tell(Tell(w.(db := d2, fsm := w.fsm[u := HelpingRegistration]), u, Instructions(part1)),
                  u, Instructions(part2)), w.admin, Decided(true))
  }

  /** `reject_application`; `rejection` is the stored rejection text. */
  function Reject(w: World, data: string, rejection: string, now: int): World
  {
    if !IsPrefix("reject_", data) then w
    else match Keyboards.CallbackId(data, 1)
      case None => w
      case Some(u) =>
        var d := UpdateUserStatus(UpdateApplicationStatus(w.db, u, "rejected"), u, "rejected", now);
        Tell(Tell(w.(db := SaveMessage(d, u, "bot", rejection), fsm := w.fsm[u := Rejected]), u, Rejection(rejection)),
             w.admin, Decided(false))
  }

  /** The decision callbacks start with the prefixes the handlers filter on. */
  lemma DataPrefixes(u: nat)
    ensures IsPrefix("approve_", Keyboards.ApproveData(u)) && IsPrefix("reject_", Keyboards.RejectData(u))
    ensures IsPrefix("answer_", Keyboards.AnswerData(u)) && IsPrefix("delete_topic_", Keyboards.DeleteTopicData(u))
  {
    assert Keyboards.ApproveData(u)[..8] == "approve_";
    assert Keyboards.RejectData(u)[..7] == "reject_";
    assert Keyboards.AnswerData(u)[..7] == "answer_";
    assert Keyboards.DeleteTopicData(u)[..13] == "delete_topic_";
  }

  /** Approving the user of a review keyboard decides that user's pending
    * applications, sets status approved and state helping_registration. */
  lemma ApproveEffect(w: World, u: nat, now: int)
    requires GetUser(w.db, u).Some?
    ensures var w2 := Approve(w, Keyboards.ApproveData(u), now);
      w2.db.applications == UpdateApplicationStatus(w.db, u, "approved").applications &&
      GetUser(w2.db, u).Some? && GetUser(w2.db, u).value.status == "approved" && In(w2, u, HelpingRegistration)
  {
    Keyboards.ReviewRoundTrip(u);
    DataPrefixes(u);
    UpdateUserStatusEffect(UpdateApplicationStatus(w.db, u, "approved"), u, "approved", now, u);
  }

  /** Rejecting sets status and state rejected, after which every user
    * handler ignores the user. */
  lemma RejectEffect(w: World, u: nat, rejection: string, now: int)
    requires GetUser(w.db, u).Some?
    ensures var w2 := Reject(w, Keyboards.RejectData(u), rejection, now);
      w2.db.applications == UpdateApplicationStatus(w.db, u, "rejected").applications &&
      IsRejected(w2.db, u) && In(w2, u, Rejected) && Blocked(w2, u)
  {
    Keyboards.ReviewRoundTrip(u);
    DataPrefixes(u);
    UpdateUserStatusEffect(UpdateApplicationStatus(w.db, u, "rejected"), u, "rejected", now, u);
  }

  /** A second decision leaves the applications as the first left them but
    * still overwrites the status. */
  lemma SecondDecision(w: World, u: nat, rejection: string, now: int, later: int)
    requires GetUser(w.db, u).Some?
    ensures var w1 := Approve(w, Keyboards.ApproveData(u), now);
      var w2 := Reject(w1, Keyboards.RejectData(u), rejection, later);
      w2.db.applications == w1.db.applications && IsRejected(w2.db, u)
  {
    var w1 := Approve(w, Keyboards.ApproveData(u), now);
    ApproveEffect(w, u, now);
    RejectEffect(w1, u, rejection, later);
    DecisionIsFinal(w.db, u, "approved", "rejected");
    SameApplications(w1.db, UpdateApplicationStatus(w.db, u, "approved"), u, "rejected");
  }

  /** A decision reads nothing but the applications. */
  lemma SameApplications(d: Db, e: Db, u: int, status: string)
    requires d.applications == e.applications
    ensures UpdateApplicationStatus(d, u, status).applications == UpdateApplicationStatus(e, u, status).applications
  {
  }

  // ---------------------------------------------------------------- the operator

  /** `admin_answer_callback`; the callback carries "answer_{id}". */
  function AnswerCallback(w: World, sender: int, data: string): World
  {
    if !IsPrefix("answer_", data) || sender != w.admin then w
    else match Keyboards.CallbackId(data, 1)
      case None => w
      case Some(u) => Tell(w.(mode := Answering(u)), w.admin, AskAnswer(u))
  }

  /** `admin_answer_text`. `delivered` is false when sending to the user
    * fails. */
  function AnswerText(w: World, sender: int, answer: string, delivered: bool, now: int): World
  {
    if !w.mode.Answering? || sender != w.admin then w
    else
      var u := w.mode.user;
      var q := GetPendingQuestion(w.db, u);
      var d1 := if q.Some? && q.value != "" then DeletePendingQuestion(SaveAiLearning(w.db, q.value, answer, "admin", 100), u)
                else w.db;
      if !delivered then Tell(w.(db := d1, mode := Idle), w.admin, DeliveryFailed)
      else
        var d2 := SaveMessage(d1, u, "bot", answer);
        match GetUser(d2, u)
        case None => Tell(w.(db := d2, mode := Idle), w.admin, DeliveryFailed)
        case Some(user) =>
          var s := ResumeStatus(user.status);
          Tell(w.(db := UpdateUserStatus(d2, u, s, now), fsm := w.fsm[u := StateForStatus(s)], mode := Idle),
               w.admin, AnswerDelivered)
  }

  /** The operator's answer closes the handoff: a kept question is logged
    * with the answer as the operator's (confidence 100) and removed before
    * delivery, and without one the log and the kept questions stay; after
    * delivery the user resumes as registered or chatting by the resume rule,
    * whether or not a question was kept; a failed delivery, or a user
    * without a row, changes no status. */
  lemma AnswerEffect(w: World, answer: string, delivered: bool, now: int)
    requires w.mode.Answering?
    ensures var u := w.mode.user;
      var q := GetPendingQuestion(w.db, u);
      var w2 := AnswerText(w, w.admin, answer, delivered, now);
      && w2.mode == Idle
      && (q.Some? && q.value != "" ==>
            w2.db.learning == w.db.learning + [Learning(q.value, answer, "admin", 100)] &&
            GetPendingQuestion(w2.db, u) == None)
      && (!(q.Some? && q.value != "") ==>
            w2.db.learning == w.db.learning && w2.db.pending == w.db.pending)
      && (delivered && GetUser(w.db, u).Some? ==>
            GetUser(w2.db, u).Some? && GetUser(w2.db, u).value.status == ResumeStatus(GetUser(w.db, u).value.status) &&
            In(w2, u, if ResumeStatus(GetUser(w.db, u).value.status) == "registered" then Registered else Chatting))
      && (!delivered || GetUser(w.db, u).None? ==> w2.db.users == w.db.users && w2.fsm == w.fsm)
  {
    var u := w.mode.user;
    var q := GetPendingQuestion(w.db, u);
    var d1 := if q.Some? && q.value != "" then DeletePendingQuestion(SaveAiLearning(w.db, q.value, answer, "admin", 100), u)
              else w.db;
    assert d1.users == w.db.users;
    var d2 := SaveMessage(d1, u, "bot", answer);
    assert d2.users == w.db.users;
    if GetUser(w.db, u).Some? {
      ResumeRule(GetUser(w.db, u).value.status);
      UpdateUserStatusEffect(d2, u, ResumeStatus(GetUser(w.db, u).value.status), now, u);
    }
  }

  /** The callback of the answer keyboard selects its user. */
  lemma AnswerCallbackSelects(w: World, u: nat)
    ensures AnswerCallback(w, w.admin, Keyboards.AnswerData(u)).mode == Answering(u)
  {
    Keyboards.ReviewRoundTrip(u);
    DataPrefixes(u);
  }

  /** The add-topic button. */
  function StartTopic(w: World, sender: int): World
  {
    if sender != w.admin then w else Tell(w.(mode := NamingTopic), w.admin, AskTopicName)
  }

  /** `add_forbidden_topic_name`. */
  function TopicName(w: World, sender: int, name: string): World
  {
    if w.mode != NamingTopic || sender != w.admin then w
    else Tell(w.(mode := ListingKeywords(name)), w.admin, AskKeywords)
  }

  /** `add_forbidden_topic_keywords`. */
  function TopicKeywordsText(w: World, sender: int, text: string): World
  {
    if !w.mode.ListingKeywords? || sender != w.admin then w
    else
      var ks := ParseKeywords(text);
      Tell(w.(db := AddForbiddenTopic(w.db, w.mode.name, ks), mode := Idle), w.admin, TopicAdded(w.mode.name, ks))
  }

  /** The listed topics of the store, for the keyboard. */
  function ListedTopics(ts: seq<TopicRow>): (ls: seq<Keyboards.ListedTopic>)
    ensures |ls| == |ts|
    ensures forall k :: 0 <= k < |ts| ==> ls[k] == Keyboards.ListedTopic(ts[k].id, ts[k].topic)
  {
    seq(|ts|, k requires 0 <= k < |ts| => Keyboards.ListedTopic(ts[k].id, ts[k].topic))
  }

  /** `delete_forbidden_topic_handler`; the callback carries
    * "delete_topic_{id}". */
  function DeleteTopic(w: World, sender: int, data: string): World
  {
    if !IsPrefix("delete_topic_", data) || sender != w.admin then w
    else match Keyboards.CallbackId(data, 2)
      case None => w
      case Some(id) =>
        var d := DeleteForbiddenTopic(w.db, id);
        Tell(w.(db := d), w.admin, TopicsList(Keyboards.TopicsKeyboard(ListedTopics(GetForbiddenTopics(d)))))
  }

  /** Messages shown when the operator opens a conversation. */
  const ShownMessages: nat := 20

  /** `view_conversation`; the callback carries "view_conv_{id}". A missing
    * user fails on its username, so nothing is shown. */
  function ViewConversation(w: World, sender: int, data: string): World
  {
    if !IsPrefix("view_conv_", data) || sender != w.admin then w
    else match Keyboards.CallbackId(data, 2)
      case None => w
      case Some(u) =>
        var ms := GetUserConversations(w.db, u);
        if GetUser(w.db, u).None? then w
        else Tell(w, w.admin, Conversation(u, Newest(ms, ShownMessages)))
  }

  /** `ms[-n:]`. */
  function Newest(ms: seq<Message>, n: nat): seq<Message>
  {
    if |ms| <= n then ms else ms[|ms| - n..]
  }

  /** A button of the users list opens that user's conversation: the same
    * window as `get_messages(user_id, 20)`, so the newest 20 of the user's
    * messages and nobody else's; the store is not touched. */
  lemma ViewConversationShows(w: World, u: nat)
    requires GetUser(w.db, u).Some?
    ensures ViewConversation(w, w.admin, Keyboards.ViewConversationData(u)) ==
      Tell(w, w.admin, Conversation(u, GetMessages(w.db, u, ShownMessages)))
  {
    Keyboards.ReviewRoundTrip(u);
    assert Keyboards.ViewConversationData(u)[..10] == "view_conv_";
  }

  /** `show_stats_menu`. */
  function ShowStats(w: World, sender: int): World
  {
    if sender != w.admin then w
    else
      var s := GetStats(w.db);
      Tell(w, w.admin, StatsReport(s, Efficiency(s.adminAnswers, s.autoAnswers)))
  }

  /** The stored topic holds one keyword per comma-separated piece, and a
    * delete button removes exactly that topic. */
  lemma TopicEffect(w: World, name: string, text: string, t: nat)
    requires w.mode == ListingKeywords(name)
    ensures var w2 := TopicKeywordsText(w, w.admin, text);
      w2.db.topics == w.db.topics + [TopicRow(w.db.nextTopicId, name, ParseKeywords(text))] && w2.mode == Idle
    ensures forall r :: r in DeleteTopic(w, w.admin, Keyboards.DeleteTopicData(t)).db.topics <==> r in w.db.topics && r.id != t
  {
    Keyboards.ReviewRoundTrip(t);
    DataPrefixes(t);
  }

  /** Senders other than the operator change nothing in the operator's
    * handlers, and the user handlers do nothing for the operator or a
    * rejected user. */
  lemma GuardsHold(w: World, sender: int, u: nat, data: string, text: string, delivered: bool, now: int,
                   fileIds: seq<string>, asked: Asked, inGroup: bool,
                   backend: nat -> Generation.Backend, parse: string -> Option<Generation.Json>)
    ensures sender != w.admin ==>
      AnswerCallback(w, sender, data) == w && AnswerText(w, sender, text, delivered, now) == w &&
      StartTopic(w, sender) == w && TopicName(w, sender, text) == w && TopicKeywordsText(w, sender, text) == w &&
      DeleteTopic(w, sender, data) == w && ShowStats(w, sender) == w
    ensures Blocked(w, u) ==>
      Photo(w, u, text, now) == w && AlbumPhotos(w, u, fileIds, now) == w && WorkHours(w, u, text, now) == w &&
      Experience(w, u, text, now) == w && Question(w, u, text, asked, inGroup, backend, parse, now) == w &&
      WaitingAdminText(w, u, text) == w && PhotoAsScreenshot(w, u, None, None, false, now) == w
    ensures IsRejected(w.db, u) ==>
      ScreenshotInWaiting(w, u, None, Some(text), false, now) == w && TypedId(w, u, text, now) == w
  {
  }
}
