/** The running bot: the store object, the conversation state of every
  * user, the operator's conversation state and the messages sent. Every
  * handler is a method that updates these in place, statement by statement
  * as the handler does, and is proved to leave them as the matching
  * transition of module Onboarding says. */
module Bot {
  import opened Text
  import opened Lang
  import opened Tables
  import opened Flow
  import Store
  import Generation
  import Keyboards
  import Reviews
  import opened Onboarding

  class Bot {
    const admin: nat
    const db: Store.Database
    var fsm: map<int, UState>
    var workHours: map<int, string>
    var mode: AdminMode
    var outbox: seq<Output>

    /** Everything the handlers read and write, as one value. */
    function State(): World
      reads this, db
    {
      World(admin, db.Snapshot(), fsm, workHours, mode, outbox)
    }

    /** A bot over an existing store, with nobody in a conversation yet. */
    constructor (admin: nat, db: Store.Database)
      ensures this.db == db
      ensures State() == World(admin, db.Snapshot(), map[], map[], Idle, [])
    {
      this.admin, this.db := admin, db;
      fsm, workHours, mode, outbox := map[], map[], Idle, [];
    }

    method Send(chat: int, note: Note)
      modifies this
      ensures State() == Tell(old(State()), chat, note)
    {
      outbox := outbox + [Output(chat, note)];
    }

    method Start(u: nat, username: Option<string>, inGroup: bool, welcome: string, now: int)
      modifies this, db
      ensures State() == Onboarding.Start(old(State()), u, username, inGroup, welcome, now)
    {
      if u == admin {
        Send(u, AdminGreeting);
        return;
      }
      var user := GetUser(db.Snapshot(), u);
      if inGroup {
        db.AddUserToGroups(u);
      }
      match StartDecision(user, inGroup)
      case Ignored =>
      case NewInGroup =>
        var created := db.CreateUser(u, StartName(u, username), now);
        if created {
          db.UpdateUserStatus(u, "registered", now);
          fsm := fsm[u := Registered];
          Send(u, GroupWelcome);
        }
      case NewChatting =>
        var created := db.CreateUser(u, StartName(u, username), now);
        if created {
          db.UpdateUserStatus(u, "chatting", now);
          fsm := fsm[u := Chatting];
          Send(u, Welcome(welcome));
        }
      case BackInGroup =>
        db.UpdateUserStatus(u, "registered", now);
        fsm := fsm[u := Registered];
        Send(u, WelcomeBackInGroup);
      case Restored(s) =>
        Send(u, WelcomeBack);
        fsm := fsm[u := s];
    }

    /** The photos of an album, one INSERT after the other. */
    method SavePhotos(u: int, fileIds: seq<string>)
      modifies db
      ensures db.Snapshot() == Onboarding.SavePhotos(old(db.Snapshot()), u, fileIds)
    {
      var i := 0;
      while i < |fileIds|
        invariant 0 <= i <= |fileIds|
        invariant Onboarding.SavePhotos(db.Snapshot(), u, fileIds[i..]) == Onboarding.SavePhotos(old(db.Snapshot()), u, fileIds)
      {
        assert fileIds[i..][1..] == fileIds[i + 1..];
        db.SavePhoto(u, fileIds[i]);
        i := i + 1;
      }
    }

    method AfterPhotos(u: int, count: nat, now: int)
      modifies this, db
      ensures State() == Onboarding.AfterPhotos(old(State()), u, count, now)
    {
      if PhotosStillNeeded(count) > 0 {
        Send(u, NeedMorePhotos(PhotosStillNeeded(count)));
      } else {
        db.UpdateUserStatus(u, "asking_work_hours", now);
        fsm := fsm[u := AskingWorkHours];
        Send(u, AskWorkHours);
      }
    }

    method Photo(u: int, fileId: string, now: int)
      modifies this, db
      ensures State() == Onboarding.Photo(old(State()), u, fileId, now)
    {
      if !In(State(), u, Chatting) || Blocked(State(), u) || GetUser(db.Snapshot(), u).None? {
        return;
      }
      match SinglePhoto(GetUser(db.Snapshot(), u).value.photosCount)
      case LimitReached =>
        Send(u, PhotoLimit);
      case Saved(c) =>
        db.SavePhoto(u, fileId);
        AfterPhotos(u, c, now);
    }

    method AlbumPhotos(u: int, fileIds: seq<string>, now: int)
      modifies this, db
      ensures State() == Onboarding.AlbumPhotos(old(State()), u, fileIds, now)
    {
      if !In(State(), u, Chatting) || Blocked(State(), u) || GetUser(db.Snapshot(), u).None? {
        return;
      }
      match Album(GetUser(db.Snapshot(), u).value.photosCount, |fileIds|)
      case AlbumLimitReached =>
        Send(u, PhotoLimit);
      case TooMany(allowed) =>
        Send(u, AlbumTooLarge(allowed));
      case AlbumSaved(_) =>
        SavePhotos(u, fileIds);
        var after := GetUser(db.Snapshot(), u);
        if after.Some? {
          AfterPhotos(u, after.value.photosCount, now);
        }
    }

    method WorkHours(u: int, text: string, now: int)
      modifies this, db
      ensures State() == Onboarding.WorkHours(old(State()), u, text, now)
    {
      if !In(State(), u, AskingWorkHours) || Blocked(State(), u) {
        return;
      }
      workHours := workHours[u := text];
      db.UpdateUserStatus(u, "asking_experience", now);
      fsm := fsm[u := AskingExperience];
      Send(u, AskExperience);
    }

    method Experience(u: nat, text: string, now: int)
      modifies this, db
      ensures State() == Onboarding.Experience(old(State()), u, text, now)
    {
      if !In(State(), u, AskingExperience) || Blocked(State(), u) {
        return;
      }
      var hours := if u in workHours then Some(workHours[u]) else None;
      db.CreateApplication(u, hours, text);
      db.UpdateUserStatus(u, "pending_review", now);
      fsm := fsm[u := PendingReview];
      if GetUser(db.Snapshot(), u).None? {
        return;
      }
      var photos := GetPhotos(db.Snapshot(), u);
      Send(admin, ApplicationCard(u, hours, text));
      if |photos| > 0 {
        Send(admin, ApplicationPhotos(photos));
      }
      Send(admin, Decide(u, Keyboards.ReviewKeyboard(u)));
      Send(u, ApplicationSent);
    }

    method Question(u: nat, question: string, asked: Asked, inGroup: bool,
                    backend: nat -> Generation.Backend, parse: string -> Option<Generation.Json>, now: int)
      modifies this, db
      ensures State() == Onboarding.Question(old(State()), u, question, asked, inGroup, backend, parse, now)
    {
      if !In(State(), u, StateOfAsked(asked)) || Blocked(State(), u) {
        return;
      }
      if Reviews.IsReviewRequest(question) {
        Send(u, ReviewsSent);
        return;
      }
      Prepare(u, question, asked, inGroup);
      var reply, _ := Generation.GetAiResponseWithRetry(question, History(db.Snapshot(), u), TopicKeywords(db.Snapshot()),
                                                        Retries, backend, parse);
      if Escalates(reply) {
        HandOff(u, question, asked, now);
      } else {
        db.SaveMessage(u, "bot", reply.answer);
        db.SaveAiLearning(question, reply.answer, "auto", reply.confidence);
        Send(u, Answer(reply.answer));
      }
    }

    /** The question saved, and the group flag set for a registered user
      * found in the group. */
    method Prepare(u: nat, question: string, asked: Asked, inGroup: bool)
      modifies db
      ensures db.Snapshot() == Prepared(old(db.Snapshot()), u, question, asked, inGroup)
    {
      db.SaveMessage(u, "user", question);
      if asked == InRegistered && !IsUserInGroups(db.Snapshot(), u) && inGroup {
        db.AddUserToGroups(u);
      }
    }

    method HandOff(u: nat, question: string, asked: Asked, now: int)
      modifies this, db
      ensures State() == Onboarding.HandOff(old(State()), u, question, asked, now)
    {
      if asked != InRegistration {
        db.UpdateUserStatus(u, "waiting_admin", now);
        fsm := fsm[u := WaitingAdmin];
      }
      db.SavePendingQuestion(u, question);
      if GetUser(db.Snapshot(), u).Some? {
        Send(admin, QuestionForOperator(u, question, Keyboards.AnswerKeyboard(u)));
        Send(u, Handoff);
      }
    }

    method WaitingAdminText(u: nat, question: string)
      modifies this, db
      ensures State() == Onboarding.WaitingAdminText(old(State()), u, question)
    {
      if !In(State(), u, WaitingAdmin) || Blocked(State(), u) {
        return;
      }
      if Reviews.IsReviewRequest(question) {
        Send(u, ReviewsSent);
        return;
      }
      db.SaveMessage(u, "user", question);
      Send(u, Forwarded);
      if GetUser(db.Snapshot(), u).Some? {
        Send(admin, FollowUpForOperator(u, question, Keyboards.AnswerKeyboard(u)));
      }
    }

    method Screenshot(u: nat, recognised: Option<string>, caption: Option<string>, failure: bool, now: int)
      modifies this, db
      ensures State() == Onboarding.Screenshot(old(State()), u, recognised, caption, failure, now)
    {
      if IsRejected(db.Snapshot(), u) {
        return;
      }
      match ScreenshotDecision(recognised, caption, failure || GetUser(db.Snapshot(), u).None?)
      case Failed =>
        Send(u, ScreenshotError);
      case ByRecognition(id) =>
        Send(admin, ScreenshotForOperator(u, Some(id)));
        db.UpdateUserStatus(u, "registered", now);
        fsm := fsm[u := Registered];
        Send(u, RegistrationSent);
      case ByCaption(id) =>
        Send(admin, ScreenshotForOperator(u, Some(id)));
        db.UpdateUserStatus(u, "registered", now);
        fsm := fsm[u := Registered];
        Send(u, RegistrationSent);
      case AskForId =>
        Send(admin, ScreenshotForOperator(u, None));
        Send(u, AskIdByText);
    }

    method ScreenshotInWaiting(u: nat, recognised: Option<string>, caption: Option<string>, failure: bool, now: int)
      modifies this, db
      ensures State() == Onboarding.ScreenshotInWaiting(old(State()), u, recognised, caption, failure, now)
    {
      if In(State(), u, WaitingScreenshot) {
        Screenshot(u, recognised, caption, failure, now);
      }
    }

    method PhotoAsScreenshot(u: nat, recognised: Option<string>, caption: Option<string>, failure: bool, now: int)
      modifies this, db
      ensures State() == Onboarding.PhotoAsScreenshot(old(State()), u, recognised, caption, failure, now)
    {
      if !(In(State(), u, HelpingRegistration) || In(State(), u, Registered)) || Blocked(State(), u) {
        return;
      }
      db.UpdateUserStatus(u, "waiting_screenshot", now);
      fsm := fsm[u := WaitingScreenshot];
      Screenshot(u, recognised, caption, failure, now);
    }

    method TypedId(u: nat, text: string, now: int)
      modifies this, db
      ensures State() == Onboarding.TypedId(old(State()), u, text, now)
    {
      if !In(State(), u, WaitingScreenshot) || IsRejected(db.Snapshot(), u) {
        return;
      }
      var id := Strip(text);
      if !AcceptsId(id) || GetUser(db.Snapshot(), u).None? {
        return;
      }
      Send(admin, TypedIdForOperator(u, id));
      db.UpdateUserStatus(u, "registered", now);
      fsm := fsm[u := Registered];
      Send(u, RegistrationSent);
    }

    method Approve(data: string, now: int)
      modifies this, db
      ensures State() == Onboarding.Approve(old(State()), data, now)
    {
      if !IsPrefix("approve_", data) {
        return;
      }
      var id := Keyboards.CallbackId(data, 1);
      if id.None? {
        return;
      }
      var u := id.value;
      db.UpdateApplicationStatus(u, "approved");
      db.UpdateUserStatus(u, "approved", now);
      fsm := fsm[u := HelpingRegistration];
      var lang := InstructionLanguage(GetUser(db.Snapshot(), u));
      var part1 := Pick(InstructionPart1, lang);
      var part2 := Pick(InstructionPart2, lang);
      Send(u, Instructions(part1));
      db.SaveMessage(u, "bot", PhotoInstructionRecord(part1));
      Send(u, Instructions(part2));
      db.SaveMessage(u, "bot", part2);
      Send(admin, Decided(true));
    }

    method Reject(data: string, rejection: string, now: int)
      modifies this, db
      ensures State() == Onboarding.Reject(old(State()), data, rejection, now)
    {
      if !IsPrefix("reject_", data) {
        return;
      }
      var id := Keyboards.CallbackId(data, 1);
      if id.None? {
        return;
      }
      var u := id.value;
      db.UpdateApplicationStatus(u, "rejected");
      db.UpdateUserStatus(u, "rejected", now);
      fsm := fsm[u := Rejected];
      Send(u, Rejection(rejection));
      db.SaveMessage(u, "bot", rejection);
      Send(admin, Decided(false));
    }

    method AnswerCallback(sender: int, data: string)
      modifies this
      ensures State() == Onboarding.AnswerCallback(old(State()), sender, data)
    {
      if !IsPrefix("answer_", data) || sender != admin {
        return;
      }
      var id := Keyboards.CallbackId(data, 1);
      if id.Some? {
        mode := Answering(id.value);
        Send(admin, AskAnswer(id.value));
      }
    }

    method AnswerText(sender: int, answer: string, delivered: bool, now: int)
      modifies this, db
      ensures State() == Onboarding.AnswerText(old(State()), sender, answer, delivered, now)
    {
      if !mode.Answering? || sender != admin {
        return;
      }
      var u := mode.user;
      var q := GetPendingQuestion(db.Snapshot(), u);
      if q.Some? && q.value != "" {
        db.SaveAiLearning(q.value, answer, "admin", 100);
        db.DeletePendingQuestion(u);
      }
      if !delivered {
        Send(admin, DeliveryFailed);
        mode := Idle;
        return;
      }
      db.SaveMessage(u, "bot", answer);
      var user := GetUser(db.Snapshot(), u);
      if user.None? {
        Send(admin, DeliveryFailed);
        mode := Idle;
        return;
      }
      var s := ResumeStatus(user.value.status);
      db.UpdateUserStatus(u, s, now);
      fsm := fsm[u := StateForStatus(s)];
      Send(admin, AnswerDelivered);
      mode := Idle;
    }

    method StartTopic(sender: int)
      modifies this
      ensures State() == Onboarding.StartTopic(old(State()), sender)
    {
      if sender == admin {
        mode := NamingTopic;
        Send(admin, AskTopicName);
      }
    }

    method TopicName(sender: int, name: string)
      modifies this
      ensures State() == Onboarding.TopicName(old(State()), sender, name)
    {
      if mode == NamingTopic && sender == admin {
        mode := ListingKeywords(name);
        Send(admin, AskKeywords);
      }
    }

    method TopicKeywordsText(sender: int, text: string)
      modifies this, db
      ensures State() == Onboarding.TopicKeywordsText(old(State()), sender, text)
    {
      if !mode.ListingKeywords? || sender != admin {
        return;
      }
      var name := mode.name;
      var ks := ParseKeywords(text);
      db.AddForbiddenTopic(name, ks);
      Send(admin, TopicAdded(name, ks));
      mode := Idle;
    }

    method DeleteTopic(sender: int, data: string)
      modifies this, db
      ensures State() == Onboarding.DeleteTopic(old(State()), sender, data)
    {
      if !IsPrefix("delete_topic_", data) || sender != admin {
        return;
      }
      var id := Keyboards.CallbackId(data, 2);
      if id.Some? {
        db.DeleteForbiddenTopic(id.value);
        Send(admin, TopicsList(Keyboards.TopicsKeyboard(ListedTopics(GetForbiddenTopics(db.Snapshot())))));
      }
    }

    method ViewConversation(sender: int, data: string)
      modifies this
      ensures State() == Onboarding.ViewConversation(old(State()), sender, data)
    {
      if !IsPrefix("view_conv_", data) || sender != admin {
        return;
      }
      var id := Keyboards.CallbackId(data, 2);
      if id.None? {
        return;
      }
      var messages := GetUserConversations(db.Snapshot(), id.value);
      if GetUser(db.Snapshot(), id.value).Some? {
        Send(admin, Conversation(id.value, Newest(messages, ShownMessages)));
      }
    }

    /** Reads the store and reports; changes nothing but the outbox. */
    method ShowStats(sender: int)
      modifies this
      ensures State() == Onboarding.ShowStats(old(State()), sender)
    {
      if sender == admin {
        var s := GetStats(db.Snapshot());
        Send(admin, StatsReport(s, Efficiency(s.adminAnswers, s.autoAnswers)));
      }
    }
  }
}
