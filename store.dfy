/** The database as a mutable object: one field per table, and one method
  * per SQL statement, each proved to leave the tables as the corresponding
  * function of module Tables says. */
module Store {
  import opened Text
  import Config
  import opened Tables


  /** The database file: one field per table, updated in place by the
    * statement methods. */
  class Database {
    var users: seq<User>
    var messages: seq<Message>
    var pending: map<int, string>
    var photos: seq<Photo>
    var applications: seq<Application>
    var learning: seq<Learning>
    var topics: seq<TopicRow>
    var nextTopicId: nat
    var groupMessages: seq<GroupMessage>

    /** The content of all tables. */
    function Snapshot(): Db
      reads this
    {
      Db(users, messages, pending, photos, applications, learning, topics, nextTopicId, groupMessages)
    }

    /** `init_db()`: empty tables. */
    constructor ()
      ensures Snapshot() == Empty
    {
      users, messages, pending, photos := [], [], map[], [];
      applications, learning, topics, nextTopicId, groupMessages := [], [], [], 1, [];
    }

    method CreateUser(id: int, username: string, now: int) returns (created: bool)
      modifies this
      ensures created <==> Tables.CreateUser(old(Snapshot()), id, username, now).Some?
      ensures Snapshot() == if created then Tables.CreateUser(old(Snapshot()), id, username, now).value else old(Snapshot())
    {
      if FindUser(users, id).Some? {
        return false;
      }
      users := users + [User(id, username, "new", now, 0, false, None, None)];
      return true;
    }

    method UpdateUserStatus(id: int, status: string, now: int)
      modifies this
      ensures Snapshot() == Tables.UpdateUserStatus(old(Snapshot()), id, status, now)
    {
      users := UpdateUser(users, id, (u: User) => u.(status := status, lastActivity := now));
    }

    method AddUserToGroups(id: int)
      modifies this
      ensures Snapshot() == Tables.AddUserToGroups(old(Snapshot()), id)
    {
      users := UpdateUser(users, id, (u: User) => u.(inGroups := true));
    }

    method SaveMessage(userId: int, role: string, content: string)
      modifies this
      ensures Snapshot() == Tables.SaveMessage(old(Snapshot()), userId, role, content)
    {
      messages := messages + [Message(userId, role, content)];
    }

    method SavePendingQuestion(userId: int, question: string)
      modifies this
      ensures Snapshot() == Tables.SavePendingQuestion(old(Snapshot()), userId, question)
    {
      pending := pending[userId := question];
    }

    method DeletePendingQuestion(userId: int)
      modifies this
      ensures Snapshot() == Tables.DeletePendingQuestion(old(Snapshot()), userId)
    {
      pending := pending - {userId};
    }

    method SavePhoto(userId: int, fileId: string)
      modifies this
      ensures Snapshot() == Tables.SavePhoto(old(Snapshot()), userId, fileId)
    {
      photos := photos + [Photo(userId, fileId)];
      users := UpdateUser(users, userId, (u: User) => u.(photosCount := u.photosCount + 1));
    }

    method CreateApplication(userId: int, workHours: Option<string>, experience: string)
      modifies this
      ensures Snapshot() == Tables.CreateApplication(old(Snapshot()), userId, workHours, experience)
    {
      applications := applications + [Application(userId, workHours, experience, "pending")];
    }

    /** The conditional UPDATE, row by row. */
    method UpdateApplicationStatus(userId: int, status: string)
      modifies this
      ensures Snapshot() == Tables.UpdateApplicationStatus(old(Snapshot()), userId, status)
    {
      var i := 0;
      while i < |applications|
        invariant 0 <= i <= |applications| == |old(applications)|
        invariant forall k :: 0 <= k < i ==>
          applications[k] == (if old(applications)[k].userId == userId && old(applications)[k].status == "pending"
                              then old(applications)[k].(status := status) else old(applications)[k])
        invariant applications[i..] == old(applications)[i..]
        invariant Snapshot() == old(Snapshot()).(applications := applications)
      {
        if applications[i].userId == userId && applications[i].status == "pending" {
          applications := applications[i := applications[i].(status := status)];
        }
        i := i + 1;
      }
    }

    method SaveAiLearning(question: string, answer: string, source: string, confidence: int)
      modifies this
      ensures Snapshot() == Tables.SaveAiLearning(old(Snapshot()), question, answer, source, confidence)
    {
      learning := learning + [Learning(question, answer, source, confidence)];
    }

    method AddForbiddenTopic(topic: string, keywords: seq<string>)
      modifies this
      ensures Snapshot() == Tables.AddForbiddenTopic(old(Snapshot()), topic, keywords)
    {
      topics := topics + [TopicRow(nextTopicId, topic, keywords)];
      nextTopicId := nextTopicId + 1;
    }

    method DeleteForbiddenTopic(topicId: int)
      modifies this
      ensures Snapshot() == Tables.DeleteForbiddenTopic(old(Snapshot()), topicId)
    {
      topics := WithoutTopic(topics, topicId);
    }

    /** One INSERT per configured topic. */
    method InitForbiddenTopics()
      modifies this
      ensures Snapshot() == Tables.InitForbiddenTopics(old(Snapshot()))
    {
      var ts := Config.ForbiddenTopics;
      var i := 0;
      while i < |ts|
        invariant 0 <= i <= |ts|
        invariant AddTopics(Snapshot(), ts[i..]) == AddTopics(old(Snapshot()), ts)
      {
        assert ts[i..][1..] == ts[i + 1..];
        AddForbiddenTopic(ts[i].name, ts[i].keywords);
        i := i + 1;
      }
    }

    method SaveGroupMessage(messageId: int, kind: string, content: Option<string>, fileId: Option<string>,
                            username: Option<string>)
      modifies this
      ensures Snapshot() == Tables.SaveGroupMessage(old(Snapshot()), messageId, kind, content, fileId, username)
    {
      if FindGroupMessage(groupMessages, messageId).None? {
        groupMessages := groupMessages + [GroupMessage(messageId, kind, content, fileId, username, false)];
      }
    }

    method MarkMessageProcessed(messageId: int)
      modifies this
      ensures Snapshot() == Tables.MarkMessageProcessed(old(Snapshot()), messageId)
    {
      var gms := groupMessages;
      groupMessages := seq(|gms|, i requires 0 <= i < |gms| =>
        if gms[i].messageId == messageId then gms[i].(processed := true) else gms[i]);
    }

    method ClearGroupMessages()
      modifies this
      ensures Snapshot() == Tables.ClearGroupMessages(old(Snapshot()))
    {
      groupMessages := [];
    }
  }
}
