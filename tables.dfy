/** The SQLite store (database/users.py, messages.py, photos.py,
  * applications.py, ai_learning.py, forbidden.py, group_messages.py) as
  * in-memory tables. Rows are kept in insertion order, which stands for the
  * timestamp order (ties broken by insertion); timestamps are integers
  * passed in by the caller. `Db` is the content of all tables, the functions
  * on it are the SQL statements; module Store holds the mutable store whose
  * methods perform them. */
module Tables {
  import opened Text
  import Config

  // ---------------------------------------------------------------- rows

  /** A row of `users`; `language` and `hidden_at` are read by the bot but
    * have no column in the schema, so they start empty. */
  datatype User = User(id: int, username: string, status: string, lastActivity: int, photosCount: nat,
                       inGroups: bool, language: Option<string>, hiddenAt: Option<int>)

  /** A row of `messages`; `role` is "user" or "bot". */
  datatype Message = Message(userId: int, role: string, content: string)

  /** A row of `photos`. */
  datatype Photo = Photo(userId: int, fileId: string)

  /** A row of `applications`; the work-hours answer can be missing. */
  datatype Application = Application(userId: int, workHours: Option<string>, experience: string, status: string)

  /** A row of `ai_learning`; `source` is "auto" or "admin". */
  datatype Learning = Learning(question: string, answer: string, source: string, confidence: int)

  /** A row of `forbidden_topics`, with its keyword list decoded. */
  datatype TopicRow = TopicRow(id: nat, topic: string, keywords: seq<string>)

  /** A row of `group_messages`. */
  datatype GroupMessage = GroupMessage(messageId: int, kind: string, content: Option<string>, fileId: Option<string>,
                                       username: Option<string>, processed: bool)

  /** What `get_stats` reports, apart from the average confidence. */
  datatype Stats = Stats(total: nat, approved: nat, rejected: nat, pending: nat, registered: nat,
                         adminAnswers: nat, autoAnswers: nat)

  /** The content of every table; `nextTopicId` is the AUTOINCREMENT counter
    * of `forbidden_topics`. */
  datatype Db = Db(users: seq<User>, messages: seq<Message>, pending: map<int, string>, photos: seq<Photo>,
                   applications: seq<Application>, learning: seq<Learning>, topics: seq<TopicRow>,
                   nextTopicId: nat, groupMessages: seq<GroupMessage>)

  /** The tables right after `init_db`. */
  const Empty: Db := Db([], [], map[], [], [], [], [], 1, [])

  // ---------------------------------------------------------------- users

  /** `SELECT * FROM users WHERE user_id = ?`. */
  function FindUser(users: seq<User>, id: int): (r: Option<User>)
    ensures r.Some? ==> r.value in users && r.value.id == id
    ensures r.None? <==> forall i :: 0 <= i < |users| ==> users[i].id != id
  {
    if |users| == 0 then None
    else if users[0].id == id then Some(users[0])
    else
      var r := FindUser(users[1..], id);
      assert forall i :: 1 <= i < |users| ==> users[i] == users[1..][i - 1];
      r
  }

  function GetUser(db: Db, id: int): Option<User>
  {
    FindUser(db.users, id)
  }

  /** No two user rows share an id (the primary key). */
  predicate UniqueIds(users: seq<User>)
  {
    forall i, j :: 0 <= i < j < |users| ==> users[i].id != users[j].id
  }

  /** `create_user(user_id, username)`: a new row with the column defaults,
    * or None when the id is taken (the INSERT fails). */
  function CreateUser(db: Db, id: int, username: string, now: int): (r: Option<Db>)
    ensures r.None? <==> GetUser(db, id).Some?
    ensures r.Some? ==> GetUser(r.value, id) == Some(User(id, username, "new", now, 0, false, None, None))
  {
    if GetUser(db, id).Some? then None
    else
      var u := User(id, username, "new", now, 0, false, None, None);
      FindAfterAppend(db.users, u, id);
      Some(db.(users := db.users + [u]))
  }

  /** The user with a given id, after a row is appended. */
  lemma FindAfterAppend(users: seq<User>, u: User, id: int)
    requires FindUser(users, u.id).None?
    ensures FindUser(users + [u], id) == if id == u.id then Some(u) else FindUser(users, id)
    decreases |users|
  {
    if |users| > 0 {
      assert (users + [u])[1..] == users[1..] + [u];
      FindAfterAppend(users[1..], u, id);
    }
  }

  /** The `UPDATE users SET ... WHERE user_id = ?` pattern: `f` applied to
    * the rows with that id. */
  function UpdateUser(users: seq<User>, id: int, f: User -> User): (r: seq<User>)
    ensures |r| == |users|
    ensures forall i :: 0 <= i < |users| ==> r[i] == if users[i].id == id then f(users[i]) else users[i]
  {
    seq(|users|, i requires 0 <= i < |users| => if users[i].id == id then f(users[i]) else users[i])
  }

  /** `update_user_status(user_id, status)`: status and last activity of
    * that user; an unknown id changes nothing. */
  function UpdateUserStatus(db: Db, id: int, status: string, now: int): Db
  {
    db.(users := UpdateUser(db.users, id, (u: User) => u.(status := status, lastActivity := now)))
  }

  /** `add_user_to_groups(user_id)`. */
  function AddUserToGroups(db: Db, id: int): Db
  {
    db.(users := UpdateUser(db.users, id, (u: User) => u.(inGroups := true)))
  }

  /** `is_user_in_groups(user_id)`. */
  predicate IsUserInGroups(db: Db, id: int)
  {
    GetUser(db, id).Some? && GetUser(db, id).value.inGroups
  }

  /** Looking a user up after an update by id. */
  lemma {:induction false} FindAfterUpdate(users: seq<User>, id: int, f: User -> User, x: int)
    requires forall u :: f(u).id == u.id
    ensures FindUser(UpdateUser(users, id, f), x) ==
      if FindUser(users, x).Some? && x == id then Some(f(FindUser(users, x).value)) else FindUser(users, x)
    decreases |users|
  {
    if |users| > 0 {
      var r := UpdateUser(users, id, f);
      assert r[1..] == UpdateUser(users[1..], id, f);
      FindAfterUpdate(users[1..], id, f, x);
    }
  }

  /** A status update touches only that user's status and last activity. */
  lemma UpdateUserStatusEffect(db: Db, id: int, status: string, now: int, x: int)
    ensures var after := GetUser(UpdateUserStatus(db, id, status, now), x);
      after == if x == id && GetUser(db, x).Some? then Some(GetUser(db, x).value.(status := status, lastActivity := now))
               else GetUser(db, x)
    ensures |UpdateUserStatus(db, id, status, now).users| == |db.users|
  {
    FindAfterUpdate(db.users, id, (u: User) => u.(status := status, lastActivity := now), x);
  }

  lemma AddUserToGroupsEffect(db: Db, id: int, x: int)
    ensures var after := GetUser(AddUserToGroups(db, id), x);
      after == if x == id && GetUser(db, x).Some? then Some(GetUser(db, x).value.(inGroups := true)) else GetUser(db, x)
  {
    FindAfterUpdate(db.users, id, (u: User) => u.(inGroups := true), x);
  }

  /** Joining the group sets the flag of an existing user, and nothing in the
    * user operations clears it. */
  lemma GroupFlagSticks(db: Db, id: int, x: int, status: string, now: int, fileId: string)
    ensures IsUserInGroups(AddUserToGroups(db, id), id) <==> GetUser(db, id).Some?
    ensures IsUserInGroups(db, x) ==> IsUserInGroups(AddUserToGroups(db, id), x)
    ensures IsUserInGroups(db, x) ==> IsUserInGroups(UpdateUserStatus(db, id, status, now), x)
    ensures IsUserInGroups(db, x) ==> IsUserInGroups(SavePhoto(db, id, fileId), x)
  {
    FindAfterUpdate(db.users, id, (u: User) => u.(inGroups := true), id);
    FindAfterUpdate(db.users, id, (u: User) => u.(inGroups := true), x);
    FindAfterUpdate(db.users, id, (u: User) => u.(status := status, lastActivity := now), x);
    FindAfterUpdate(db.users, id, (u: User) => u.(photosCount := u.photosCount + 1), x);
  }

  /** `SELECT COUNT(*) ... WHERE column = v`: how many rows have the value
    * `v` in the column `key`. */
  function CountWhere<T>(rows: seq<T>, key: T -> string, v: string): (n: nat)
    ensures n <= |rows|
  {
    if |rows| == 0 then 0
    else (if key(rows[0]) == v then 1 else 0) + CountWhere(rows[1..], key, v)
  }

  /** The status column of the users table. */
  function StatusColumn(u: User): string { u.status }

  /** The source column of the learning table. */
  function SourceColumn(l: Learning): string { l.source }

  /** `get_stats()` without the average confidence. */
  function GetStats(db: Db): Stats
  {
    Stats(|db.users|, CountWhere(db.users, StatusColumn, "approved"), CountWhere(db.users, StatusColumn, "rejected"),
          CountWhere(db.users, StatusColumn, "pending_review"), CountWhere(db.users, StatusColumn, "registered"),
          CountWhere(db.learning, SourceColumn, "admin"), CountWhere(db.learning, SourceColumn, "auto"))
  }

  /** The status counts never exceed the total, and together they count
    * distinct users. */
  lemma {:induction false} StatusCountsBounded(users: seq<User>)
    ensures CountWhere(users, StatusColumn, "approved") + CountWhere(users, StatusColumn, "rejected")
          + CountWhere(users, StatusColumn, "pending_review") + CountWhere(users, StatusColumn, "registered") <= |users|
  {
    if |users| > 0 {
      StatusCountsBounded(users[1..]);
    }
  }

  /** Every answer in the log is counted once, as automatic or as the
    * operator's, when those are the only sources. */
  lemma {:induction false} SourcesPartitionLog(log: seq<Learning>)
    requires forall i :: 0 <= i < |log| ==> log[i].source == "auto" || log[i].source == "admin"
    ensures CountWhere(log, SourceColumn, "auto") + CountWhere(log, SourceColumn, "admin") == |log|
  {
    if |log| > 0 {
      SourcesPartitionLog(log[1..]);
    }
  }

  // ---------------------------------------------------------------- ordering

  /** Sorted by a key, largest first. */
  predicate SortedDesc<T>(s: seq<T>, key: T -> int)
  {
    forall i, j :: 0 <= i < j < |s| ==> key(s[i]) >= key(s[j])
  }

  /** Put `x` in front of the first element whose key is not larger. */
  function InsertDesc<T>(x: T, s: seq<T>, key: T -> int): (r: seq<T>)
    ensures |r| == |s| + 1
  {
    if |s| == 0 || key(x) >= key(s[0]) then [x] + s
    else [s[0]] + InsertDesc(x, s[1..], key)
  }

  /** `ORDER BY key DESC`, rows with equal keys keeping insertion order. */
  function SortDesc<T>(s: seq<T>, key: T -> int): (r: seq<T>)
    ensures |r| == |s|
  {
    if |s| == 0 then [] else InsertDesc(s[0], SortDesc(s[1..], key), key)
  }

  lemma {:induction false} InsertDescMultiset<T>(x: T, s: seq<T>, key: T -> int)
    ensures multiset(InsertDesc(x, s, key)) == multiset(s) + multiset{x}
  {
    if |s| > 0 && key(x) < key(s[0]) {
      InsertDescMultiset(x, s[1..], key);
      assert s == [s[0]] + s[1..];
    }
  }

  lemma {:induction false} InsertDescSorted<T>(x: T, s: seq<T>, key: T -> int)
    requires SortedDesc(s, key)
    ensures SortedDesc(InsertDesc(x, s, key), key)
  {
    if |s| > 0 && key(x) < key(s[0]) {
      InsertDescSorted(x, s[1..], key);
      var r := InsertDesc(x, s, key);
      var t := InsertDesc(x, s[1..], key);
      InsertDescMultiset(x, s[1..], key);
      forall k | 0 <= k < |t|
        ensures key(s[0]) >= key(t[k])
      {
        assert t[k] in multiset(t);
        if t[k] == x {
        } else {
          assert t[k] in multiset(s[1..]);
          var m :| 0 <= m < |s[1..]| && s[1..][m] == t[k];
          assert s[1..][m] == s[m + 1];
        }
      }
    }
  }

  /** The sort yields the same rows, largest key first. */
  lemma {:induction false} SortDescCorrect<T>(s: seq<T>, key: T -> int)
    ensures SortedDesc(SortDesc(s, key), key)
    ensures multiset(SortDesc(s, key)) == multiset(s)
  {
    if |s| > 0 {
      SortDescCorrect(s[1..], key);
      InsertDescSorted(s[0], SortDesc(s[1..], key), key);
      InsertDescMultiset(s[0], SortDesc(s[1..], key), key);
      assert s == [s[0]] + s[1..];
    }
  }

  function LastActivity(u: User): int { u.lastActivity }
  function Confidence(l: Learning): int { l.confidence }

  /** `get_all_users_list()`: every user, most recently active first. */
  function GetAllUsersList(db: Db): (r: seq<User>)
    ensures SortedDesc(r, LastActivity)
    ensures multiset(r) == multiset(db.users)
  {
    SortDescCorrect(db.users, LastActivity);
    SortDesc(db.users, LastActivity)
  }

  // ---------------------------------------------------------------- messages

  /** The messages of one user, in the order they were saved. */
  function MessagesOf(ms: seq<Message>, userId: int): (r: seq<Message>)
    ensures |r| <= |ms|
    ensures forall k :: 0 <= k < |r| ==> r[k].userId == userId && r[k] in ms
  {
    if |ms| == 0 then []
    else if ms[|ms| - 1].userId == userId then MessagesOf(ms[..|ms| - 1], userId) + [ms[|ms| - 1]]
    else MessagesOf(ms[..|ms| - 1], userId)
  }

  /** `save_message(user_id, role, content)`. */
  function SaveMessage(db: Db, userId: int, role: string, content: string): Db
  {
    db.(messages := db.messages + [Message(userId, role, content)])
  }

  /** `get_user_conversations(user_id)`: all of the user's messages in time
    * order. */
  function GetUserConversations(db: Db, userId: int): seq<Message>
  {
    MessagesOf(db.messages, userId)
  }

  /** `get_messages(user_id, limit)`: the newest `limit` messages of the
    * user, oldest first. */
  function GetMessages(db: Db, userId: int, limit: nat): (r: seq<Message>)
    ensures var all := GetUserConversations(db, userId);
      |r| == (if limit < |all| then limit else |all|) && r == all[|all| - |r|..]
    ensures forall k :: 0 <= k < |r| ==> r[k].userId == userId
  {
    var all := GetUserConversations(db, userId);
    if limit < |all| then all[|all| - limit..] else all
  }

  /** Saving a message adds it at the end of that user's conversation and
    * leaves every other conversation as it was. */
  lemma SaveMessageConversation(db: Db, userId: int, role: string, content: string, other: int)
    ensures GetUserConversations(SaveMessage(db, userId, role, content), userId) ==
      GetUserConversations(db, userId) + [Message(userId, role, content)]
    ensures other != userId ==>
      GetUserConversations(SaveMessage(db, userId, role, content), other) == GetUserConversations(db, other)
  {
    var ms := db.messages + [Message(userId, role, content)];
    assert ms[..|ms| - 1] == db.messages;
  }

  /** The window after a save ends with the saved message. */
  lemma NewestMessageInWindow(db: Db, userId: int, role: string, content: string, limit: nat)
    requires limit > 0
    ensures var w := GetMessages(SaveMessage(db, userId, role, content), userId, limit);
      |w| > 0 && w[|w| - 1] == Message(userId, role, content)
  {
    SaveMessageConversation(db, userId, role, content, userId);
  }

  /** `save_pending_question` (INSERT OR REPLACE keyed by user). */
  function SavePendingQuestion(db: Db, userId: int, question: string): Db
  {
    db.(pending := db.pending[userId := question])
  }

  /** `get_pending_question(user_id)`. */
  function GetPendingQuestion(db: Db, userId: int): Option<string>
  {
    if userId in db.pending then Some(db.pending[userId]) else None
  }

  /** `delete_pending_question(user_id)`. */
  function DeletePendingQuestion(db: Db, userId: int): Db
  {
    db.(pending := db.pending - {userId})
  }

  /** The pending table holds one question per user: saving replaces the
    * user's question, deleting removes it, and no other user's entry
    * changes. */
  lemma PendingQuestionTable(db: Db, userId: int, question: string, other: int)
    ensures GetPendingQuestion(SavePendingQuestion(db, userId, question), userId) == Some(question)
    ensures GetPendingQuestion(DeletePendingQuestion(db, userId), userId) == None
    ensures other != userId ==>
      GetPendingQuestion(SavePendingQuestion(db, userId, question), other) == GetPendingQuestion(db, other) &&
      GetPendingQuestion(DeletePendingQuestion(db, userId), other) == GetPendingQuestion(db, other)
  {
  }

  // ---------------------------------------------------------------- photos

  /** The file ids of one user's photos, in save order. */
  function PhotosOf(ps: seq<Photo>, userId: int): (r: seq<string>)
    ensures |r| <= |ps|
  {
    if |ps| == 0 then []
    else if ps[|ps| - 1].userId == userId then PhotosOf(ps[..|ps| - 1], userId) + [ps[|ps| - 1].fileId]
    else PhotosOf(ps[..|ps| - 1], userId)
  }

  /** `get_photos(user_id)`. */
  function GetPhotos(db: Db, userId: int): seq<string>
  {
    PhotosOf(db.photos, userId)
  }

  /** `save_photo(user_id, file_id)`: a photo row, and one more on the
    * user's counter; no upper bound is checked here. */
  function SavePhoto(db: Db, userId: int, fileId: string): Db
  {
    db.(photos := db.photos + [Photo(userId, fileId)],
        users := UpdateUser(db.users, userId, (u: User) => u.(photosCount := u.photosCount + 1)))
  }

  /** Saving a photo appends it to the user's photos and raises the
    * counter by exactly one. */
  lemma SavePhotoEffect(db: Db, userId: int, fileId: string, other: int)
    ensures GetPhotos(SavePhoto(db, userId, fileId), userId) == GetPhotos(db, userId) + [fileId]
    ensures other != userId ==> GetPhotos(SavePhoto(db, userId, fileId), other) == GetPhotos(db, other)
    ensures GetUser(db, userId).Some? ==>
      GetUser(SavePhoto(db, userId, fileId), userId) ==
        Some(GetUser(db, userId).value.(photosCount := GetUser(db, userId).value.photosCount + 1))
  {
    var ps := db.photos + [Photo(userId, fileId)];
    assert ps[..|ps| - 1] == db.photos;
    FindAfterUpdate(db.users, userId, (u: User) => u.(photosCount := u.photosCount + 1), userId);
  }

  /** The counter of every user equals the number of their saved photos,
    * and every photo belongs to a user. */
  predicate PhotoCountsMatch(db: Db)
  {
    UniqueIds(db.users) && CountsExact(db) && PhotosOwned(db)
  }

  predicate CountsExact(db: Db)
  {
    forall i :: 0 <= i < |db.users| ==> db.users[i].photosCount == |GetPhotos(db, db.users[i].id)|
  }

  predicate PhotosOwned(db: Db)
  {
    forall k :: 0 <= k < |db.photos| ==> GetUser(db, db.photos[k].userId).Some?
  }

  /** A user without a row has no photos when every photo has an owner. */
  lemma {:induction false} NoPhotosOfStranger(ps: seq<Photo>, users: seq<User>, id: int)
    requires forall k :: 0 <= k < |ps| ==> FindUser(users, ps[k].userId).Some?
    requires FindUser(users, id).None?
    ensures PhotosOf(ps, id) == []
  {
    if |ps| > 0 {
      NoPhotosOfStranger(ps[..|ps| - 1], users, id);
    }
  }

  lemma EmptyCountsMatch()
    ensures PhotoCountsMatch(Empty)
  {
  }

  /** Creating a user keeps the counters exact. */
  lemma CreateUserKeepsCounts(db: Db, id: int, username: string, now: int)
    requires PhotoCountsMatch(db)
    requires CreateUser(db, id, username, now).Some?
    ensures PhotoCountsMatch(CreateUser(db, id, username, now).value)
  {
    var u := User(id, username, "new", now, 0, false, None, None);
    var after := CreateUser(db, id, username, now).value;
    assert after == db.(users := db.users + [u]);
    NoPhotosOfStranger(db.photos, db.users, id);
    forall i | 0 <= i < |after.users|
      ensures after.users[i].photosCount == |GetPhotos(after, after.users[i].id)|
    {
      if i < |db.users| {
        assert after.users[i] == db.users[i];
      }
    }
    forall k | 0 <= k < |after.photos|
      ensures GetUser(after, after.photos[k].userId).Some?
    {
      FindAfterAppend(db.users, u, after.photos[k].userId);
    }
    forall i, j | 0 <= i < j < |after.users|
      ensures after.users[i].id != after.users[j].id
    {
      if j == |db.users| {
        assert after.users[i] == db.users[i];
      }
    }
  }

  /** A status change keeps the counters exact. */
  lemma UpdateStatusKeepsCounts(db: Db, id: int, status: string, now: int)
    requires PhotoCountsMatch(db)
    ensures PhotoCountsMatch(UpdateUserStatus(db, id, status, now))
  {
    var f := (u: User) => u.(status := status, lastActivity := now);
    var after := UpdateUserStatus(db, id, status, now);
    forall k | 0 <= k < |after.photos|
      ensures GetUser(after, after.photos[k].userId).Some?
    {
      FindAfterUpdate(db.users, id, f, after.photos[k].userId);
    }
  }

  /** Saving a photo of an existing user keeps the counters exact. */
  lemma SavePhotoKeepsCounts(db: Db, userId: int, fileId: string)
    requires PhotoCountsMatch(db)
    requires GetUser(db, userId).Some?
    ensures PhotoCountsMatch(SavePhoto(db, userId, fileId))
  {
    var after := SavePhoto(db, userId, fileId);
    var f := (u: User) => u.(photosCount := u.photosCount + 1);
    forall k | 0 <= k < |after.photos|
      ensures GetUser(after, after.photos[k].userId).Some?
    {
      FindAfterUpdate(db.users, userId, f, after.photos[k].userId);
      if k < |db.photos| {
        assert after.photos[k] == db.photos[k];
      }
    }
    forall i | 0 <= i < |after.users|
      ensures after.users[i].photosCount == |GetPhotos(after, after.users[i].id)|
    {
      assert after.users[i].id == db.users[i].id;
      SavePhotoEffect(db, userId, fileId, db.users[i].id);
    }
    assert CountsExact(after);
    assert UniqueIds(after.users);
  }

  // ---------------------------------------------------------------- applications

  /** `create_application(user_id, work_hours, experience)`. */
  function CreateApplication(db: Db, userId: int, workHours: Option<string>, experience: string): Db
  {
    db.(applications := db.applications + [Application(userId, workHours, experience, "pending")])
  }

  /** `update_application_status(user_id, status)`: only that user's
    * applications still pending change. */
  function UpdateApplicationStatus(db: Db, userId: int, status: string): (r: Db)
    ensures |r.applications| == |db.applications|
  {
    var apps := db.applications;
    db.(applications := seq(|apps|, i requires 0 <= i < |apps| =>
      if apps[i].userId == userId && apps[i].status == "pending" then apps[i].(status := status) else apps[i]))
  }

  /** A decision changes exactly the user's pending applications, all of
    * them, and only their status. */
  lemma DecisionEffect(db: Db, userId: int, status: string, i: nat)
    requires i < |db.applications|
    ensures var a := db.applications[i];
      UpdateApplicationStatus(db, userId, status).applications[i] ==
        if a.userId == userId && a.status == "pending" then a.(status := status) else a
  {
  }

  /** Once decided, a second decision leaves the applications as they are. */
  lemma DecisionIsFinal(db: Db, userId: int, first: string, second: string)
    requires first != "pending"
    ensures UpdateApplicationStatus(UpdateApplicationStatus(db, userId, first), userId, second).applications ==
      UpdateApplicationStatus(db, userId, first).applications
  {
  }

  /** A new application is pending. */
  lemma NewApplicationPending(db: Db, userId: int, workHours: Option<string>, experience: string)
    ensures var apps := CreateApplication(db, userId, workHours, experience).applications;
      |apps| == |db.applications| + 1 && apps[|apps| - 1].status == "pending" && apps[..|apps| - 1] == db.applications
  {
  }

  // ---------------------------------------------------------------- learning log

  /** `save_ai_learning(question, answer, source, confidence)`. */
  function SaveAiLearning(db: Db, question: string, answer: string, source: string, confidence: int): Db
  {
    db.(learning := db.learning + [Learning(question, answer, source, confidence)])
  }

  /** `get_ai_learning()`: every record, highest confidence first. */
  function GetAiLearning(db: Db): (r: seq<Learning>)
    ensures SortedDesc(r, Confidence)
    ensures multiset(r) == multiset(db.learning)
  {
    SortDescCorrect(db.learning, Confidence);
    SortDesc(db.learning, Confidence)
  }

  /** The log only grows: a save adds one record at the end, and the counts
    * by source grow by one for the saved source only. */
  lemma LearningAppendOnly(db: Db, question: string, answer: string, source: string, confidence: int, s: string)
    ensures var log := SaveAiLearning(db, question, answer, source, confidence).learning;
      |log| == |db.learning| + 1 && log[..|db.learning|] == db.learning
    ensures CountWhere(SaveAiLearning(db, question, answer, source, confidence).learning, SourceColumn, s) ==
      CountWhere(db.learning, SourceColumn, s) + (if s == source then 1 else 0)
  {
    CountWhereAppend(db.learning, Learning(question, answer, source, confidence), SourceColumn, s);
  }

  /** A row added at the end is counted iff it has the value. */
  lemma {:induction false} CountWhereAppend<T>(rows: seq<T>, x: T, key: T -> string, v: string)
    ensures CountWhere(rows + [x], key, v) == CountWhere(rows, key, v) + (if key(x) == v then 1 else 0)
  {
    if |rows| > 0 {
      assert (rows + [x])[1..] == rows[1..] + [x];
      CountWhereAppend(rows[1..], x, key, v);
    }
  }

  // ---------------------------------------------------------------- forbidden topics

  /** `add_forbidden_topic(topic, keywords)`: a row with the next id. */
  function AddForbiddenTopic(db: Db, topic: string, keywords: seq<string>): Db
  {
    db.(topics := db.topics + [TopicRow(db.nextTopicId, topic, keywords)], nextTopicId := db.nextTopicId + 1)
  }

  /** `delete_forbidden_topic(topic_id)`. */
  function DeleteForbiddenTopic(db: Db, topicId: int): Db
  {
    db.(topics := WithoutTopic(db.topics, topicId))
  }

  /** The rows whose id differs from `topicId`, in order. */
  function WithoutTopic(ts: seq<TopicRow>, topicId: int): (r: seq<TopicRow>)
    ensures forall k :: 0 <= k < |r| ==> r[k] in ts && r[k].id != topicId
    ensures forall t :: t in ts && t.id != topicId ==> t in r
  {
    if |ts| == 0 then []
    else if ts[0].id == topicId then WithoutTopic(ts[1..], topicId)
    else [ts[0]] + WithoutTopic(ts[1..], topicId)
  }

  /** `init_forbidden_topics()`: one row per configured topic, on every
    * call, since no column is unique. */
  function InitForbiddenTopics(db: Db): Db
  {
    AddTopics(db, Config.ForbiddenTopics)
  }

  function AddTopics(db: Db, ts: seq<Config.Topic>): (r: Db)
    ensures |r.topics| == |db.topics| + |ts|
    ensures r.topics[..|db.topics|] == db.topics
    ensures r.nextTopicId == db.nextTopicId + |ts|
    ensures r.(topics := db.topics, nextTopicId := db.nextTopicId) == db
    decreases |ts|
  {
    if |ts| == 0 then db
    else
      var r := AddTopics(AddForbiddenTopic(db, ts[0].name, ts[0].keywords), ts[1..]);
      assert r.topics[..|db.topics|] == r.topics[..|db.topics| + 1][..|db.topics|];
      r
  }

  /** `get_forbidden_topics_from_db()`: every row. */
  function GetForbiddenTopics(db: Db): seq<TopicRow>
  {
    db.topics
  }

  /** The keyword lists the forbidden-topic filter reads. */
  function TopicKeywords(db: Db): (ks: seq<seq<string>>)
    ensures |ks| == |db.topics|
    ensures forall t :: 0 <= t < |ks| ==> ks[t] == db.topics[t].keywords
  {
    seq(|db.topics|, t requires 0 <= t < |db.topics| => db.topics[t].keywords)
  }

  /** Topic ids below the counter, increasing. */
  predicate TopicIdsOrdered(db: Db)
  {
    (forall k :: 0 <= k < |db.topics| ==> db.topics[k].id < db.nextTopicId) &&
    (forall i, j :: 0 <= i < j < |db.topics| ==> db.topics[i].id < db.topics[j].id)
  }

  /** Starting twice stores the configured topics twice. */
  lemma InitTwiceDuplicates(db: Db)
    ensures |InitForbiddenTopics(InitForbiddenTopics(db)).topics| == |db.topics| + 2 * |Config.ForbiddenTopics|
  {
  }

  /** Adding keeps ids distinct, and deleting removes exactly the rows with
    * that id. */
  lemma TopicTableOps(db: Db, topic: string, keywords: seq<string>, topicId: int)
    requires TopicIdsOrdered(db)
    ensures TopicIdsOrdered(AddForbiddenTopic(db, topic, keywords))
    ensures forall t :: t in DeleteForbiddenTopic(db, topicId).topics <==> t in db.topics && t.id != topicId
  {
  }

  // ---------------------------------------------------------------- group messages

  /** The record of a group message, if captured. */
  function FindGroupMessage(gms: seq<GroupMessage>, messageId: int): (r: Option<GroupMessage>)
    ensures r.Some? ==> r.value in gms && r.value.messageId == messageId
    ensures r.None? <==> forall k :: 0 <= k < |gms| ==> gms[k].messageId != messageId
  {
    if |gms| == 0 then None
    else if gms[0].messageId == messageId then Some(gms[0])
    else
      var r := FindGroupMessage(gms[1..], messageId);
      assert forall k :: 1 <= k < |gms| ==> gms[k] == gms[1..][k - 1];
      r
  }

  /** `save_group_message(...)`: INSERT OR IGNORE on the unique message id. */
  function SaveGroupMessage(db: Db, messageId: int, kind: string, content: Option<string>, fileId: Option<string>,
                            username: Option<string>): Db
  {
    if FindGroupMessage(db.groupMessages, messageId).Some? then db
    else db.(groupMessages := db.groupMessages + [GroupMessage(messageId, kind, content, fileId, username, false)])
  }

  /** `get_unprocessed_messages()`: records not yet processed, in time
    * order. */
  function GetUnprocessedMessages(db: Db): seq<GroupMessage>
  {
    Unprocessed(db.groupMessages)
  }

  function Unprocessed(gms: seq<GroupMessage>): (r: seq<GroupMessage>)
    ensures forall k :: 0 <= k < |r| ==> !r[k].processed && r[k] in gms
    ensures forall g :: g in gms && !g.processed ==> g in r
  {
    if |gms| == 0 then []
    else if gms[0].processed then Unprocessed(gms[1..])
    else [gms[0]] + Unprocessed(gms[1..])
  }

  /** `mark_message_processed(message_id)`. */
  function MarkMessageProcessed(db: Db, messageId: int): Db
  {
    var gms := db.groupMessages;
    db.(groupMessages := seq(|gms|, i requires 0 <= i < |gms| =>
      if gms[i].messageId == messageId then gms[i].(processed := true) else gms[i]))
  }

  /** `get_all_group_messages()`. */
  function GetAllGroupMessages(db: Db): seq<GroupMessage>
  {
    db.groupMessages
  }

  /** `clear_group_messages()`. */
  function ClearGroupMessages(db: Db): Db
  {
    db.(groupMessages := [])
  }

  /** The first capture of a message id wins, a new record is unprocessed,
    * and marking is idempotent. */
  lemma GroupMessageTable(db: Db, messageId: int, kind: string, content: Option<string>, fileId: Option<string>,
                          username: Option<string>, kind2: string, content2: Option<string>)
    ensures var once := SaveGroupMessage(db, messageId, kind, content, fileId, username);
      SaveGroupMessage(once, messageId, kind2, content2, fileId, username) == once
    ensures FindGroupMessage(db.groupMessages, messageId).None? ==>
      FindGroupMessage(SaveGroupMessage(db, messageId, kind, content, fileId, username).groupMessages, messageId)
        == Some(GroupMessage(messageId, kind, content, fileId, username, false))
    ensures MarkMessageProcessed(MarkMessageProcessed(db, messageId), messageId) == MarkMessageProcessed(db, messageId)
  {
    var once := SaveGroupMessage(db, messageId, kind, content, fileId, username);
    if FindGroupMessage(db.groupMessages, messageId).None? {
      FindGroupAppend(db.groupMessages, GroupMessage(messageId, kind, content, fileId, username, false));
    }
  }

  lemma {:induction false} FindGroupAppend(gms: seq<GroupMessage>, g: GroupMessage)
    requires FindGroupMessage(gms, g.messageId).None?
    ensures FindGroupMessage(gms + [g], g.messageId) == Some(g)
  {
    if |gms| > 0 {
      assert (gms + [g])[1..] == gms[1..] + [g];
      FindGroupAppend(gms[1..], g);
    }
  }

  /** After marking, the message is no longer listed as unprocessed. */
  lemma MarkedNotUnprocessed(db: Db, messageId: int)
    ensures forall g :: g in GetUnprocessedMessages(MarkMessageProcessed(db, messageId)) ==> g.messageId != messageId
  {
  }

  /** Clearing empties the table. */
  lemma ClearEmpties(db: Db)
    ensures GetAllGroupMessages(ClearGroupMessages(db)) == [] && GetUnprocessedMessages(ClearGroupMessages(db)) == []
  {
  }
}
