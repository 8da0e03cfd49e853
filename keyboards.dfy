/** The operator's inline keyboards (keyboards/admin.py) and the decoding of
  * their callback data in the handlers (`int(data.split("_")[k])`). A
  * keyboard is a sequence of rows, a row a sequence of buttons. */
module Keyboards {
  import opened Text

  /** An inline button: its label and its callback data. */
  datatype Button = Button(caption: string, data: string)

  /** Users listed on the conversations keyboard. */
  const MaxListedUsers: nat := 20

  /** The default status mark. */
  const UnknownStatusEmoji: string := "❓"

  /** `int(s)` for what the keyboards put after an underscore: a run of
    * decimal digits. */
  function ParseId(s: string): (r: Option<nat>)
    ensures r.Some? <==> IsDigits(s)
    ensures r.Some? ==> r.value == DigitsValue(s)
  {
    if IsDigits(s) then Some(DigitsValue(s)) else None
  }

  /** `int(data.split("_")[k])`; None where Python raises (too few pieces, or
    * a piece that is not a number). */
  function CallbackId(data: string, k: nat): (r: Option<nat>)
    ensures r.Some? ==> k < |SplitOn(data, '_')| && IsDigits(SplitOn(data, '_')[k])
  {
    var pieces := SplitOn(data, '_');
    if k < |pieces| then ParseId(pieces[k]) else None
  }

  function ApproveData(userId: nat): string { "approve_" + NatToString(userId) }
  function RejectData(userId: nat): string { "reject_" + NatToString(userId) }
  function AnswerData(userId: nat): string { "answer_" + NatToString(userId) }
  function ViewConversationData(userId: nat): string { "view_conv_" + NatToString(userId) }
  function DeleteTopicData(topicId: nat): string { "delete_topic_" + NatToString(topicId) }
  const AddTopicData: string := "add_forbidden_topic"

  /** `admin_review_keyboard(user_id)`: one row, approve then reject. */
  function ReviewKeyboard(userId: nat): (rows: seq<seq<Button>>)
    ensures |rows| == 1 && |rows[0]| == 2
    ensures CallbackId(rows[0][0].data, 1) == Some(userId)
    ensures CallbackId(rows[0][1].data, 1) == Some(userId)
    ensures IsPrefix("approve_", rows[0][0].data) && IsPrefix("reject_", rows[0][1].data)
  {
    OneFieldRoundTrip("approve_", "approve", userId);
    OneFieldRoundTrip("reject_", "reject", userId);
    [[Button("✅ Одобрить", ApproveData(userId)), Button("❌ Отказать", RejectData(userId))]]
  }

  /** `admin_answer_keyboard(user_id)`: one button. */
  function AnswerKeyboard(userId: nat): (rows: seq<seq<Button>>)
    ensures |rows| == 1 && |rows[0]| == 1
    ensures CallbackId(rows[0][0].data, 1) == Some(userId)
    ensures IsPrefix("answer_", rows[0][0].data)
  {
    OneFieldRoundTrip("answer_", "answer", userId);
    [[Button("💬 Ответить", AnswerData(userId))]]
  }

  /** The mark shown before a user's name, by status. */
  function StatusEmoji(status: string): string
  {
    if status == "new" then "🆕"
    else if status == "chatting" then "💬"
    else if status == "pending_review" then "⏳"
    else if status == "approved" then "✅"
    else if status == "rejected" then "❌"
    else if status == "registered" then "📝"
    else if status == "waiting_screenshot" then "📸"
    else UnknownStatusEmoji
  }

  /** The seven statuses of the table. */
  const EmojiStatuses: seq<string> :=
    ["new", "chatting", "pending_review", "approved", "rejected", "registered", "waiting_screenshot"]

  /** Statuses outside the table get the question mark, and only they do. */
  lemma StatusEmojiDefault(status: string)
    ensures StatusEmoji(status) == UnknownStatusEmoji <==> status !in EmojiStatuses
  {
  }

  /** A row of the user list: id, username and status of a user. */
  datatype ListedUser = ListedUser(id: nat, username: string, status: string)

  function UserButton(u: ListedUser): Button
  {
    Button(StatusEmoji(u.status) + " @" + u.username + " (" + u.status + ")", ViewConversationData(u.id))
  }

  /** `users_list_keyboard(users)`: a row per user among the first twenty. */
  function UsersListKeyboard(users: seq<ListedUser>): (rows: seq<seq<Button>>)
    ensures |rows| == if |users| < MaxListedUsers then |users| else MaxListedUsers
  {
    var shown := if |users| <= MaxListedUsers then users else users[..MaxListedUsers];
    seq(|shown|, i requires 0 <= i < |shown| => [UserButton(shown[i])])
  }

  /** Each row of the user list decodes to the id of the user it shows, in
    * list order. */
  lemma UsersListDecodes(users: seq<ListedUser>, i: nat)
    requires i < |UsersListKeyboard(users)|
    ensures |UsersListKeyboard(users)[i]| == 1
    ensures CallbackId(UsersListKeyboard(users)[i][0].data, 2) == Some(users[i].id)
  {
    assert UsersListKeyboard(users)[i] == [UserButton(users[i])];
    TwoFieldRoundTrip("view_conv_", "view", "conv", users[i].id);
  }

  /** A topic row: id and name. */
  datatype ListedTopic = ListedTopic(id: nat, topic: string)

  /** `forbidden_topics_keyboard(topics)`: a delete row per topic, then the
    * add row. */
  function TopicsKeyboard(topics: seq<ListedTopic>): (rows: seq<seq<Button>>)
    ensures |rows| == |topics| + 1
    ensures rows[|topics|] == [Button("➕ Добавить тему", AddTopicData)]
  {
    seq(|topics|, i requires 0 <= i < |topics| => [Button("❌ " + topics[i].topic, DeleteTopicData(topics[i].id))])
    + [[Button("➕ Добавить тему", AddTopicData)]]
  }

  /** Each delete row decodes to its topic's id. */
  lemma TopicsKeyboardDecodes(topics: seq<ListedTopic>, i: nat)
    requires i < |topics|
    ensures CallbackId(TopicsKeyboard(topics)[i][0].data, 2) == Some(topics[i].id)
  {
    assert TopicsKeyboard(topics)[i][0].data == DeleteTopicData(topics[i].id);
    TwoFieldRoundTrip("delete_topic_", "delete", "topic", topics[i].id);
  }

  /** `{a}_{id}` gives `id` back from piece 1. */
  lemma OneFieldRoundTrip(prefix: string, a: string, n: nat)
    requires '_' !in a && prefix == a + ['_']
    ensures CallbackId(prefix + NatToString(n), 1) == Some(n)
  {
    var d := NatToString(n);
    DigitsHaveNoSeparator(d);
    SplitFirst(a, d, '_');
    SplitNone(d, '_');
    NatToStringValue(n);
  }

  /** `{a}_{b}_{id}` gives `id` back from piece 2. */
  lemma TwoFieldRoundTrip(prefix: string, a: string, b: string, n: nat)
    requires '_' !in a && '_' !in b && prefix == a + ['_'] + b + ['_']
    ensures CallbackId(prefix + NatToString(n), 2) == Some(n)
  {
    var d := NatToString(n);
    DigitsHaveNoSeparator(d);
    assert prefix + d == a + ['_'] + (b + ['_'] + d);
    SplitFirst(a, b + ['_'] + d, '_');
    SplitFirst(b, d, '_');
    SplitNone(d, '_');
    NatToStringValue(n);
  }

  lemma DigitsHaveNoSeparator(d: string)
    requires IsDigits(d)
    ensures '_' !in d
  {
  }

  /** The callbacks of the review keyboard name the same user for both
    * decisions, and the handlers' decoding reads it back. */
  lemma ReviewRoundTrip(userId: nat)
    ensures CallbackId(ApproveData(userId), 1) == Some(userId)
    ensures CallbackId(RejectData(userId), 1) == Some(userId)
    ensures CallbackId(AnswerData(userId), 1) == Some(userId)
    ensures CallbackId(ViewConversationData(userId), 2) == Some(userId)
    ensures CallbackId(DeleteTopicData(userId), 2) == Some(userId)
  {
    OneFieldRoundTrip("approve_", "approve", userId);
    OneFieldRoundTrip("reject_", "reject", userId);
    OneFieldRoundTrip("answer_", "answer", userId);
    TwoFieldRoundTrip("view_conv_", "view", "conv", userId);
    TwoFieldRoundTrip("delete_topic_", "delete", "topic", userId);
  }
}
