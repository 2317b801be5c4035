/**
 * The conversation-memory agent over an in-memory store of users, conversations and
 * messages. Rows are identified by their position in the store, and a row stored later was
 * created later, which stands for the `created_at` ordering the database queries use.
 * Timestamps are whole seconds supplied by the caller.
 */
module ContextAgent {
  import opened Wrappers
  import opened Text
  import opened Json
  import opened BaseAgent

  const AgentName := "Context_Memory_Agent"

  /** The default number of messages retrieved (`MAX_CONVERSATION_HISTORY`). */
  const MaxConversationHistory: nat := 15

  const SecondsPerDay: int := 86400

  /** A user row: its subscriber id is unique; timezone and language have column defaults. */
  datatype User = User(
    subscriberId: string, name: Option<string>, timezone: string, language: string,
    lastInteraction: int)

  /** A conversation row, belonging to the user at index `user`. */
  datatype Conversation = Conversation(
    user: nat, startedAt: int, lastMessageAt: int, messageCount: int, isActive: bool,
    topics: Option<seq<string>>)

  /** A message row, in the conversation at index `conversation`, by the user at `user`. */
  datatype Message = Message(
    conversation: nat, user: nat, role: string, content: string, messageType: string,
    agentsUsed: Option<seq<string>>, citations: Option<seq<Json>>, createdAt: int)

  /** A new user: only the subscriber id is given, the rest takes the column defaults. */
  function NewUser(subscriberId: string, now: int): User {
    User(subscriberId, None, "UTC", "en", now)
  }

  /** A new conversation: active, with no messages counted yet. */
  function NewConversation(user: nat, now: int): Conversation {
    Conversation(user, now, now, 0, true, None)
  }

  /** The user row with this subscriber id, if any. */
  function FindUser(users: seq<User>, subscriberId: string): (r: Option<nat>)
    ensures r.Some? ==> r.value < |users| && users[r.value].subscriberId == subscriberId
    ensures r.None? ==> forall k :: 0 <= k < |users| ==> users[k].subscriberId != subscriberId
  {
    if users == [] then None
    else match FindUser(users[..|users| - 1], subscriberId)
      case Some(i) => Some(i)
      case None => if users[|users| - 1].subscriberId == subscriberId then Some(|users| - 1) else None
  }

  /** With unique subscriber ids, the user found is the one holding the id. */
  lemma FindUserUnique(users: seq<User>, subscriberId: string, i: nat)
    requires UniqueIds(users)
    requires i < |users| && users[i].subscriberId == subscriberId
    ensures FindUser(users, subscriberId) == Some(i)
  {
    var j := FindUser(users, subscriberId).value;
    assert !(i < j) && !(j < i);
  }

  /** The first active conversation of the user at index `user`, if any. */
  function FindActive(conversations: seq<Conversation>, user: nat): (r: Option<nat>)
    ensures r.Some? ==>
              r.value < |conversations| && conversations[r.value].user == user &&
              conversations[r.value].isActive
    ensures r.None? ==>
              forall k :: 0 <= k < |conversations| ==>
                !(conversations[k].user == user && conversations[k].isActive)
  {
    if conversations == [] then None
    else match FindActive(conversations[..|conversations| - 1], user)
      case Some(i) => Some(i)
      case None =>
        var last := conversations[|conversations| - 1];
        if last.user == user && last.isActive then Some(|conversations| - 1) else None
  }

  /** How many messages belong to the conversation at index `c`. */
  function CountIn(messages: seq<Message>, c: nat): (n: nat)
    ensures n <= |messages|
  {
    if messages == [] then 0
    else CountIn(messages[..|messages| - 1], c) + (if messages[|messages| - 1].conversation == c then 1 else 0)
  }

  lemma CountInAppend(messages: seq<Message>, m: Message, c: nat)
    ensures CountIn(messages + [m], c) == CountIn(messages, c) + (if m.conversation == c then 1 else 0)
  {
    assert (messages + [m])[..|messages|] == messages;
  }

  /** A conversation no message points to has a count of zero. */
  lemma {:induction false} CountInAbsent(messages: seq<Message>, c: nat)
    requires forall k :: 0 <= k < |messages| ==> messages[k].conversation != c
    ensures CountIn(messages, c) == 0
    decreases |messages|
  {
    if messages != [] {
      CountInAbsent(messages[..|messages| - 1], c);
    }
  }

  /** The messages of the user at index `user`, oldest first. */
  function UserMessages(messages: seq<Message>, user: nat): (r: seq<Message>)
    ensures |r| <= |messages|
    ensures forall k :: 0 <= k < |r| ==> r[k].user == user
  {
    if messages == [] then []
    else
      var init := UserMessages(messages[..|messages| - 1], user);
      var last := messages[|messages| - 1];
      if last.user == user then init + [last] else init
  }

  /** Selecting a user's messages distributes over concatenation. */
  lemma {:induction false} UserMessagesAppend(a: seq<Message>, b: seq<Message>, user: nat)
    ensures UserMessages(a + b, user) == UserMessages(a, user) + UserMessages(b, user)
    decreases |b|
  {
    if b == [] {
      assert a + b == a;
    } else {
      assert (a + b)[..|a + b| - 1] == a + b[..|b| - 1];
      UserMessagesAppend(a, b[..|b| - 1], user);
    }
  }

  /** The last `limit` elements, in their original order. */
  function Newest<T>(xs: seq<T>, limit: nat): (r: seq<T>)
    ensures |r| == if |xs| <= limit then |xs| else limit
    ensures r == xs[|xs| - |r|..]
  {
    if |xs| <= limit then xs else xs[|xs| - limit..]
  }

  function Reverse<T>(xs: seq<T>): (r: seq<T>)
    ensures |r| == |xs|
  {
    if xs == [] then [] else Reverse(xs[1..]) + [xs[0]]
  }

  lemma {:induction false} ReverseIndex<T>(xs: seq<T>, k: nat)
    requires k < |xs|
    ensures Reverse(xs)[k] == xs[|xs| - 1 - k]
    decreases |xs|
  {
    if k < |xs| - 1 {
      ReverseIndex(xs[1..], k);
    }
  }

  /** The history record of a message. */
  datatype HistoryItem = HistoryItem(
    role: string, content: string, messageType: string, createdAt: int,
    citations: Option<seq<Json>>)

  function Item(m: Message): HistoryItem {
    HistoryItem(m.role, m.content, m.messageType, m.createdAt, m.citations)
  }

  function Items(ms: seq<Message>): (r: seq<HistoryItem>)
    ensures |r| == |ms| && forall k :: 0 <= k < |ms| ==> r[k] == Item(ms[k])
  {
    seq(|ms|, k requires 0 <= k < |ms| => Item(ms[k]))
  }

  /**
   * The history of a subscriber: the newest `limit` of the user's messages (from all of
   * their conversations), oldest first; an unknown subscriber has none.
   */
  function HistoryOf(users: seq<User>, messages: seq<Message>, subscriberId: string, limit: nat)
    : (h: seq<HistoryItem>)
    ensures |h| <= limit
    ensures FindUser(users, subscriberId).None? ==> h == []
    ensures FindUser(users, subscriberId).Some? ==>
              var mine := UserMessages(messages, FindUser(users, subscriberId).value);
              && |h| == (if |mine| <= limit then |mine| else limit)
              && h == Items(mine[|mine| - |h|..])
  {
    match FindUser(users, subscriberId)
    case None => []
    case Some(u) => Items(Newest(UserMessages(messages, u), limit))
  }

  /** After a message of the user is stored, the user's history (if asked for any) ends with it. */
  lemma HistoryEndsWithNewest(users: seq<User>, messages: seq<Message>, m: Message,
                              subscriberId: string, limit: nat)
    requires FindUser(users, subscriberId) == Some(m.user)
    requires limit >= 1
    ensures var h := HistoryOf(users, messages + [m], subscriberId, limit);
            h != [] && h[|h| - 1] == Item(m)
  {
    UserMessagesAppend(messages, [m], m.user);
    assert UserMessages([m], m.user) == [m] by {
      assert [m][..0] == [];
    }
  }

  /** `_format_history`: one `Role: content` line per message, in order, or a fixed text. */
  function FormatHistoryText(history: seq<HistoryItem>): (text: string)
    ensures history == [] ==> text == "No previous conversation."
    ensures history != [] ==>
              exists lines: seq<string> ::
                && text == Join(lines, "\n")
                && |lines| == |history|
                && forall k :: 0 <= k < |lines| ==> lines[k] == HistoryLine(history[k])
  {
    if history == [] then "No previous conversation." else Join(HistoryLines(history), "\n")
  }

  function HistoryLine(item: HistoryItem): string {
    Capitalize(item.role) + ": " + item.content
  }

  function HistoryLines(history: seq<HistoryItem>): (lines: seq<string>)
    ensures |lines| == |history| && forall k :: 0 <= k < |lines| ==> lines[k] == HistoryLine(history[k])
  {
    seq(|history|, k requires 0 <= k < |history| => HistoryLine(history[k]))
  }

  /** `_format_history` as written: the append loop, then the join. */
  method FormatHistory(history: seq<HistoryItem>) returns (text: string)
    ensures text == FormatHistoryText(history)
  {
    if history == [] {
      return "No previous conversation.";
    }
    var formatted: seq<string> := [];
    for i := 0 to |history|
      invariant formatted == HistoryLines(history[..i])
    {
      formatted := formatted + [HistoryLine(history[i])];
    }
    assert history[..|history|] == history;
    text := Join(formatted, "\n");
  }

  /** The topics of the user's conversations whose last message is at or after `since`. */
  function TopicList(conversations: seq<Conversation>, user: nat, since: int): seq<string> {
    if conversations == [] then []
    else
      var init := TopicList(conversations[..|conversations| - 1], user, since);
      var c := conversations[|conversations| - 1];
      if c.user == user && c.lastMessageAt >= since && c.topics.Some? then init + c.topics.value
      else init
  }

  /** A conversation's topics count when it is the user's and recent enough. */
  predicate RecentTopic(c: Conversation, user: nat, since: int, t: string) {
    c.user == user && c.lastMessageAt >= since && c.topics.Some? && t in c.topics.value
  }

  lemma {:induction false} TopicListExactly(conversations: seq<Conversation>, user: nat, since: int, t: string)
    ensures t in TopicList(conversations, user, since) <==>
            exists k :: 0 <= k < |conversations| && RecentTopic(conversations[k], user, since, t)
    decreases |conversations|
  {
    if conversations != [] {
      var init := conversations[..|conversations| - 1];
      TopicListExactly(init, user, since, t);
      if t in TopicList(init, user, since) {
        var k :| 0 <= k < |init| && RecentTopic(init[k], user, since, t);
        assert conversations[k] == init[k];
      }
      if exists k :: 0 <= k < |conversations| && RecentTopic(conversations[k], user, since, t) {
        var k :| 0 <= k < |conversations| && RecentTopic(conversations[k], user, since, t);
        if k < |init| {
          assert init[k] == conversations[k];
        }
      }
    }
  }

  /**
   * The de-duplicated topics of a subscriber's recent conversations: a topic is in the set
   * exactly when some conversation of the user, last active at or after `since`, lists it.
   */
  function RecentTopics(users: seq<User>, conversations: seq<Conversation>, subscriberId: string,
                        since: int): (topics: set<string>)
    ensures FindUser(users, subscriberId).None? ==> topics == {}
    ensures FindUser(users, subscriberId).Some? ==>
              forall t :: t in topics <==>
                exists k :: 0 <= k < |conversations| &&
                  RecentTopic(conversations[k], FindUser(users, subscriberId).value, since, t)
  {
    match FindUser(users, subscriberId)
    case None => {}
    case Some(u) =>
      var list := TopicList(conversations, u, since);
      assert forall t :: t in list <==>
        exists k :: 0 <= k < |conversations| && RecentTopic(conversations[k], u, since, t) by {
        forall t ensures t in list <==>
          exists k :: 0 <= k < |conversations| && RecentTopic(conversations[k], u, since, t) {
          TopicListExactly(conversations, u, since, t);
        }
      }
      set t | t in list
  }

  /** What `_get_user_info` reports: the user's profile, or `{}` for an unknown subscriber. */
  function UserInfo(users: seq<User>, subscriberId: string): (info: Json)
    ensures FindUser(users, subscriberId).None? ==> info == JObj([])
    ensures FindUser(users, subscriberId).Some? ==>
              var u := users[FindUser(users, subscriberId).value];
              && info.JObj? && |info.fields| == 4
              && Get(info.fields, "name") == Some(if u.name.Some? then JStr(u.name.value) else JNull)
              && Get(info.fields, "timezone") == Some(JStr(u.timezone))
              && Get(info.fields, "language") == Some(JStr(u.language))
              && Get(info.fields, "last_interaction") == Some(JInt(u.lastInteraction))
  {
    match FindUser(users, subscriberId)
    case None => JObj([])
    case Some(i) =>
      var u := users[i];
      var fields := [("name", if u.name.Some? then JStr(u.name.value) else JNull),
                     ("timezone", JStr(u.timezone)), ("language", JStr(u.language)),
                     ("last_interaction", JInt(u.lastInteraction))];
      assert Get(fields[3..], "last_interaction") == Some(JInt(u.lastInteraction));
      assert Get(fields[2..], "language") == Some(JStr(u.language));
      assert Get(fields[2..], "last_interaction") == Get(fields[3..], "last_interaction");
      assert Get(fields[1..], "language") == Some(JStr(u.language));
      assert Get(fields[1..], "last_interaction") == Get(fields[2..], "last_interaction");
      JObj(fields)
  }

  function HistoryJson(history: seq<HistoryItem>): Json {
    JArr(seq(|history|, k requires 0 <= k < |history| =>
      JObj([("role", JStr(history[k].role)), ("content", JStr(history[k].content)),
            ("message_type", JStr(history[k].messageType)),
            ("created_at", JInt(history[k].createdAt)),
            ("citations", if history[k].citations.Some? then JArr(history[k].citations.value) else JNull)])))
  }

  /** The index the user with this subscriber id has, or will have once created. */
  function StoredUser(users: seq<User>, subscriberId: string): (u: nat)
    ensures u <= |users|
    ensures u < |users| <==> FindUser(users, subscriberId).Some?
  {
    match FindUser(users, subscriberId)
    case Some(i) => i
    case None => |users|
  }

  /** Subscriber ids are unique. */
  predicate UniqueIds(users: seq<User>) {
    forall i, j :: 0 <= i < j < |users| ==> users[i].subscriberId != users[j].subscriberId
  }

  /** Every conversation belongs to a stored user. */
  predicate ConversationsOwned(conversations: seq<Conversation>, userCount: nat) {
    forall c :: 0 <= c < |conversations| ==> conversations[c].user < userCount
  }

  /** A user has at most one active conversation. */
  predicate OneActive(conversations: seq<Conversation>) {
    forall c, d :: 0 <= c < d < |conversations| ==>
      !(conversations[c].isActive && conversations[d].isActive &&
        conversations[c].user == conversations[d].user)
  }

  /** Every message is in a stored conversation, and is by that conversation's user. */
  predicate MessagesLinked(messages: seq<Message>, conversations: seq<Conversation>) {
    forall k :: 0 <= k < |messages| ==>
      messages[k].conversation < |conversations| &&
      messages[k].user == conversations[messages[k].conversation].user
  }

  /** Each conversation's `message_count` is the number of its messages. */
  predicate CountsMatch(conversations: seq<Conversation>, messages: seq<Message>) {
    forall c :: 0 <= c < |conversations| ==> conversations[c].messageCount == CountIn(messages, c)
  }

  /** The store's integrity: all of the above together. */
  predicate StoreValid(users: seq<User>, conversations: seq<Conversation>, messages: seq<Message>) {
    && UniqueIds(users)
    && ConversationsOwned(conversations, |users|)
    && OneActive(conversations)
    && MessagesLinked(messages, conversations)
    && CountsMatch(conversations, messages)
  }

  /** The user step of `save_message` keeps subscriber ids unique. */
  lemma UpsertKeepsIdsUnique(users: seq<User>, subscriberId: string, now: int)
    requires UniqueIds(users)
    ensures FindUser(users, subscriberId).Some? ==>
              var i := FindUser(users, subscriberId).value;
              UniqueIds(users[i := users[i].(lastInteraction := now)])
    ensures FindUser(users, subscriberId).None? ==> UniqueIds(users + [NewUser(subscriberId, now)])
  {
  }

  /**
   * Opening a conversation for a user with none active keeps the links and counts: the new
   * conversation is the user's, active, and has no messages.
   */
  lemma OpenKeepsLinks(conversations: seq<Conversation>, messages: seq<Message>, userCount: nat,
                       u: nat, now: int)
    requires ConversationsOwned(conversations, userCount) && OneActive(conversations)
    requires MessagesLinked(messages, conversations) && CountsMatch(conversations, messages)
    requires u < userCount && FindActive(conversations, u).None?
    ensures var w := conversations + [NewConversation(u, now)];
            && ConversationsOwned(w, userCount) && OneActive(w)
            && MessagesLinked(messages, w) && CountsMatch(w, messages)
  {
    var w := conversations + [NewConversation(u, now)];
    CountInAbsent(messages, |conversations|);
    assert forall c :: 0 <= c < |conversations| ==> w[c] == conversations[c];
  }

  /** Counting message `m` in its conversation keeps the links and counts. */
  lemma BumpKeepsLinks(w: seq<Conversation>, messages: seq<Message>, userCount: nat, m: Message,
                       now: int)
    requires ConversationsOwned(w, userCount) && OneActive(w)
    requires MessagesLinked(messages, w) && CountsMatch(w, messages)
    requires m.conversation < |w| && w[m.conversation].user == m.user
    ensures var c := m.conversation;
            var after := w[c := w[c].(lastMessageAt := now, messageCount := w[c].messageCount + 1)];
            && ConversationsOwned(after, userCount) && OneActive(after)
            && MessagesLinked(messages + [m], after) && CountsMatch(after, messages + [m])
  {
    var c := m.conversation;
    var after := w[c := w[c].(lastMessageAt := now, messageCount := w[c].messageCount + 1)];
    forall d | 0 <= d < |after|
      ensures after[d].messageCount == CountIn(messages + [m], d)
    {
      CountInAppend(messages, m, d);
    }
  }

  /**
   * The conversation and message steps of `save_message` keep the store's links and counts:
   * the message goes to the user's active conversation (a new one when there is none), and
   * that conversation's count goes up by one.
   */
  lemma RecordKeepsLinks(conversations: seq<Conversation>, messages: seq<Message>, userCount: nat,
                         m: Message, now: int)
    requires ConversationsOwned(conversations, userCount) && OneActive(conversations)
    requires MessagesLinked(messages, conversations) && CountsMatch(conversations, messages)
    requires m.user < userCount
    requires FindActive(conversations, m.user).Some? ==> m.conversation == FindActive(conversations, m.user).value
    requires FindActive(conversations, m.user).None? ==> m.conversation == |conversations|
    ensures var c := m.conversation;
            var withActive := if FindActive(conversations, m.user).Some? then conversations
                          else conversations + [NewConversation(m.user, now)];
            var after := withActive[c := withActive[c].(lastMessageAt := now, messageCount := withActive[c].messageCount + 1)];
            && ConversationsOwned(after, userCount) && OneActive(after)
            && MessagesLinked(messages + [m], after) && CountsMatch(after, messages + [m])
  {
    if FindActive(conversations, m.user).None? {
      OpenKeepsLinks(conversations, messages, userCount, m.user, now);
      BumpKeepsLinks(conversations + [NewConversation(m.user, now)], messages, userCount, m, now);
    } else {
      BumpKeepsLinks(conversations, messages, userCount, m, now);
    }
  }

  /** Together, the steps of `save_message` keep the store's integrity. */
  lemma SaveKeepsValid(users: seq<User>, conversations: seq<Conversation>, messages: seq<Message>,
                       subscriberId: string, now: int,
                       newUsers: seq<User>, after: seq<Conversation>, m: Message)
    requires StoreValid(users, conversations, messages)
    requires m.user == StoredUser(users, subscriberId)
    requires FindUser(users, subscriberId).Some? ==>
               newUsers == users[m.user := users[m.user].(lastInteraction := now)]
    requires FindUser(users, subscriberId).None? ==> newUsers == users + [NewUser(subscriberId, now)]
    requires FindActive(conversations, m.user).Some? ==>
               && m.conversation == FindActive(conversations, m.user).value
               && after == conversations[m.conversation := conversations[m.conversation].(
                             lastMessageAt := now,
                             messageCount := conversations[m.conversation].messageCount + 1)]
    requires FindActive(conversations, m.user).None? ==>
               && m.conversation == |conversations|
               && after == conversations + [NewConversation(m.user, now).(messageCount := 1)]
    ensures StoreValid(newUsers, after, messages + [m])
  {
    UpsertKeepsIdsUnique(users, subscriberId, now);
    assert ConversationsOwned(conversations, |newUsers|);
    RecordKeepsLinks(conversations, messages, |newUsers|, m, now);
  }

  /** The three tables of the store, as one value. */
  datatype StoreState = StoreState(users: seq<User>, conversations: seq<Conversation>, messages: seq<Message>)

  /**
   * The store after a `save_message` that reaches the database: exactly one message is
   * appended, by the user holding the subscriber id, who is stamped with the time; a user row
   * is added only when the id is new.
   */
  function AfterSave(s: StoreState, subscriberId: string, role: string, content: string,
                     messageType: string, agentsUsed: Option<seq<string>>,
                     citations: Option<seq<Json>>, now: int): (t: StoreState)
    ensures |t.messages| == |s.messages| + 1 && t.messages[..|s.messages|] == s.messages
    ensures var m := t.messages[|s.messages|];
            && m.role == role && m.content == content && m.messageType == messageType
            && m.agentsUsed == agentsUsed && m.citations == citations && m.createdAt == now
            && m.user < |t.users| && t.users[m.user].subscriberId == subscriberId
            && t.users[m.user].lastInteraction == now
    ensures |t.users| == |s.users| + (if FindUser(s.users, subscriberId).Some? then 0 else 1)
  {
    var found := FindUser(s.users, subscriberId);
    var u: nat := StoredUser(s.users, subscriberId);
    var newUsers := if found.Some? then s.users[u := s.users[u].(lastInteraction := now)]
                    else s.users + [NewUser(subscriberId, now)];
    var active := FindActive(s.conversations, u);
    var c: nat := if active.Some? then active.value else |s.conversations|;
    var withActive := if active.Some? then s.conversations else s.conversations + [NewConversation(u, now)];
    var m := Message(c, u, role, content, messageType, agentsUsed, citations, now);
    var after := withActive[c := withActive[c].(lastMessageAt := now,
                                                messageCount := withActive[c].messageCount + 1)];
    StoreState(newUsers, after, s.messages + [m])
  }

  /** A save that reaches the database keeps the store's integrity. */
  lemma AfterSaveValid(s: StoreState, subscriberId: string, role: string, content: string,
                       messageType: string, agentsUsed: Option<seq<string>>,
                       citations: Option<seq<Json>>, now: int)
    requires StoreValid(s.users, s.conversations, s.messages)
    ensures var t := AfterSave(s, subscriberId, role, content, messageType, agentsUsed, citations, now);
            StoreValid(t.users, t.conversations, t.messages)
  {
    var t := AfterSave(s, subscriberId, role, content, messageType, agentsUsed, citations, now);
    SaveKeepsValid(s.users, s.conversations, s.messages, subscriberId, now,
                   t.users, t.conversations, t.messages[|s.messages|]);
    assert t.messages == s.messages + [t.messages[|s.messages|]];
  }

  /** One step of the newest-first walk: the message at `i - 1` joins the user's, or not. */
  lemma ScanStep(messages: seq<Message>, i: nat, u: nat)
    requires 0 < i <= |messages|
    ensures var m := messages[i - 1];
            Reverse(UserMessages(messages[i - 1..], u)) ==
              if m.user == u then Reverse(UserMessages(messages[i..], u)) + [m]
              else Reverse(UserMessages(messages[i..], u))
  {
    var m := messages[i - 1];
    var rest := UserMessages(messages[i..], u);
    assert messages[i - 1..] == [m] + messages[i..];
    UserMessagesAppend([m], messages[i..], u);
    assert [m][..0] == [];
    if m.user == u {
      assert UserMessages(messages[i - 1..], u) == [m] + rest;
      assert ([m] + rest)[1..] == rest;
    } else {
      assert UserMessages(messages[i - 1..], u) == rest;
    }
  }

  /** The walk stops at the oldest message or once `n` are found: those are the newest `n`. */
  lemma ScanDone(messages: seq<Message>, i: nat, u: nat, n: nat)
    requires i <= |messages|
    requires |UserMessages(messages[i..], u)| <= n
    requires i == 0 || |UserMessages(messages[i..], u)| == n
    ensures UserMessages(messages[i..], u) == Newest(UserMessages(messages, u), n)
  {
    assert messages == messages[..i] + messages[i..];
    UserMessagesAppend(messages[..i], messages[i..], u);
    if i == 0 {
      assert messages[i..] == messages;
    }
  }

  /**
   * The descending, limited query of `_get_conversation_history`: walks the messages from the
   * newest, keeping the user's, until `limit` are found; they come out newest first.
   */
  method ScanNewest(messages: seq<Message>, u: nat, n: nat) returns (newestFirst: seq<Message>)
    ensures newestFirst == Reverse(Newest(UserMessages(messages, u), n))
  {
    newestFirst := [];
    var i: nat := |messages|;
    while i > 0 && |newestFirst| < n
      invariant i <= |messages|
      invariant newestFirst == Reverse(UserMessages(messages[i..], u))
      invariant |newestFirst| <= n
    {
      ScanStep(messages, i, u);
      i := i - 1;
      if messages[i].user == u {
        newestFirst := newestFirst + [messages[i]];
      }
    }
    ScanDone(messages, i, u, n);
  }

  lemma ReverseReverse<T>(xs: seq<T>)
    ensures Reverse(Reverse(xs)) == xs
  {
    forall k | 0 <= k < |xs|
      ensures Reverse(Reverse(xs))[k] == xs[k]
    {
      ReverseIndex(Reverse(xs), k);
      ReverseIndex(xs, |xs| - 1 - k);
    }
  }

  /** The in-place `reverse()` and the conversion to records: oldest first. */
  method OldestFirst(newestFirst: seq<Message>) returns (history: seq<HistoryItem>)
    ensures history == Items(Reverse(newestFirst))
  {
    history := [];
    var k := |newestFirst|;
    while k > 0
      invariant 0 <= k <= |newestFirst|
      invariant |history| == |newestFirst| - k
      invariant forall j :: 0 <= j < |history| ==> history[j] == Item(Reverse(newestFirst)[j])
    {
      k := k - 1;
      ReverseIndex(newestFirst, |history|);
      history := history + [Item(newestFirst[k])];
    }
  }

  /** Once a user's message is stored, their default history ends with it. */
  lemma SavedMessageInHistory(users: seq<User>, messages: seq<Message>, m: Message, subscriberId: string)
    requires UniqueIds(users)
    requires m.user < |users| && users[m.user].subscriberId == subscriberId
    ensures var h := HistoryOf(users, messages + [m], subscriberId, MaxConversationHistory);
            h != [] && h[|h| - 1] == Item(m)
  {
    FindUserUnique(users, subscriberId, m.user);
    HistoryEndsWithNewest(users, messages, m, subscriberId, MaxConversationHistory);
  }

  /** The metadata `process` returns: the message count, the user's record and the history. */
  function HistoryMetadata(history: seq<HistoryItem>, info: Json): (md: seq<(string, Json)>)
    ensures |md| == 3
    ensures Get(md, "num_messages") == Some(JInt(|history|))
    ensures Get(md, "user_info") == Some(info)
    ensures Get(md, "history") == Some(HistoryJson(history))
  {
    var md := [("num_messages", JInt(|history|)), ("user_info", info), ("history", HistoryJson(history))];
    assert Get(md[2..], "history") == Some(HistoryJson(history));
    assert Get(md[1..], "history") == Get(md[2..], "history");
    md
  }

  /** The store the agent reads and writes; `dbDown` arguments stand for a failing database. */
  class ConversationStore {
    var users: seq<User>
    var conversations: seq<Conversation>
    var messages: seq<Message>

    /** The store's integrity, as `StoreValid` states it. */
    predicate Valid()
      reads this
    {
      StoreValid(users, conversations, messages)
    }

    /** The three tables, as one value. */
    function State(): StoreState
      reads this
    {
      StoreState(users, conversations, messages)
    }

    constructor ()
      ensures Valid()
      ensures users == [] && conversations == [] && messages == []
    {
      users := [];
      conversations := [];
      messages := [];
    }

    /**
     * `save_message`: with the database up, the user is created only if missing and stamped
     * with the time, an active conversation is created only if the user has none, exactly one
     * message is appended, and that conversation's count goes up by exactly one. A failing
     * database rolls everything back and the call returns false instead of raising.
     */
    method SaveMessage(subscriberId: string, role: string, content: string, messageType: string,
                       agentsUsed: Option<seq<string>>, citations: Option<seq<Json>>,
                       now: int, dbDown: bool)
      returns (ok: bool)
      requires Valid()
      modifies this
      ensures Valid()
      ensures ok == !dbDown
      ensures dbDown ==> State() == old(State())
      ensures !dbDown ==>
                State() == AfterSave(old(State()), subscriberId, role, content, messageType, agentsUsed,
                                     citations, now)
      ensures !dbDown ==>
                var found := FindUser(old(users), subscriberId);
                && (found.Some? ==> users == old(users)[found.value := old(users)[found.value].(lastInteraction := now)])
                && (found.None? ==> users == old(users) + [NewUser(subscriberId, now)])
      ensures !dbDown ==>
                var u := StoredUser(old(users), subscriberId);
                var active := FindActive(old(conversations), u);
                && (active.Some? ==>
                      var before := old(conversations)[active.value];
                      conversations == old(conversations)[active.value :=
                        before.(lastMessageAt := now, messageCount := before.messageCount + 1)])
                && (active.None? ==>
                      conversations == old(conversations) + [NewConversation(u, now).(messageCount := 1)])
      ensures !dbDown ==>
                var u := StoredUser(old(users), subscriberId);
                var active := FindActive(old(conversations), u);
                var c := if active.Some? then active.value else |old(conversations)|;
                messages == old(messages) + [Message(c, u, role, content, messageType, agentsUsed, citations, now)]
    {
      if dbDown {
        return false;
      }
      AfterSaveValid(State(), subscriberId, role, content, messageType, agentsUsed, citations, now);
      var t := AfterSave(State(), subscriberId, role, content, messageType, agentsUsed, citations, now);
      users, conversations, messages := t.users, t.conversations, t.messages;
      ok := true;
    }

    /**
     * `_get_conversation_history`: walks the messages from the newest, keeping the user's
     * until `limit` are found (the descending, limited query), then reverses them to oldest
     * first. An unknown subscriber or a failing database gives [].
     */
    method GetConversationHistory(subscriberId: string, limit: Option<nat>, dbDown: bool)
      returns (history: seq<HistoryItem>)
      ensures dbDown ==> history == []
      ensures !dbDown ==>
                history == HistoryOf(users, messages, subscriberId, limit.GetOr(MaxConversationHistory))
    {
      if dbDown {
        return [];
      }
      var n := limit.GetOr(MaxConversationHistory);
      var found := FindUser(users, subscriberId);
      if found.None? {
        return [];
      }
      var u := found.value;
      var recent := Newest(UserMessages(messages, u), n);
      var newestFirst := ScanNewest(messages, u, n);
      ReverseReverse(recent);
      history := OldestFirst(newestFirst);
    }

    /**
     * `process`: without a subscriber id there is nothing to look up; otherwise the default
     * amount of history is formatted, with confidence 90 when there is any and 0 when not,
     * and the single source "Conversation History".
     */
    function Process(context: Context, dbDown: bool): (r: ProcessOutput)
      reads this
      ensures context.subscriberId.None? ==>
                r == ProcessOutput(Some("No conversation history available."), Some(0), Some([]), Some([]))
      ensures context.subscriberId.Some? ==>
                var history :=
                  if dbDown then [] else HistoryOf(users, messages, context.subscriberId.value, MaxConversationHistory);
                && r.response == Some(FormatHistoryText(history))
                && (r.confidence == Some(90) <==> history != [])
                && (r.confidence == Some(0) <==> history == [])
                && r.sources == Some(["Conversation History"])
                && r.metadata.Some? && |r.metadata.value| == 3
                && Get(r.metadata.value, "num_messages") == Some(JInt(|history|))
                && Get(r.metadata.value, "user_info") ==
                     Some(if dbDown then JObj([]) else UserInfo(users, context.subscriberId.value))
                && Get(r.metadata.value, "history") == Some(HistoryJson(history))
    {
      match context.subscriberId
      case None =>
        ProcessOutput(Some("No conversation history available."), Some(0), Some([]), Some([]))
      case Some(sid) =>
        var history := if dbDown then [] else HistoryOf(users, messages, sid, MaxConversationHistory);
        var info := if dbDown then JObj([]) else UserInfo(users, sid);
        ProcessOutput(
          Some(FormatHistoryText(history)),
          Some(if history != [] then 90 else 0),
          Some(["Conversation History"]),
          Some(HistoryMetadata(history, info)))
    }

    /**
     * `get_recent_topics`: the topics of the user's conversations last active within `days`
     * days before `now`, each once; an unknown subscriber or a failing database gives none.
     */
    method GetRecentTopics(subscriberId: string, days: int, now: int, dbDown: bool)
      returns (topics: set<string>)
      ensures dbDown ==> topics == {}
      ensures !dbDown ==> topics == RecentTopics(users, conversations, subscriberId, now - days * SecondsPerDay)
    {
      if dbDown {
        return {};
      }
      var found := FindUser(users, subscriberId);
      if found.None? {
        return {};
      }
      var u := found.value;
      var since := now - days * SecondsPerDay;
      var list: seq<string> := [];
      for i := 0 to |conversations|
        invariant list == TopicList(conversations[..i], u, since)
      {
        assert conversations[..i + 1][..i] == conversations[..i];
        var conv := conversations[i];
        if conv.user == u && conv.lastMessageAt >= since && conv.topics.Some? {
          list := list + conv.topics.value;
        }
      }
      assert conversations[..|conversations|] == conversations;
      topics := set t | t in list;
    }
  }
}
