/**
 * The chat pages' read state: the list of the caller's chats with an unread
 * flag, opening a chat (which marks the other party's messages read), and
 * the count of chats with something unread. Users' display names come from
 * the identity store, given here as a map from user id to user.
 */
module Chats {
  import opened Domain
  import opened Data
  import Listing

  predicate IsParticipant(c: Chat, userId: UserId) {
    c.clientId == userId || c.freelancerId == userId
  }

  /** The freelancer when the caller is the client, otherwise the client. */
  function OtherParticipant(c: Chat, userId: UserId): UserId {
    if c.clientId == userId then c.freelancerId else c.clientId
  }

  /** Between two distinct people, the other participant is the one the caller is not, and is in the chat. */
  lemma OtherParticipantIsTheOtherOne(c: Chat, userId: UserId)
    requires IsParticipant(c, userId) && c.clientId != c.freelancerId
    ensures OtherParticipant(c, userId) != userId
    ensures IsParticipant(c, OtherParticipant(c, userId))
    ensures {userId, OtherParticipant(c, userId)} == {c.clientId, c.freelancerId}
  {
  }

  /** A message the caller has still to read: unread, and sent by someone else. */
  predicate IsUnreadFor(m: Message, userId: UserId) {
    !m.isRead && m.senderId != userId
  }

  predicate HasUnread(c: Chat, userId: UserId) {
    exists i :: 0 <= i < |c.messages| && IsUnreadFor(c.messages[i], userId)
  }

  function Marked(m: Message, userId: UserId): Message {
    if IsUnreadFor(m, userId) then m.(isRead := true) else m
  }

  /** The messages after the caller has opened the chat. */
  function MarkRead(ms: seq<Message>, userId: UserId): seq<Message> {
    seq(|ms|, i requires 0 <= i < |ms| => Marked(ms[i], userId))
  }

  function MarkedChat(c: Chat, userId: UserId): Chat {
    c.(messages := MarkRead(c.messages, userId))
  }

  /**
   * Opening a chat leaves nothing unread for the caller, changes no message's
   * sender, text or time, never marks a message unread, and leaves the
   * caller's own messages exactly as they were.
   */
  lemma MarkReadEffect(ms: seq<Message>, userId: UserId)
    ensures |MarkRead(ms, userId)| == |ms|
    ensures forall i :: 0 <= i < |ms| ==> !IsUnreadFor(MarkRead(ms, userId)[i], userId)
    ensures forall i :: 0 <= i < |ms| ==>
      var m := MarkRead(ms, userId)[i];
      m.senderId == ms[i].senderId && m.text == ms[i].text && m.sentAt == ms[i].sentAt && (ms[i].isRead ==> m.isRead)
    ensures forall i :: 0 <= i < |ms| && ms[i].senderId == userId ==> MarkRead(ms, userId)[i] == ms[i]
  {
  }

  lemma MarkReadIdempotent(ms: seq<Message>, userId: UserId)
    ensures MarkRead(MarkRead(ms, userId), userId) == MarkRead(ms, userId)
  {
  }

  /** After the caller opens a chat it has no unread flag for them. */
  lemma OpenedChatHasNoUnread(c: Chat, userId: UserId)
    ensures !HasUnread(MarkedChat(c, userId), userId)
  {
    MarkReadEffect(c.messages, userId);
  }

  /** The other participant's unread messages stay unread when the caller opens the chat. */
  lemma OpeningKeepsOthersUnread(c: Chat, userId: UserId, other: UserId, i: int)
    requires other != userId && 0 <= i < |c.messages|
    requires c.messages[i].senderId == userId && !c.messages[i].isRead
    ensures IsUnreadFor(MarkedChat(c, userId).messages[i], other)
  {
  }

  /** One line of the chat list. */
  datatype ChatView = ChatView(chatId: int, chat: Chat, otherUserName: Option<string>, hasUnread: bool)

  function ViewOf(row: (int, Chat), users: map<UserId, IdentityUser>, userId: UserId): ChatView
    requires OtherParticipant(row.1, userId) in users
  {
    ChatView(row.0, row.1, users[OtherParticipant(row.1, userId)].userName, HasUnread(row.1, userId))
  }

  /** Some chat of the caller names another participant the identity store does not know. */
  predicate MissingParticipant(chats: map<int, Chat>, users: map<UserId, IdentityUser>, userId: UserId) {
    exists k :: k in chats && IsParticipant(chats[k], userId) && OtherParticipant(chats[k], userId) !in users
  }

  lemma MissingWitness(chats: map<int, Chat>, users: map<UserId, IdentityUser>, userId: UserId, k: int)
    requires k in chats && IsParticipant(chats[k], userId) && OtherParticipant(chats[k], userId) !in users
    ensures MissingParticipant(chats, users, userId)
  {
  }

  /** The query of Index: the chats the caller is in, each once. */
  method ChatsOf(db: Db, userId: UserId) returns (mine: seq<(int, Chat)>)
    ensures forall x :: x in mine <==> x.0 in db.chats && db.chats[x.0] == x.1 && IsParticipant(x.1, userId)
    ensures Listing.DistinctKeys(mine)
  {
    var rows := Rows(db.chats);
    mine := Listing.Filter(rows, (x: (int, Chat)) => IsParticipant(x.1, userId));
    Listing.SelectionKeepsKeysDistinct(rows, mine);
  }

  /**
   * The chat list: one line per chat the caller is in, naming the other
   * participant and flagging unread messages. Reading the name of a user the
   * identity store does not know is an unhandled exception.
   */
  method Index(db: Db, users: map<UserId, IdentityUser>, userId: UserId) returns (r: Result<seq<ChatView>>)
    ensures r.Err? <==> MissingParticipant(db.chats, users, userId)
    ensures r.Err? ==> r == Err(ServerError)
    ensures r.Ok? ==> forall v :: v in r.value ==>
      && v.chatId in db.chats && IsParticipant(db.chats[v.chatId], userId)
      && OtherParticipant(db.chats[v.chatId], userId) in users
      && v == ViewOf((v.chatId, db.chats[v.chatId]), users, userId)
    ensures r.Ok? ==> forall k :: k in db.chats && IsParticipant(db.chats[k], userId) ==>
      OtherParticipant(db.chats[k], userId) in users && ViewOf((k, db.chats[k]), users, userId) in r.value
    ensures r.Ok? ==> forall i, j :: 0 <= i < j < |r.value| ==> r.value[i].chatId != r.value[j].chatId
  {
    var mine := ChatsOf(db, userId);
    var views: seq<ChatView> := [];
    var i := 0;
    while i < |mine|
      invariant 0 <= i <= |mine| && |views| == i
      invariant forall j :: 0 <= j < i ==> OtherParticipant(mine[j].1, userId) in users && views[j] == ViewOf(mine[j], users, userId)
    {
      var row := mine[i];
      assert row in mine;
      assert row.0 in db.chats && db.chats[row.0] == row.1 && IsParticipant(row.1, userId);
      var other := OtherParticipant(row.1, userId);
      if other !in users {
        MissingWitness(db.chats, users, userId, row.0);
        return Err(ServerError);
      }
      views := views + [ChatView(row.0, row.1, users[other].userName, HasUnread(row.1, userId))];
      i := i + 1;
    }
    ViewsCoverChats(db.chats, mine, views, users, userId);
    r := Ok(views);
  }

  /** What the loop of Index has built covers exactly the caller's chats. */
  lemma ViewsCoverChats(chats: map<int, Chat>, mine: seq<(int, Chat)>, views: seq<ChatView>,
                        users: map<UserId, IdentityUser>, userId: UserId)
    requires forall x :: x in mine <==> x.0 in chats && chats[x.0] == x.1 && IsParticipant(x.1, userId)
    requires |views| == |mine|
    requires forall j :: 0 <= j < |mine| ==> OtherParticipant(mine[j].1, userId) in users && views[j] == ViewOf(mine[j], users, userId)
    requires Listing.DistinctKeys(mine)
    ensures !MissingParticipant(chats, users, userId)
    ensures forall v :: v in views ==>
      && v.chatId in chats && IsParticipant(chats[v.chatId], userId)
      && OtherParticipant(chats[v.chatId], userId) in users
      && v == ViewOf((v.chatId, chats[v.chatId]), users, userId)
    ensures forall k :: k in chats && IsParticipant(chats[k], userId) ==>
      OtherParticipant(chats[k], userId) in users && ViewOf((k, chats[k]), users, userId) in views
    ensures forall i, j :: 0 <= i < j < |views| ==> views[i].chatId != views[j].chatId
  {
    forall k | k in chats && IsParticipant(chats[k], userId)
      ensures OtherParticipant(chats[k], userId) in users && ViewOf((k, chats[k]), users, userId) in views
    {
      var x := (k, chats[k]);
      assert x in mine;
      var j :| 0 <= j < |mine| && mine[j] == x;
      assert views[j] == ViewOf(x, users, userId);
    }
    forall v | v in views
      ensures v.chatId in chats && IsParticipant(chats[v.chatId], userId)
      ensures OtherParticipant(chats[v.chatId], userId) in users
      ensures v == ViewOf((v.chatId, chats[v.chatId]), users, userId)
    {
      var j :| 0 <= j < |views| && views[j] == v;
      assert mine[j] in mine;
    }
  }

  function SentAt(m: Message): real {
    m.sentAt as real
  }

  /**
   * The chat the page shows: its messages loaded in `SentAt` order, each
   * marked read for the caller, with the participants unchanged.
   */
  function Shown(c: Chat, userId: UserId): (r: Chat)
    ensures r.clientId == c.clientId && r.freelancerId == c.freelancerId
    ensures forall i, j :: 0 <= i < j < |r.messages| ==> r.messages[i].sentAt <= r.messages[j].sentAt
    ensures multiset(r.messages) == multiset(MarkRead(c.messages, userId))
    ensures forall m :: m in r.messages ==> !IsUnreadFor(m, userId)
  {
    var marked := MarkRead(c.messages, userId);
    var sorted := Listing.SortBy(marked, SentAt, false);
    assert forall i, j :: 0 <= i < j < |sorted| ==> Listing.Before(SentAt(sorted[i]), SentAt(sorted[j]), false);
    assert forall m :: m in sorted ==> !IsUnreadFor(m, userId) by {
      forall m | m in sorted ensures !IsUnreadFor(m, userId) {
        assert m in multiset(sorted);
        assert m in marked;
        MarkReadEffect(c.messages, userId);
      }
    }
    c.(messages := sorted)
  }

  /**
   * Opens a chat: NotFound when it is missing or the caller is not in it;
   * otherwise every message from the other party is marked read and saved,
   * and the chat is shown with its messages in the order they were sent.
   * Only then is the other participant's name read, so an unknown other
   * participant fails after the messages were marked.
   */
  method Open(db: Db, users: map<UserId, IdentityUser>, chatId: int, userId: UserId) returns (r: Result<Chat>)
    requires db.Valid()
    modifies db
    ensures db.Valid()
    ensures !(chatId in old(db.chats) && IsParticipant(old(db.chats)[chatId], userId)) ==>
      r == Err(NotFound) && db.State() == old(db.State())
    ensures chatId in old(db.chats) && IsParticipant(old(db.chats)[chatId], userId) ==>
      && db.State() == old(db.State()).(chats := old(db.chats)[chatId := MarkedChat(old(db.chats)[chatId], userId)])
      && r == (if OtherParticipant(old(db.chats)[chatId], userId) in users
               then Ok(Shown(old(db.chats)[chatId], userId)) else Err(ServerError))
  {
    if chatId !in db.chats || !IsParticipant(db.chats[chatId], userId) {
      return Err(NotFound);
    }
    var chat := db.chats[chatId];
    var ms := chat.messages;
    var i := 0;
    while i < |ms|
      invariant 0 <= i <= |ms| && |ms| == |chat.messages|
      invariant forall j :: 0 <= j < i ==> ms[j] == Marked(chat.messages[j], userId)
      invariant forall j :: i <= j < |ms| ==> ms[j] == chat.messages[j]
    {
      if IsUnreadFor(ms[i], userId) {
        ms := ms[i := ms[i].(isRead := true)];
      }
      i := i + 1;
    }
    assert ms == MarkRead(chat.messages, userId);
    var marked := chat.(messages := ms);
    db.chats := db.chats[chatId := marked];
    if OtherParticipant(chat, userId) !in users {
      return Err(ServerError);
    }
    r := Ok(Shown(chat, userId));
  }

  /** The chats the unread badge counts: the caller's chats holding a message unread for them. */
  function UnreadChats(chats: map<int, Chat>, userId: UserId): set<int> {
    set k | k in chats && IsParticipant(chats[k], userId) && HasUnread(chats[k], userId)
  }

  /** The unread badge: Unauthorized without a user, otherwise the number of the caller's unread chats. */
  function UnreadChatsCount(chats: map<int, Chat>, userId: Option<UserId>): (r: Result<nat>)
    ensures userId.None? <==> r == Err(Unauthorized)
    ensures userId.Some? ==> r.Ok? && (r.value > 0 <==>
      exists k :: k in chats && IsParticipant(chats[k], userId.value) && HasUnread(chats[k], userId.value))
  {
    if userId.None? then Err(Unauthorized)
    else
      BadgeCountsUnread(chats, userId.value);
      Ok(|UnreadChats(chats, userId.value)|)
  }

  lemma BadgeCountsUnread(chats: map<int, Chat>, userId: UserId)
    ensures |UnreadChats(chats, userId)| > 0 <==>
      exists k :: k in chats && IsParticipant(chats[k], userId) && HasUnread(chats[k], userId)
  {
    var s := UnreadChats(chats, userId);
    if |s| > 0 {
      if forall m :: m !in s {
        assert false;
      }
      var k :| k in s;
      assert k in chats && IsParticipant(chats[k], userId) && HasUnread(chats[k], userId);
    } else {
      assert s == {};
      assert forall k :: k in chats && IsParticipant(chats[k], userId) && HasUnread(chats[k], userId) ==> k in s;
    }
  }

  /** Opening an unread chat takes exactly that chat off the badge. */
  lemma OpeningClearsFromBadge(chats: map<int, Chat>, chatId: int, userId: UserId)
    requires chatId in chats && IsParticipant(chats[chatId], userId)
    ensures UnreadChats(chats[chatId := MarkedChat(chats[chatId], userId)], userId) == UnreadChats(chats, userId) - {chatId}
    ensures UnreadChatsCount(chats[chatId := MarkedChat(chats[chatId], userId)], Some(userId)).value
         == UnreadChatsCount(chats, Some(userId)).value - (if HasUnread(chats[chatId], userId) then 1 else 0)
  {
    OpenedChatHasNoUnread(chats[chatId], userId);
    var after := chats[chatId := MarkedChat(chats[chatId], userId)];
    assert UnreadChats(after, userId) == UnreadChats(chats, userId) - {chatId};
    if HasUnread(chats[chatId], userId) {
      assert chatId in UnreadChats(chats, userId);
    } else {
      assert UnreadChats(chats, userId) - {chatId} == UnreadChats(chats, userId);
    }
  }
}
