/** `getChatHistory`: the messages of one event, oldest first. */
module ChatHistory {
  import opened EventModel

  /** A chat message document. */
  datatype Message = Message(id: nat, event: EventId, sender: UserId, text: string, createdAt: int)

  predicate SortedByCreatedAt(ms: seq<Message>)
  {
    forall i, j :: 0 <= i < j < |ms| ==> ms[i].createdAt <= ms[j].createdAt
  }

  /** The messages whose event is `eventId`, in store order. */
  function MessagesOf(ms: seq<Message>, eventId: EventId): (r: seq<Message>)
    ensures |r| <= |ms|
    ensures forall m :: m in r <==> m in ms && m.event == eventId
  {
    if ms == [] then []
    else
      var last := ms[|ms| - 1];
      MessagesOf(ms[..|ms| - 1], eventId) + (if last.event == eventId then [last] else [])
  }

  /** Selecting from a concatenation selects from each part, in order; so
      each stored message appears in the selection exactly as often as it
      is stored. */
  lemma {:induction false} MessagesOfConcat(a: seq<Message>, b: seq<Message>, eventId: EventId)
    ensures MessagesOf(a + b, eventId) == MessagesOf(a, eventId) + MessagesOf(b, eventId)
    decreases |b|
  {
    if b != [] {
      var ab := a + b;
      var binit := b[..|b| - 1];
      assert ab[..|ab| - 1] == a + binit;
      assert ab[|ab| - 1] == b[|b| - 1];
      MessagesOfConcat(a, binit, eventId);
    } else {
      assert a + b == a;
    }
  }

  /** Places `m` after every message of `sorted` not newer than it. */
  function Insert(sorted: seq<Message>, m: Message): (r: seq<Message>)
    ensures multiset(r) == multiset(sorted) + multiset{m}
    decreases |sorted|
  {
    if sorted == [] then [m]
    else
      var last := sorted[|sorted| - 1];
      if last.createdAt <= m.createdAt then sorted + [m]
      else
        var init := sorted[..|sorted| - 1];
        assert sorted == init + [last];
        Insert(init, m) + [last]
  }

  /** Inserting into an ordered sequence keeps it ordered. */
  lemma {:induction false} InsertKeepsSorted(sorted: seq<Message>, m: Message)
    requires SortedByCreatedAt(sorted)
    ensures SortedByCreatedAt(Insert(sorted, m))
    decreases |sorted|
  {
    if sorted != [] {
      var last := sorted[|sorted| - 1];
      if m.createdAt < last.createdAt {
        var init := sorted[..|sorted| - 1];
        assert SortedByCreatedAt(init);
        InsertKeepsSorted(init, m);
        var s := Insert(init, m);
        forall x | x in s
          ensures x.createdAt <= last.createdAt
        {
          assert x in multiset(s);
          if x != m {
            assert x in multiset(init);
            assert x in init;
          }
        }
        var r := s + [last];
        forall i, j | 0 <= i < j < |r|
          ensures r[i].createdAt <= r[j].createdAt
        {
          if j == |s| {
            assert r[i] in s;
          } else {
            assert r[i] == s[i] && r[j] == s[j];
          }
        }
      }
    }
  }

  /** A stable sort by `createdAt`, ascending (insertion sort). */
  function SortByCreatedAt(ms: seq<Message>): (r: seq<Message>)
    ensures multiset(r) == multiset(ms)
    ensures SortedByCreatedAt(r)
  {
    if ms == [] then []
    else
      var init := ms[..|ms| - 1];
      var last := ms[|ms| - 1];
      assert ms == init + [last];
      var s := SortByCreatedAt(init);
      InsertKeepsSorted(s, last);
      Insert(s, last)
  }

  /** `getChatHistory`: exactly the event's messages, ordered by `createdAt`. */
  function GetChatHistory(messages: seq<Message>, eventId: EventId): (r: seq<Message>)
    ensures SortedByCreatedAt(r)
    ensures multiset(r) == multiset(MessagesOf(messages, eventId))
    ensures forall m :: m in r <==> m in messages && m.event == eventId
  {
    var r := SortByCreatedAt(MessagesOf(messages, eventId));
    assert forall m :: m in r <==> m in multiset(MessagesOf(messages, eventId));
    r
  }

  /** An event that no message belongs to selects no message. */
  lemma {:induction false} NoMessagesOf(ms: seq<Message>, eventId: EventId)
    requires forall m :: m in ms ==> m.event != eventId
    ensures MessagesOf(ms, eventId) == []
  {
    if ms != [] {
      var init := ms[..|ms| - 1];
      assert forall m :: m in init ==> m in ms;
      NoMessagesOf(init, eventId);
    }
  }

  /** No existence check is made: an event without messages, known or not,
      has an empty history. */
  lemma UnknownEventHasNoHistory(messages: seq<Message>, eventId: EventId)
    requires forall m :: m in messages ==> m.event != eventId
    ensures GetChatHistory(messages, eventId) == []
  {
    NoMessagesOf(messages, eventId);
  }

  /** A message not older than the last one of a non-empty sequence is appended. */
  lemma InsertAfterLast(s: seq<Message>, m: Message)
    requires s != [] && s[|s| - 1].createdAt <= m.createdAt
    ensures Insert(s, m) == s + [m]
  {
  }

  /** Messages that already arrive in `createdAt` order keep that order. */
  lemma {:induction false} SortKeepsOrderedInput(ms: seq<Message>)
    requires SortedByCreatedAt(ms)
    ensures SortByCreatedAt(ms) == ms
  {
    if ms != [] {
      var init := ms[..|ms| - 1];
      var last := ms[|ms| - 1];
      assert SortedByCreatedAt(init) by {
        forall i, j | 0 <= i < j < |init|
          ensures init[i].createdAt <= init[j].createdAt
        {
          assert init[i] == ms[i] && init[j] == ms[j];
        }
      }
      SortKeepsOrderedInput(init);
      assert ms == init + [last];
      assert SortByCreatedAt(ms) == Insert(SortByCreatedAt(init), last);
      if init != [] {
        InsertAfterLast(init, last);
      }
    }
  }

  /** A message newer than every stored one appears at the end of its event's
      history when the history is fetched again. */
  lemma NewestMessageComesLast(messages: seq<Message>, m: Message)
    requires forall x :: x in messages ==> x.createdAt <= m.createdAt
    ensures GetChatHistory(messages + [m], m.event) == GetChatHistory(messages, m.event) + [m]
  {
    var all := messages + [m];
    assert all[..|all| - 1] == messages;
    var h := SortByCreatedAt(MessagesOf(messages, m.event));
    assert MessagesOf(all, m.event) == MessagesOf(messages, m.event) + [m];
    if h != [] {
      var last := h[|h| - 1];
      assert last in multiset(h);
      assert last in messages;
      var f := MessagesOf(messages, m.event) + [m];
      assert f[..|f| - 1] == MessagesOf(messages, m.event);
    }
  }
}
