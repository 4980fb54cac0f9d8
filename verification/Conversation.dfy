/**
 The in-memory conversation repository (employee_runtime/core/conversation_repository.py):
 one list of messages per conversation, numbered ids, and approval requests kept as messages
 whose metadata holds their status.
 */
module Conversation {
  import opened Common

  type ConversationId = string
  type MessageId = string
  type Metadata = map<string, string>

  datatype Message = Message(
    id: MessageId,
    conversationId: ConversationId,
    role: string,
    content: string,
    kind: string,
    metadata: Metadata)

  /** The messages by conversation, and the order in which the conversations were first used. */
  datatype Log = Log(order: seq<ConversationId>, messages: map<ConversationId, seq<Message>>)

  const APPROVAL_REQUEST := "approval_request"

  // ----- message ids -----

  function Decimal(n: nat): (digits: string)
    ensures digits != []
    ensures forall c :: c in digits ==> '0' <= c <= '9'
  {
    var last := "0123456789"[n % 10];
    if n < 10 then [last] else Decimal(n / 10) + [last]
  }

  lemma {:induction false} DecimalInjective(a: nat, b: nat)
    requires Decimal(a) == Decimal(b)
    ensures a == b
  {
    var da, db := Decimal(a), Decimal(b);
    assert da[|da| - 1] == "0123456789"[a % 10];
    assert db[|db| - 1] == "0123456789"[b % 10];
    if a >= 10 && b >= 10 {
      assert da[..|da| - 1] == Decimal(a / 10);
      assert db[..|db| - 1] == Decimal(b / 10);
      DecimalInjective(a / 10, b / 10);
    }
  }

  /** The number that a row of digits stands for. */
  function NumberOf(digits: string): int {
    if digits == "" then 0 else 10 * NumberOf(digits[..|digits| - 1]) + (digits[|digits| - 1] as int - '0' as int)
  }

  /** The digits stand for the number, without a zero in front of others. */
  lemma {:induction false} DecimalIsRead(n: nat)
    ensures NumberOf(Decimal(n)) == n
    ensures n > 0 ==> Decimal(n)[0] != '0'
  {
    var digits := Decimal(n);
    assert digits[|digits| - 1] as int - '0' as int == n % 10;
    if n >= 10 {
      DecimalIsRead(n / 10);
      assert digits[..|digits| - 1] == Decimal(n / 10);
    } else {
      assert digits[..0] == "";
    }
  }

  function IdFor(conversation: ConversationId, number: nat): MessageId {
    conversation + ":" + Decimal(number)
  }

  /** An id determines its conversation and its number, even when conversation ids hold colons. */
  lemma IdDeterminesPlace(c: ConversationId, m: nat, d: ConversationId, n: nat)
    requires IdFor(c, m) == IdFor(d, n)
    ensures c == d && m == n
  {
    LaterSplit(c, Decimal(m), d, Decimal(n), ':');
    LaterSplit(d, Decimal(n), c, Decimal(m), ':');
    assert |c| == |d|;
    DecimalInjective(m, n);
  }

  // ----- the log -----

  ghost predicate LogValid(log: Log) {
    && Distinct(log.order)
    && (forall c :: c in log.order <==> c in log.messages)
    && (forall c, i :: c in log.messages && 0 <= i < |log.messages[c]| ==>
          log.messages[c][i].id == IdFor(c, i + 1) && log.messages[c][i].conversationId == c)
  }

  function Ensured(log: Log, c: ConversationId): Log {
    if c in log.messages then log else Log(log.order + [c], log.messages[c := []])
  }

  function NextMessage(log: Log, c: ConversationId, role: string, content: string, kind: string, metadata: Metadata): Message {
    var sofar := if c in log.messages then |log.messages[c]| else 0;
    Message(IdFor(c, sofar + 1), c, role, content, kind, metadata)
  }

  function Added(log: Log, c: ConversationId, role: string, content: string, kind: string, metadata: Metadata): Log {
    var ready := Ensured(log, c);
    ready.(messages := ready.messages[c := ready.messages[c] + [NextMessage(log, c, role, content, kind, metadata)]])
  }

  predicate IsPending(m: Message) {
    m.kind == APPROVAL_REQUEST && "status" in m.metadata && m.metadata["status"] == "pending"
  }

  function PendingOf(messages: seq<Message>): seq<Message> {
    if messages == [] then []
    else PendingOf(messages[..|messages| - 1])
         + if IsPending(messages[|messages| - 1]) then [messages[|messages| - 1]] else []
  }

  function PendingOver(messages: map<ConversationId, seq<Message>>, order: seq<ConversationId>): seq<Message>
    requires forall c :: c in order ==> c in messages
  {
    if order == [] then []
    else PendingOver(messages, order[..|order| - 1]) + PendingOf(messages[order[|order| - 1]])
  }

  /** The place of a message in the log. */
  datatype Place = Place(conversation: ConversationId, index: nat)

  ghost predicate Holds(log: Log, p: Place) {
    p.conversation in log.messages && p.index < |log.messages[p.conversation]|
  }

  ghost function MessageAt(log: Log, p: Place): Message
    requires Holds(log, p)
  {
    log.messages[p.conversation][p.index]
  }

  ghost function WithMetadata(log: Log, p: Place, metadata: Metadata): Log
    requires Holds(log, p)
  {
    var list := log.messages[p.conversation];
    log.(messages := log.messages[p.conversation := list[p.index := list[p.index].(metadata := metadata)]])
  }

  lemma IdsAreUnique(log: Log, p: Place, q: Place)
    requires LogValid(log) && Holds(log, p) && Holds(log, q)
    requires MessageAt(log, p).id == MessageAt(log, q).id
    ensures p == q
  {
    IdDeterminesPlace(p.conversation, p.index + 1, q.conversation, q.index + 1);
  }

  /** Where the next message of a conversation will stand. */
  function NextPlace(log: Log, c: ConversationId): Place {
    Place(c, if c in log.messages then |log.messages[c]| else 0)
  }

  lemma AddedPlaces(log: Log, c: ConversationId, role: string, content: string, kind: string, metadata: Metadata)
    ensures var after := Added(log, c, role, content, kind, metadata);
            && !Holds(log, NextPlace(log, c))
            && (forall p :: Holds(after, p) <==> Holds(log, p) || p == NextPlace(log, c))
            && (forall p :: Holds(log, p) ==> MessageAt(after, p) == MessageAt(log, p))
            && MessageAt(after, NextPlace(log, c)) == NextMessage(log, c, role, content, kind, metadata)
  {
  }

  lemma AddedKeepsValid(log: Log, c: ConversationId, role: string, content: string, kind: string, metadata: Metadata)
    requires LogValid(log)
    ensures LogValid(Added(log, c, role, content, kind, metadata))
  {
  }

  lemma AddedIsValid(log: Log, c: ConversationId, role: string, content: string, kind: string, metadata: Metadata)
    requires LogValid(log)
    ensures var after := Added(log, c, role, content, kind, metadata);
            && LogValid(after) && !Holds(log, NextPlace(log, c))
            && (forall p :: Holds(after, p) <==> Holds(log, p) || p == NextPlace(log, c))
            && (forall p :: Holds(log, p) ==> MessageAt(after, p) == MessageAt(log, p))
            && MessageAt(after, NextPlace(log, c)) == NextMessage(log, c, role, content, kind, metadata)
  {
    AddedPlaces(log, c, role, content, kind, metadata);
    AddedKeepsValid(log, c, role, content, kind, metadata);
  }

  lemma WithMetadataIsValid(log: Log, p: Place, metadata: Metadata)
    requires LogValid(log) && Holds(log, p)
    ensures var after := WithMetadata(log, p, metadata);
            && LogValid(after)
            && (forall q :: Holds(after, q) <==> Holds(log, q))
            && (forall q :: Holds(log, q) ==>
                  MessageAt(after, q) == if q == p then MessageAt(log, p).(metadata := metadata) else MessageAt(log, q))
  {
  }

  lemma PendingOfSnoc(before: seq<Message>, list: seq<Message>, i: nat)
    requires i < |list|
    ensures before + PendingOf(list[..i + 1])
            == if IsPending(list[i]) then before + PendingOf(list[..i]) + [list[i]] else before + PendingOf(list[..i])
  {
    assert list[..i + 1][..i] == list[..i];
  }

  lemma PendingOverSnoc(messages: map<ConversationId, seq<Message>>, order: seq<ConversationId>, k: nat)
    requires k < |order| && forall c :: c in order ==> c in messages
    ensures PendingOver(messages, order[..k + 1]) == PendingOver(messages, order[..k]) + PendingOf(messages[order[k]])
  {
    assert order[..k + 1][..k] == order[..k];
  }

  lemma {:induction false} PendingOfHolds(messages: seq<Message>, m: Message)
    ensures m in PendingOf(messages) <==> m in messages && IsPending(m)
  {
    if messages != [] {
      var front, last := messages[..|messages| - 1], messages[|messages| - 1];
      PendingOfHolds(front, m);
      assert messages == front + [last];
    }
  }

  lemma {:induction false} PendingOverHolds(messages: map<ConversationId, seq<Message>>, order: seq<ConversationId>, m: Message)
    requires forall c :: c in order ==> c in messages
    ensures m in PendingOver(messages, order) <==> exists c :: c in order && m in messages[c] && IsPending(m)
  {
    if order != [] {
      var front, last := order[..|order| - 1], order[|order| - 1];
      PendingOverHolds(messages, front, m);
      PendingOfHolds(messages[last], m);
      assert order == front + [last];
    }
  }

  /** The approvals listed are exactly the pending approval requests of the log. */
  lemma PendingIsExact(log: Log, m: Message)
    requires LogValid(log)
    ensures m in PendingOver(log.messages, log.order)
            <==> && m.kind == "approval_request" && "status" in m.metadata && m.metadata["status"] == "pending"
                 && exists p :: Holds(log, p) && MessageAt(log, p) == m
  {
    PendingOverHolds(log.messages, log.order, m);
    if p :| Holds(log, p) && MessageAt(log, p) == m && IsPending(m) {
      assert m in log.messages[p.conversation];
    }
    if c :| c in log.order && m in log.messages[c] && IsPending(m) {
      var i :| 0 <= i < |log.messages[c]| && log.messages[c][i] == m;
      assert MessageAt(log, Place(c, i)) == m;
    }
  }

  /** One place comes before another: in a conversation used earlier, or earlier in the same one. */
  ghost predicate Precedes(order: seq<ConversationId>, p: Place, q: Place) {
    || (p.conversation == q.conversation && p.index < q.index)
    || exists i, j :: 0 <= i < j < |order| && order[i] == p.conversation && order[j] == q.conversation
  }

  ghost predicate InOrder(order: seq<ConversationId>, places: seq<Place>) {
    forall i, j :: 0 <= i < j < |places| ==> Precedes(order, places[i], places[j])
  }

  /** The messages stand at these places. */
  ghost predicate StandAt(messages: map<ConversationId, seq<Message>>, places: seq<Place>, listed: seq<Message>) {
    && |places| == |listed|
    && forall i :: 0 <= i < |places| ==>
         && places[i].conversation in messages && places[i].index < |messages[places[i].conversation]|
         && messages[places[i].conversation][places[i].index] == listed[i]
  }

  lemma {:induction false} PendingOfInOrder(messages: map<ConversationId, seq<Message>>, c: ConversationId, n: nat)
    returns (places: seq<Place>)
    requires c in messages && n <= |messages[c]|
    ensures StandAt(messages, places, PendingOf(messages[c][..n]))
    ensures forall p :: p in places ==> p.conversation == c && p.index < n
    ensures forall i, j :: 0 <= i < j < |places| ==> places[i].index < places[j].index
  {
    places := [];
    if n > 0 {
      places := PendingOfInOrder(messages, c, n - 1);
      assert messages[c][..n][..n - 1] == messages[c][..n - 1];
      if IsPending(messages[c][n - 1]) {
        places := places + [Place(c, n - 1)];
      }
    }
  }

  /** They are listed by conversation, in the order of first use, and within one as they were written; so none twice. */
  lemma {:induction false} PendingInOrder(messages: map<ConversationId, seq<Message>>, order: seq<ConversationId>)
    returns (places: seq<Place>)
    requires forall c :: c in order ==> c in messages
    ensures StandAt(messages, places, PendingOver(messages, order))
    ensures forall p :: p in places ==> p.conversation in order
    ensures InOrder(order, places)
  {
    if order == [] {
      places := [];
    } else {
      var n := |order| - 1;
      var front, c := order[..n], order[n];
      var before := PendingInOrder(messages, front);
      var more := PendingOfInOrder(messages, c, |messages[c]|);
      assert messages[c][..|messages[c]|] == messages[c];
      places := before + more;
      assert front + [c] == order;
      StandTogether(messages, before, PendingOver(messages, front), more, PendingOf(messages[c]));
      forall i, j | 0 <= i < j < |places| ensures Precedes(order, places[i], places[j]) {
        PrecedesMore(front, c, before, more, i, j);
      }
    }
  }

  lemma StandTogether(messages: map<ConversationId, seq<Message>>, a: seq<Place>, first: seq<Message>, b: seq<Place>, second: seq<Message>)
    requires StandAt(messages, a, first) && StandAt(messages, b, second)
    ensures StandAt(messages, a + b, first + second)
  {
  }

  lemma PrecedesMore(front: seq<ConversationId>, c: ConversationId, before: seq<Place>, more: seq<Place>, i: nat, j: nat)
    requires i < j < |before + more| && InOrder(front, before)
    requires forall p :: p in before ==> p.conversation in front
    requires forall p :: p in more ==> p.conversation == c
    requires forall k, l :: 0 <= k < l < |more| ==> more[k].index < more[l].index
    ensures Precedes(front + [c], (before + more)[i], (before + more)[j])
  {
    var order := front + [c];
    var p, q := (before + more)[i], (before + more)[j];
    if j < |before| {
      assert p == before[i] && q == before[j] && Precedes(front, p, q);
      if !(p.conversation == q.conversation && p.index < q.index) {
        var a, b :| 0 <= a < b < |front| && front[a] == p.conversation && front[b] == q.conversation;
        assert order[a] == p.conversation && order[b] == q.conversation;
      }
    } else {
      assert q == more[j - |before|] && q.conversation == c;
      if i < |before| {
        assert p in before;
        var a :| 0 <= a < |front| && front[a] == p.conversation;
        assert order[a] == p.conversation && order[|front|] == q.conversation;
      } else {
        assert p == more[i - |before|];
      }
    }
  }

  class InMemoryConversationRepository {
    var order: seq<ConversationId>
    var messages: map<ConversationId, seq<Message>>

    function Contents(): Log
      reads this
    {
      Log(order, messages)
    }

    ghost predicate Valid()
      reads this
    {
      LogValid(Contents())
    }

    constructor ()
      ensures Valid() && Contents() == Log([], map[])
    {
      order := [];
      messages := map[];
    }

    method EnsureConversation(c: ConversationId)
      modifies this
      ensures Contents() == Ensured(old(Contents()), c)
    {
      if c !in messages {
        order := order + [c];
        messages := messages[c := []];
      }
    }

    method AddMessage(c: ConversationId, role: string, content: string, kind: string, metadata: Metadata)
      returns (message: Message)
      requires Valid()
      modifies this
      ensures Valid()
      ensures Contents() == Added(old(Contents()), c, role, content, kind, metadata)
      ensures message == NextMessage(old(Contents()), c, role, content, kind, metadata)
      ensures message.conversationId == c && message.role == role && message.content == content
              && message.kind == kind && message.metadata == metadata
      ensures message.id == c + ":" + Decimal(if c in old(messages) then |old(messages)[c]| + 1 else 1)
      ensures messages == old(messages)[c := (if c in old(messages) then old(messages)[c] else []) + [message]]
    {
      AddedKeepsValid(Contents(), c, role, content, kind, metadata);
      EnsureConversation(c);
      message := Message(IdFor(c, |messages[c]| + 1), c, role, content, kind, metadata);
      messages := messages[c := messages[c] + [message]];
    }

    method ListPendingApprovals() returns (approvals: seq<Message>)
      requires Valid()
      ensures approvals == PendingOver(messages, order)
    {
      approvals := [];
      for k := 0 to |order|
        invariant approvals == PendingOver(messages, order[..k])
      {
        PendingOverSnoc(messages, order, k);
        var list := messages[order[k]];
        ghost var before := approvals;
        for i := 0 to |list|
          invariant approvals == before + PendingOf(list[..i])
        {
          PendingOfSnoc(before, list, i);
          if IsPending(list[i]) {
            approvals := approvals + [list[i]];
          }
        }
        assert list[..|list|] == list;
      }
      assert order[..|order|] == order;
    }

    method WriteAt(c: ConversationId, i: nat, metadata: Metadata)
      requires Valid() && Holds(Contents(), Place(c, i))
      modifies this
      ensures Valid() && Contents() == WithMetadata(old(Contents()), Place(c, i), metadata)
    {
      WithMetadataIsValid(Contents(), Place(c, i), metadata);
      var list := messages[c];
      messages := messages[c := list[i := list[i].(metadata := metadata)]];
    }

    /** The message with the given id, and only that one, gets the new metadata. */
    method UpdateMessageMetadata(id: MessageId, metadata: Metadata) returns (message: Option<Message>)
      requires Valid()
      modifies this
      ensures Valid()
      ensures message.None? ==>
        Contents() == old(Contents()) && forall p :: Holds(Contents(), p) ==> MessageAt(Contents(), p).id != id
      ensures message.Some? ==>
        exists p :: Holds(old(Contents()), p) && MessageAt(old(Contents()), p).id == id
                    && Contents() == WithMetadata(old(Contents()), p, metadata)
                    && message.value == MessageAt(old(Contents()), p).(metadata := metadata)
    {
      for k := 0 to |order|
        invariant forall j, i :: 0 <= j < k && 0 <= i < |messages[order[j]]| ==> messages[order[j]][i].id != id
      {
        var c := order[k];
        var list := messages[c];
        for i := 0 to |list|
          invariant forall h :: 0 <= h < i ==> list[h].id != id
        {
          if list[i].id == id {
            message := Some(list[i].(metadata := metadata));
            WriteAt(c, i, metadata);
            return;
          }
        }
      }
      forall p | Holds(Contents(), p) ensures MessageAt(Contents(), p).id != id {
        assert p.conversation in order;
        var j :| 0 <= j < |order| && order[j] == p.conversation;
        assert messages[order[j]][p.index].id != id;
      }
      message := None;
    }
  }
}
