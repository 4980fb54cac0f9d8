/**
 The autonomous daily loop (employee_runtime/modules/pulse_engine.py) over the in-memory email
 tool (component_library/tools/email_tool.py): the counters of its report, and how repeated
 loops drain the inbox.
 */
module DailyLoop {
  import opened Common

  datatype Mail = Mail(id: string, sender: string, subject: string, read: bool)

  // ----- the email tool -----

  /** The first message with the id is marked read. */
  function Marked(inbox: seq<Mail>, id: string): seq<Mail> {
    if inbox == [] then []
    else if inbox[0].id == id then [inbox[0].(read := true)] + inbox[1..]
    else [inbox[0]] + Marked(inbox[1..], id)
  }

  lemma {:induction false} MarkedAt(inbox: seq<Mail>, id: string, i: nat)
    requires i <= |inbox| && forall j :: 0 <= j < i ==> inbox[j].id != id
    requires i < |inbox| ==> inbox[i].id == id
    ensures Marked(inbox, id) == if i < |inbox| then inbox[i := inbox[i].(read := true)] else inbox
  {
    if i > 0 {
      MarkedAt(inbox[1..], id, i - 1);
    }
  }

  class EmailTool {
    var inbox: seq<Mail>
    var sent: seq<string>

    constructor (fixtures: seq<Mail>)
      ensures inbox == fixtures && sent == []
    {
      inbox := fixtures;
      sent := [];
    }

    method Send(to: string)
      modifies this
      ensures inbox == old(inbox) && sent == old(sent) + [to]
    {
      sent := sent + [to];
    }

    method CheckInbox() returns (messages: seq<Mail>)
      ensures messages == inbox
    {
      messages := inbox;
    }

    method MarkRead(id: string) returns (updated: bool)
      modifies this
      ensures inbox == Marked(old(inbox), id) && sent == old(sent)
      ensures updated <==> exists m :: m in old(inbox) && m.id == id
    {
      for i := 0 to |inbox|
        invariant inbox == old(inbox) && sent == old(sent)
        invariant forall j :: 0 <= j < i ==> inbox[j].id != id
      {
        if inbox[i].id == id {
          MarkedAt(inbox, id, i);
          inbox := inbox[i := inbox[i].(read := true)];
          assert old(inbox)[i] in old(inbox);
          return true;
        }
      }
      MarkedAt(inbox, id, |inbox|);
      updated := false;
    }
  }

  // ----- the loop -----

  /** What the engine makes of a message: whether a human must approve, and the schedule updates found. */
  datatype Work = Work(needsApproval: bool, updates: nat)

  datatype Call = CalendarCall | CrmCall | NotifyCall | SendCall | MarkCall

  /**
   Everything the loop depends on besides the inbox.  `work` is None when the engine raises;
   `accepts` is false when a tool call raises; both see how many messages came before.
   */
  datatype Env = Env(
    broker: bool,
    email: bool,
    messaging: bool,
    calendar: bool,
    crm: bool,
    suppressed: (string, string) -> bool,
    work: (nat, Mail) -> Option<Work>,
    accepts: (nat, Call) -> bool)

  datatype Delivery = Escalated | Replied | Suppressed

  datatype Report = Report(
    briefings: nat,
    tasks: nat,
    calendarEvents: nat,
    crmUpdates: nat,
    responses: nat,
    escalations: nat,
    suppressed: nat,
    windDowns: nat,
    processed: seq<(string, Delivery)>)

  function Unread(inbox: seq<Mail>): seq<Mail> {
    if inbox == [] then []
    else Unread(inbox[..|inbox| - 1]) + if inbox[|inbox| - 1].read then [] else [inbox[|inbox| - 1]]
  }

  /** Python's `s[:limit]`, which for a negative limit drops that many from the end. */
  function PyTake<T>(s: seq<T>, limit: int): (taken: seq<T>)
    ensures taken <= s
    ensures limit >= 0 ==> |taken| == limit || (|taken| < limit && taken == s)
    ensures limit < 0 ==> |taken| == |s| + limit || (|s| + limit < 0 && taken == [])
  {
    if limit < 0 then (if |s| + limit < 0 then [] else s[..|s| + limit])
    else if limit <= |s| then s[..limit]
    else s
  }

  function Ids(messages: seq<Mail>): seq<string> {
    if messages == [] then [] else Ids(messages[..|messages| - 1]) + [messages[|messages| - 1].id]
  }

  function MarkAll(inbox: seq<Mail>, ids: seq<string>): seq<Mail> {
    if ids == [] then inbox else Marked(MarkAll(inbox, ids[..|ids| - 1]), ids[|ids| - 1])
  }

  /** The messages one loop works on. */
  function Batch(env: Env, inbox: seq<Mail>, maxItems: int): (batch: seq<Mail>)
    ensures batch <= Unread(inbox)
    ensures batch != [] ==> env.broker && env.email
    ensures env.broker && env.email && maxItems >= 0 ==> |batch| == maxItems || (|batch| < maxItems && batch == Unread(inbox))
  {
    if env.broker && env.email then PyTake(Unread(inbox), maxItems) else []
  }

  function CrmCount(messages: seq<Mail>): nat {
    if messages == [] then 0
    else CrmCount(messages[..|messages| - 1]) + if messages[|messages| - 1].sender != "" then 1 else 0
  }

  function NumberOf(processed: seq<(string, Delivery)>, delivery: Delivery): nat {
    |set i | 0 <= i < |processed| && processed[i].1 == delivery|
  }

  /** The schedule updates the engine found in the first messages. */
  function UpdatesIn(env: Env, batch: seq<Mail>, n: nat): nat
    requires n <= |batch|
  {
    if n == 0 then 0
    else UpdatesIn(env, batch, n - 1) + match env.work(n - 1, batch[n - 1])
                                        case None => 0
                                        case Some(w) => w.updates
  }

  /** How a message the engine has worked on is delivered, when there is an email tool. */
  function DeliveryOf(env: Env, message: Mail, at: nat): Option<Delivery> {
    match env.work(at, message)
    case None => None
    case Some(w) =>
      if w.needsApproval then Some(Escalated)
      else if message.sender != "" && !env.suppressed("email", "normal") then Some(Replied)
      else Some(Suppressed)
  }

  /** Every task counted was answered, escalated or suppressed, and recorded. */
  predicate Balanced(r: Report) {
    r.responses + r.escalations + r.suppressed == r.tasks == |r.processed|
  }

  /** The counters after one more message. */
  function Counted(r: Report, message: Mail, updates: nat, delivery: Delivery): Report {
    r.(tasks := r.tasks + 1,
       calendarEvents := r.calendarEvents + updates,
       crmUpdates := r.crmUpdates + (if message.sender != "" then 1 else 0),
       escalations := r.escalations + (if delivery == Escalated then 1 else 0),
       responses := r.responses + (if delivery == Replied then 1 else 0),
       suppressed := r.suppressed + (if delivery == Suppressed then 1 else 0),
       processed := r.processed + [(message.id, delivery)])
  }

  lemma MarkAllExtends(inbox: seq<Mail>, batch: seq<Mail>, i: nat)
    requires i < |batch|
    ensures MarkAll(inbox, Ids(batch[..i + 1])) == Marked(MarkAll(inbox, Ids(batch[..i])), batch[i].id)
  {
    CountsExtend(batch, i);
    var ids := Ids(batch[..i + 1]);
    assert ids[..|ids| - 1] == Ids(batch[..i]);
  }

  /** Each counter is the number of recorded messages that were delivered so. */
  predicate CountersRight(r: Report) {
    && r.responses == NumberOf(r.processed, Replied)
    && r.escalations == NumberOf(r.processed, Escalated)
    && r.suppressed == NumberOf(r.processed, Suppressed)
  }

  lemma NumberExtends(processed: seq<(string, Delivery)>, id: string, last: Delivery, delivery: Delivery)
    ensures NumberOf(processed + [(id, last)], delivery) == NumberOf(processed, delivery) + if last == delivery then 1 else 0
  {
    var more := processed + [(id, last)];
    var before := set i | 0 <= i < |processed| && processed[i].1 == delivery;
    var after := set i | 0 <= i < |more| && more[i].1 == delivery;
    assert after == before + if last == delivery then {|processed|} else {};
  }

  /** The recorded messages are the first of the batch, each with the delivery it got. */
  ghost predicate Recorded(env: Env, processed: seq<(string, Delivery)>, batch: seq<Mail>) {
    && |processed| <= |batch|
    && forall j :: 0 <= j < |processed| ==>
         processed[j].0 == batch[j].id && DeliveryOf(env, batch[j], j) == Some(processed[j].1)
  }

  /** The report of a loop that has worked on the first `n` messages of its batch. */
  ghost predicate Reports(env: Env, report: Report, batch: seq<Mail>, n: nat, briefings: nat) {
    && |report.processed| == n <= |batch|
    && Recorded(env, report.processed, batch) && CountersRight(report)
    && report.calendarEvents == UpdatesIn(env, batch, n)
    && Balanced(report) && report.crmUpdates == CrmCount(batch[..n])
    && report.windDowns == 0 && report.briefings == briefings
  }

  lemma OneMoreReported(env: Env, report: Report, batch: seq<Mail>, n: nat, briefings: nat, updates: nat, delivery: Delivery)
    requires Reports(env, report, batch, n, briefings) && n < |batch|
    requires DeliveryOf(env, batch[n], n) == Some(delivery) && updates == env.work(n, batch[n]).value.updates
    ensures Reports(env, Counted(report, batch[n], updates, delivery), batch, n + 1, briefings)
  {
    CountsExtend(batch, n);
    OneMoreCounted(report, batch[n], updates, delivery);
    OneMoreRecorded(env, report.processed, batch, delivery);
  }

  lemma OneMoreCounted(report: Report, message: Mail, updates: nat, delivery: Delivery)
    requires CountersRight(report)
    ensures CountersRight(Counted(report, message, updates, delivery))
  {
    NumberExtends(report.processed, message.id, delivery, Replied);
    NumberExtends(report.processed, message.id, delivery, Escalated);
    NumberExtends(report.processed, message.id, delivery, Suppressed);
  }

  lemma OneMoreRecorded(env: Env, processed: seq<(string, Delivery)>, batch: seq<Mail>, delivery: Delivery)
    requires Recorded(env, processed, batch) && |processed| < |batch|
    requires DeliveryOf(env, batch[|processed|], |processed|) == Some(delivery)
    ensures Recorded(env, processed + [(batch[|processed|].id, delivery)], batch)
  {
  }

  lemma CountsExtend(batch: seq<Mail>, i: nat)
    requires i < |batch|
    ensures CrmCount(batch[..i + 1]) == CrmCount(batch[..i]) + if batch[i].sender != "" then 1 else 0
    ensures Ids(batch[..i + 1]) == Ids(batch[..i]) + [batch[i].id]
  {
    assert batch[..i + 1][..i] == batch[..i];
    var ids := Ids(batch[..i + 1]);
    assert ids[..|ids| - 1] == Ids(batch[..i]);
  }

  predicate EmailAllowed(env: Env, urgency: string) {
    env.broker && env.email && !env.suppressed("email", urgency)
  }

  predicate NotifyAllowed(env: Env, urgency: string) {
    EmailAllowed(env, urgency) || (env.broker && env.messaging && !env.suppressed("messaging", urgency))
  }

  class PulseEngine {
    const tool: EmailTool

    constructor (tool: EmailTool)
      ensures this.tool == tool
    {
      this.tool := tool;
    }

    /** `_notify_supervisor`: whether anything was sent; `ok` is false when a tool call raises. */
    method NotifySupervisor(env: Env, urgency: string, at: nat) returns (sent: bool, ok: bool)
      modifies tool
      ensures tool.inbox == old(tool.inbox)
      ensures sent <==> NotifyAllowed(env, urgency)
      ensures sent <==> env.broker && ((env.email && !env.suppressed("email", urgency))
                                       || (env.messaging && !env.suppressed("messaging", urgency)))
      ensures ok <==> sent ==> env.accepts(at, NotifyCall)
    {
      sent, ok := NotifyAllowed(env, urgency), true;
      if sent {
        ok := env.accepts(at, NotifyCall);
        if ok && EmailAllowed(env, urgency) {
          tool.Send("supervisor");
        }
      }
    }

    /** How one message is answered once the engine is done with it. */
    method Answer(env: Env, message: Mail, work: Work, at: nat) returns (delivery: Delivery, ok: bool)
      modifies tool
      ensures tool.inbox == old(tool.inbox)
      ensures delivery == if work.needsApproval then Escalated
                          else if message.sender != "" && EmailAllowed(env, "normal") then Replied
                          else Suppressed
    {
      if work.needsApproval {
        var sent;
        sent, ok := NotifySupervisor(env, "urgent", at);
        return Escalated, ok;
      }
      if message.sender == "" || !EmailAllowed(env, "normal") {
        return Suppressed, true;
      }
      tool.Send(message.sender);
      return Replied, env.accepts(at, SendCall);
    }

    /** One turn of the active-hours loop; when a call raises, the message stays unmarked. */
    method Handle(env: Env, message: Mail, at: nat) returns (updates: nat, delivery: Delivery, ok: bool)
      modifies tool
      ensures tool.inbox == if ok then Marked(old(tool.inbox), message.id) else old(tool.inbox)
      ensures ok ==> env.work(at, message).Some? && updates == env.work(at, message).value.updates
      ensures ok && env.broker && env.email ==> DeliveryOf(env, message, at) == Some(delivery)
    {
      updates, delivery, ok := 0, Suppressed, false;
      var work := env.work(at, message);
      if work.None? {
        return;
      }
      updates := work.value.updates;
      if env.broker && env.calendar && updates > 0 && !env.accepts(at, CalendarCall) {
        return;
      }
      if message.sender != "" && env.broker && env.crm && !env.accepts(at, CrmCall) {
        return;
      }
      delivery, ok := Answer(env, message, work.value, at);
      ok := ok && env.accepts(at, MarkCall);
      if ok {
        var _ := tool.MarkRead(message.id);
      }
    }

    /**
     `_active_hours`.  When it finishes it has worked on the whole batch in order, each message
     counted once as answered, escalated or suppressed; when a call raises, the messages marked
     read are the ones recorded as processed.
     */
    method ActiveHours(env: Env, maxItems: int, briefings: nat) returns (report: Report, finished: bool)
      requires env.broker && env.email
      modifies tool
      ensures var batch := Batch(env, old(tool.inbox), maxItems);
              && |report.processed| <= |batch|
              && Recorded(env, report.processed, batch) && CountersRight(report)
              && tool.inbox == MarkAll(old(tool.inbox), Ids(batch[..|report.processed|]))
              && (finished ==> |report.processed| == |batch|)
              && report.calendarEvents == UpdatesIn(env, batch, |report.processed|)
              && Balanced(report) && report.crmUpdates == CrmCount(batch[..|report.processed|])
      ensures report.windDowns == 0 && report.briefings == briefings
    {
      var messages := tool.CheckInbox();
      var batch := PyTake(Unread(messages), maxItems);
      report := Report(briefings, 0, 0, 0, 0, 0, 0, 0, []);
      for i := 0 to |batch|
        invariant tool.inbox == MarkAll(old(tool.inbox), Ids(batch[..i]))
        invariant Reports(env, report, batch, i, briefings)
      {
        var updates, delivery, ok := Handle(env, batch[i], i);
        if !ok {
          return report, false;
        }
        MarkAllExtends(old(tool.inbox), batch, i);
        OneMoreReported(env, report, batch, i, briefings, updates, delivery);
        report := Counted(report, batch[i], updates, delivery);
      }
      assert batch[..|batch|] == batch;
      finished := true;
    }

    /**
     `run_daily_loop`: a finished loop has sent, escalated, suppressed and wound down exactly one
     more time than it processed tasks, and has processed exactly its batch, in order.
     */
    method RunDailyLoop(env: Env, maxItems: int) returns (report: Report, finished: bool)
      modifies tool
      ensures finished ==>
                var batch := Batch(env, old(tool.inbox), maxItems);
                && report.responses + report.escalations + report.suppressed + report.windDowns == report.tasks + 1
                && report.tasks == |batch| == |report.processed|
                && Recorded(env, report.processed, batch)
                && report.responses == NumberOf(report.processed, Replied)
                && report.escalations == NumberOf(report.processed, Escalated)
                && report.suppressed == NumberOf(report.processed, Suppressed) + (if NotifyAllowed(env, "normal") then 0 else 1)
                && report.windDowns == (if NotifyAllowed(env, "normal") then 1 else 0)
                && report.briefings == (if NotifyAllowed(env, "important") then 1 else 0)
                && report.calendarEvents == UpdatesIn(env, batch, |batch|)
                && report.crmUpdates == CrmCount(batch)
                && tool.inbox == MarkAll(old(tool.inbox), Ids(batch))
    {
      report := Report(0, 0, 0, 0, 0, 0, 0, 0, []);
      var sent, ok := NotifySupervisor(env, "important", 0);
      if !ok {
        return report, false;
      }
      report := report.(briefings := if sent then 1 else 0);
      if env.broker && env.email {
        report, finished := ActiveHours(env, maxItems, report.briefings);
        if !finished {
          return;
        }
        ghost var batch := Batch(env, old(tool.inbox), maxItems);
        assert batch[..|report.processed|] == batch;
      }
      sent, ok := NotifySupervisor(env, "normal", report.tasks);
      if !ok {
        return report, false;
      }
      report := report.(windDowns := if sent then 1 else 0, suppressed := report.suppressed + if sent then 0 else 1);
      finished := true;
    }
  }

  lemma {:induction false} IdsLength(messages: seq<Mail>)
    ensures |Ids(messages)| == |messages|
    ensures forall i :: 0 <= i < |messages| ==> Ids(messages)[i] == messages[i].id
  {
    if messages != [] {
      IdsLength(messages[..|messages| - 1]);
    }
  }

  lemma UnreadSnoc(a: seq<Mail>, m: Mail)
    ensures Unread(a + [m]) == Unread(a) + if m.read then [] else [m]
  {
    assert (a + [m])[..|a|] == a;
  }

  /** The unread messages of two parts one after the other are those of the parts, in order. */
  lemma {:induction false} UnreadOfParts(a: seq<Mail>, b: seq<Mail>, m: Mail)
    ensures Unread(a + b) == Unread(a) + Unread(b)
    ensures Unread([m]) == if m.read then [] else [m]
    decreases |b|
  {
    UnreadSnoc([], m);
    assert [] + [m] == [m];
    if b == [] {
      AppendNothing(a);
    } else {
      var front, last := b[..|b| - 1], b[|b| - 1];
      UnreadOfParts(a, front, m);
      AppendFront(a, b);
      UnreadSnoc(a + front, last);
      UnreadSnoc(front, last);
      assert front + [last] == b;
    }
  }

  // ----- draining the inbox -----

  /** No earlier message has the same id. */
  predicate IsFirst(inbox: seq<Mail>, i: nat)
    requires i < |inbox|
  {
    forall j :: 0 <= j < i ==> inbox[j].id != inbox[i].id
  }

  /** The messages that are first of their id are marked when their id is among `ids`. */
  function MarkFirsts(inbox: seq<Mail>, ids: set<string>): seq<Mail> {
    seq(|inbox|, i requires 0 <= i < |inbox| =>
      if inbox[i].id in ids && IsFirst(inbox, i) then inbox[i].(read := true) else inbox[i])
  }

  lemma {:induction false} MarkedMarksFirst(inbox: seq<Mail>, id: string)
    ensures |Marked(inbox, id)| == |inbox|
    ensures forall i :: 0 <= i < |inbox| ==>
              Marked(inbox, id)[i] == if inbox[i].id == id && IsFirst(inbox, i) then inbox[i].(read := true) else inbox[i]
  {
    if inbox != [] && inbox[0].id != id {
      MarkedMarksFirst(inbox[1..], id);
      forall i | 1 <= i < |inbox| && inbox[i].id == id
        ensures IsFirst(inbox, i) <==> IsFirst(inbox[1..], i - 1)
      {
        assert forall j :: 1 <= j < i ==> inbox[1..][j - 1] == inbox[j];
      }
    }
  }

  lemma MarkFirstsTwice(inbox: seq<Mail>, ids: set<string>, id: string)
    ensures MarkFirsts(MarkFirsts(inbox, ids), {id}) == MarkFirsts(inbox, ids + {id})
  {
    var before := MarkFirsts(inbox, ids);
    assert forall i :: 0 <= i < |inbox| ==> before[i].id == inbox[i].id;
    assert forall i :: 0 <= i < |inbox| ==> (IsFirst(before, i) <==> IsFirst(inbox, i));
  }

  lemma {:induction false} MarkAllMarksFirsts(inbox: seq<Mail>, ids: seq<string>)
    ensures MarkAll(inbox, ids) == MarkFirsts(inbox, Elements(ids))
  {
    if ids == [] {
      assert MarkFirsts(inbox, {}) == inbox;
    } else {
      var front, last := ids[..|ids| - 1], ids[|ids| - 1];
      MarkAllMarksFirsts(inbox, front);
      MarkedMarksFirst(MarkFirsts(inbox, Elements(front)), last);
      MarkFirstsTwice(inbox, Elements(front), last);
      assert ids == front + [last];
      assert Elements(ids) == Elements(front) + {last};
    }
  }

  /** Every unread message is the first with its id: the tool can mark it. */
  predicate Markable(inbox: seq<Mail>) {
    forall i :: 0 <= i < |inbox| && !inbox[i].read ==> IsFirst(inbox, i)
  }

  lemma {:induction false} UnreadHolds(inbox: seq<Mail>, m: Mail)
    ensures m in Unread(inbox) <==> m in inbox && !m.read
  {
    if inbox != [] {
      UnreadHolds(inbox[..|inbox| - 1], m);
      assert inbox == inbox[..|inbox| - 1] + [inbox[|inbox| - 1]];
    }
  }

  lemma IdsHold(messages: seq<Mail>, id: string)
    ensures id in Elements(Ids(messages)) <==> exists m :: m in messages && m.id == id
  {
    IdsLength(messages);
    if id in Ids(messages) {
      var i :| 0 <= i < |Ids(messages)| && Ids(messages)[i] == id;
      assert messages[i] in messages;
    }
    if m :| m in messages && m.id == id {
      var i :| 0 <= i < |messages| && messages[i] == m;
      assert Ids(messages)[i] == id;
    }
  }

  lemma MarkFirstsOfFront(front: seq<Mail>, last: Mail, ids: set<string>)
    ensures var marked := MarkFirsts(front + [last], ids);
            && marked[..|front|] == MarkFirsts(front, ids)
            && marked[|front|] == if last.id in ids && IsFirst(front + [last], |front|) then last.(read := true) else last
  {
    var inbox := front + [last];
    forall i | 0 <= i < |front| ensures IsFirst(inbox, i) <==> IsFirst(front, i) {
      assert forall j :: 0 <= j <= i ==> inbox[j] == front[j];
    }
  }

  lemma MarkFirstsDepends(inbox: seq<Mail>, a: set<string>, b: set<string>)
    requires forall m :: m in inbox ==> (m.id in a <==> m.id in b)
    ensures MarkFirsts(inbox, a) == MarkFirsts(inbox, b)
  {
    assert forall i :: 0 <= i < |inbox| ==> inbox[i] in inbox;
  }

  /** The inbox once the messages of `taken` have been marked. */
  function Processed(inbox: seq<Mail>, taken: seq<Mail>): seq<Mail> {
    MarkFirsts(inbox, Elements(Ids(taken)))
  }

  /** The case of a last message that is not among those marked. */
  lemma UnreadKeepsLast(front: seq<Mail>, last: Mail, n: nat)
    requires Markable(front + [last]) && n <= |Unread(front)|
    requires Unread(Processed(front, Unread(front)[..n])) == Unread(front)[n..]
    ensures Unread(Processed(front + [last], Unread(front)[..n]))
            == Unread(front)[n..] + if last.read then [] else [last]
  {
    var inbox, ids := front + [last], Elements(Ids(Unread(front)[..n]));
    MarkFirstsOfFront(front, last, ids);
    IdsHold(Unread(front)[..n], last.id);
    IdsOfUnread(front, n);
    var marked := MarkFirsts(inbox, ids);
    assert marked[..|marked| - 1] == MarkFirsts(front, ids);
    if !last.read {
      assert !inbox[|front|].read;
      assert IsFirst(inbox, |front|);
      forall m | m in Unread(front)[..n] ensures m.id != last.id {
        var j :| 0 <= j < |front| && front[j] == m;
        assert inbox[j] == m;
      }
    }
  }

  /** The case of a last message that is unread and is marked with all the others. */
  lemma UnreadLosesLast(front: seq<Mail>, last: Mail)
    requires Markable(front + [last]) && !last.read
    requires Unread(Processed(front, Unread(front))) == []
    ensures Unread(Processed(front + [last], Unread(front) + [last])) == []
  {
    var inbox, u := front + [last], Unread(front);
    var some, ids := Elements(Ids(u)), Elements(Ids(u + [last]));
    assert (u + [last])[..|u|] == u;
    assert Ids(u + [last]) == Ids(u) + [last.id];
    assert ids == some + {last.id};
    assert IsFirst(inbox, |front|) by {
      assert !inbox[|front|].read;
    }
    forall m | m in front ensures m.id in ids <==> m.id in some {
      var j :| 0 <= j < |front| && front[j] == m;
      assert inbox[j].id != last.id;
    }
    MarkFirstsDepends(front, ids, some);
    MarkFirstsOfFront(front, last, ids);
    var marked := MarkFirsts(inbox, ids);
    assert marked[..|marked| - 1] == MarkFirsts(front, some);
  }

  lemma MarkableFront(front: seq<Mail>, last: Mail)
    requires Markable(front + [last])
    ensures Markable(front)
  {
    forall i | 0 <= i < |front| && !front[i].read ensures IsFirst(front, i) {
      var inbox := front + [last];
      assert inbox[i] == front[i];
      assert IsFirst(inbox, i);
      assert forall j :: 0 <= j <= i ==> inbox[j] == front[j];
    }
  }

  lemma SplitOfAppend<T>(u: seq<T>, more: seq<T>, n: nat)
    requires n <= |u|
    ensures (u + more)[..n] == u[..n] && (u + more)[n..] == u[n..] + more
  {
  }

  ghost predicate LeavesTheRest(inbox: seq<Mail>, n: nat) {
    n <= |Unread(inbox)| && Unread(Processed(inbox, Unread(inbox)[..n])) == Unread(inbox)[n..]
  }

  lemma RestKeepsLast(front: seq<Mail>, last: Mail, n: nat)
    requires Markable(front + [last]) && LeavesTheRest(front, n)
    ensures LeavesTheRest(front + [last], n)
  {
    UnreadSnoc(front, last);
    UnreadKeepsLast(front, last, n);
    SplitOfAppend(Unread(front), if last.read then [] else [last], n);
  }

  lemma RestLosesLast(front: seq<Mail>, last: Mail)
    requires Markable(front + [last]) && !last.read && LeavesTheRest(front, |Unread(front)|)
    ensures LeavesTheRest(front + [last], |Unread(front)| + 1)
  {
    var u := Unread(front);
    UnreadSnoc(front, last);
    assert u[..|u|] == u && u[|u|..] == [];
    assert (u + [last])[..|u| + 1] == u + [last] && (u + [last])[|u| + 1..] == [];
    UnreadLosesLast(front, last);
  }

  lemma OneMoreUnread(front: seq<Mail>, last: Mail)
    ensures |Unread(front + [last])| == |Unread(front)| + if last.read then 0 else 1
  {
    UnreadSnoc(front, last);
  }

  lemma RestWithLast(front: seq<Mail>, last: Mail, k: nat, more: bool)
    requires Markable(front + [last]) && LeavesTheRest(front, k)
    requires more ==> !last.read && k == |Unread(front)|
    ensures LeavesTheRest(front + [last], if more then k + 1 else k)
  {
    if more {
      RestLosesLast(front, last);
    } else {
      RestKeepsLast(front, last, k);
    }
  }

  /** Marking the first `n` unread messages leaves exactly the others unread, in order. */
  lemma {:induction false} UnreadAfterMarking(inbox: seq<Mail>, n: nat)
    requires Markable(inbox) && n <= |Unread(inbox)|
    ensures LeavesTheRest(inbox, n)
  {
    if inbox == [] {
      assert Processed(inbox, []) == [];
    } else {
      var front, last := inbox[..|inbox| - 1], inbox[|inbox| - 1];
      assert front + [last] == inbox;
      MarkableFront(front, last);
      OneMoreUnread(front, last);
      var more := n > |Unread(front)|;
      var k := if more then n - 1 else n;
      UnreadAfterMarking(front, k);
      RestWithLast(front, last, k, more);
    }
  }

  lemma IdsOfUnread(front: seq<Mail>, k: nat)
    requires k <= |Unread(front)|
    ensures forall m :: m in Unread(front)[..k] ==> m in front && !m.read
  {
    forall m | m in Unread(front)[..k] ensures m in front && !m.read {
      assert m in Unread(front);
      UnreadHolds(front, m);
    }
  }

  /** The messages a finished loop with an email tool works on, and the inbox it leaves. */
  function Taken(inbox: seq<Mail>, maxItems: int): seq<Mail> {
    PyTake(Unread(inbox), maxItems)
  }

  function Next(inbox: seq<Mail>, maxItems: int): seq<Mail> {
    MarkAll(inbox, Ids(Taken(inbox, maxItems)))
  }

  /** The messages worked on by `loops` loops, one after the other. */
  function AllTaken(inbox: seq<Mail>, maxItems: int, loops: nat): seq<Mail>
    decreases loops
  {
    if loops == 0 then [] else Taken(inbox, maxItems) + AllTaken(Next(inbox, maxItems), maxItems, loops - 1)
  }

  /** How many of `n` unread messages `loops` loops work on; a negative limit leaves that many for good. */
  function Quota(maxItems: int, loops: nat, n: nat): nat {
    if maxItems >= 0 then (if loops * maxItems <= n then loops * maxItems else n)
    else if loops == 0 || n + maxItems < 0 then 0
    else n + maxItems
  }

  lemma MarkingKeepsMarkable(inbox: seq<Mail>, ids: set<string>)
    requires Markable(inbox)
    ensures Markable(MarkFirsts(inbox, ids))
  {
    var marked := MarkFirsts(inbox, ids);
    forall i | 0 <= i < |marked| && !marked[i].read ensures IsFirst(marked, i) {
      assert !inbox[i].read;
      assert IsFirst(inbox, i);
      assert forall j :: 0 <= j <= i ==> marked[j].id == inbox[j].id;
    }
  }

  lemma NextLeavesTheRest(inbox: seq<Mail>, maxItems: int)
    requires Markable(inbox)
    ensures var n := |Taken(inbox, maxItems)|;
            && n <= |Unread(inbox)|
            && Taken(inbox, maxItems) == Unread(inbox)[..n]
            && Unread(Next(inbox, maxItems)) == Unread(inbox)[n..]
            && Markable(Next(inbox, maxItems))
  {
    var taken := Taken(inbox, maxItems);
    MarkAllMarksFirsts(inbox, Ids(taken));
    UnreadAfterMarking(inbox, |taken|);
    assert taken == Unread(inbox)[..|taken|];
    MarkingKeepsMarkable(inbox, Elements(Ids(taken)));
  }

  /** How many messages one loop takes of `n` unread ones. */
  function Share(maxItems: int, n: nat): (share: nat)
    ensures share <= n
  {
    if maxItems < 0 then (if n + maxItems < 0 then 0 else n + maxItems)
    else if maxItems <= n then maxItems
    else n
  }

  function Shares(maxItems: int, loops: nat, n: nat): (total: nat)
    ensures total <= n
    decreases loops
  {
    if loops == 0 then 0 else Share(maxItems, n) + Shares(maxItems, loops - 1, n - Share(maxItems, n))
  }

  lemma {:induction false} SharesMakeQuota(maxItems: int, loops: nat, n: nat)
    ensures Shares(maxItems, loops, n) == Quota(maxItems, loops, n)
    decreases loops
  {
    if loops > 0 {
      SharesMakeQuota(maxItems, loops - 1, n - Share(maxItems, n));
      if maxItems >= 0 {
        assert loops * maxItems == maxItems + (loops - 1) * maxItems;
        assert (loops - 1) * maxItems >= 0;
      }
    }
  }

  lemma TakeTwice<T>(s: seq<T>, first: nat, later: nat)
    requires first + later <= |s|
    ensures s[..first] + s[first..][..later] == s[..first + later]
  {
  }

  lemma TakenIsShare(inbox: seq<Mail>, maxItems: int)
    ensures |Taken(inbox, maxItems)| == Share(maxItems, |Unread(inbox)|)
  {
  }

  lemma {:induction false} LoopsTakeShares(inbox: seq<Mail>, maxItems: int, loops: nat)
    requires Markable(inbox)
    ensures AllTaken(inbox, maxItems, loops) == Unread(inbox)[..Shares(maxItems, loops, |Unread(inbox)|)]
    decreases loops
  {
    if loops > 0 {
      var u, first, next := Unread(inbox), |Taken(inbox, maxItems)|, Next(inbox, maxItems);
      NextLeavesTheRest(inbox, maxItems);
      TakenIsShare(inbox, maxItems);
      LoopsTakeShares(next, maxItems, loops - 1);
      TakeTwice(u, first, Shares(maxItems, loops - 1, |u| - first));
    }
  }

  /**
   Repeated loops work through the unread messages in order: together they take exactly the
   first `Quota` of them, for every limit and number of loops.
   */
  lemma LoopsDrainInOrder(inbox: seq<Mail>, maxItems: int, loops: nat)
    requires Markable(inbox)
    ensures Quota(maxItems, loops, |Unread(inbox)|) <= |Unread(inbox)|
    ensures AllTaken(inbox, maxItems, loops) == Unread(inbox)[..Quota(maxItems, loops, |Unread(inbox)|)]
  {
    LoopsTakeShares(inbox, maxItems, loops);
    SharesMakeQuota(maxItems, loops, |Unread(inbox)|);
  }

  lemma LaterIdDiffers(front: seq<Mail>, last: Mail)
    requires Markable(front + [last]) && !last.read
    ensures last.id !in Ids(Unread(front))
  {
    var inbox, u := front + [last], Unread(front);
    assert !inbox[|front|].read;
    assert IsFirst(inbox, |front|);
    IdsLength(u);
    forall i | 0 <= i < |u| ensures Ids(u)[i] != last.id {
      assert u[i] in u;
      UnreadHolds(front, u[i]);
      var j :| 0 <= j < |front| && front[j] == u[i];
      assert inbox[j] == u[i];
    }
  }

  /** No message is taken twice: the unread ids are distinct. */
  lemma {:induction false} UnreadIdsAreDistinct(inbox: seq<Mail>)
    requires Markable(inbox)
    ensures Distinct(Ids(Unread(inbox)))
  {
    if inbox != [] {
      var front, last := inbox[..|inbox| - 1], inbox[|inbox| - 1];
      assert inbox == front + [last];
      MarkableFront(front, last);
      UnreadIdsAreDistinct(front);
      if !last.read {
        LaterIdDiffers(front, last);
        var u := Unread(front);
        assert (u + [last])[..|u|] == u;
        assert Ids(u + [last]) == Ids(u) + [last.id];
      } else {
        assert Unread(inbox) == Unread(front);
      }
    }
  }

  lemma UnreadEmpty(inbox: seq<Mail>)
    ensures Unread(inbox) == [] <==> forall i :: 0 <= i < |inbox| ==> inbox[i].read
  {
    if i :| 0 <= i < |inbox| && !inbox[i].read {
      UnreadHolds(inbox, inbox[i]);
    }
    if Unread(inbox) != [] {
      var m := Unread(inbox)[0];
      assert m in Unread(inbox);
      UnreadHolds(inbox, m);
    }
  }

  /**
   The condition is exact: a loop that works on every unread message leaves none unread if and
   only if each of them was the first with its id.
   */
  lemma LoopClearsInboxIffMarkable(inbox: seq<Mail>, maxItems: int)
    requires maxItems >= |Unread(inbox)|
    ensures Unread(Next(inbox, maxItems)) == [] <==> Markable(inbox)
  {
    if Markable(inbox) {
      NextLeavesTheRest(inbox, maxItems);
    } else {
      var i :| 0 <= i < |inbox| && !inbox[i].read && !IsFirst(inbox, i);
      var after := Next(inbox, maxItems);
      MarkAllMarksFirsts(inbox, Ids(Taken(inbox, maxItems)));
      assert after[i] == inbox[i];
      UnreadEmpty(after);
    }
  }
}
