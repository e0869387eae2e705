/** Messages inserted into a running reply, and stopping it.

    The inbox is one lock; taking its messages and committing them to the history is another.
    Each event below is one region that the code runs under its lock, so an interleaving of the
    user, the run and the stop command is a sequence of events. */
module Injection {

  type Id = string

  datatype Message = Message(id: Id, text: string)

  // ----- the inbox -----

  datatype Inbox = Inbox(closed: bool, pending: seq<Message>, committed: set<Id>, preemption: bool)

  const EMPTY_INBOX := Inbox(false, [], {}, false)

  function Ids(ms: seq<Message>): (ids: seq<Id>)
    ensures |ids| == |ms| && forall i :: 0 <= i < |ms| ==> ids[i] == ms[i].id
  {
    seq(|ms|, i requires 0 <= i < |ms| => ms[i].id)
  }

  /** How a request to insert a message ends. */
  datatype Reply = Accepted | AlreadyPending | AlreadyCommitted | Refused

  function Answer(i: Inbox, id: Id): Reply {
    if id in i.committed then AlreadyCommitted
    else if i.closed then Refused
    else if id in Ids(i.pending) then AlreadyPending
    else Accepted
  }

  lemma PendingIds(pending: seq<Message>, id: Id)
    ensures id in Ids(pending) <==> exists p <- pending :: p.id == id
  {
    if exists p <- pending :: p.id == id {
      var k :| 0 <= k < |pending| && pending[k].id == id;
      assert Ids(pending)[k] == id;
    }
  }

  function Enqueued(i: Inbox, m: Message): Inbox {
    if Answer(i, m.id).Accepted? then i.(pending := i.pending + [m], preemption := true) else i
  }

  function Taken(i: Inbox, finishIfEmpty: bool): Inbox {
    i.(closed := i.closed || (finishIfEmpty && i.pending == []), pending := [], preemption := false)
  }

  function Elements(ids: seq<Id>): set<Id> {
    set id <- ids
  }

  function Recorded(i: Inbox, ms: seq<Message>): Inbox {
    i.(committed := i.committed + Elements(Ids(ms)))
  }

  class AgentMessageInbox {
    var closed: bool
    var pending: seq<Message>
    var committed: set<Id>
    var preemption: bool

    ghost function Value(): Inbox
      reads this
    {
      Inbox(closed, pending, committed, preemption)
    }

    constructor ()
      ensures Value() == EMPTY_INBOX
    {
      closed, pending, committed, preemption := false, [], {}, false;
    }

    method Enqueue(m: Message) returns (reply: Reply)
      modifies this
      ensures reply == Answer(old(Value()), m.id) && Value() == Enqueued(old(Value()), m)
      ensures reply.AlreadyCommitted? <==> m.id in old(committed)
      ensures reply.Refused? <==> old(closed) && m.id !in old(committed)
      ensures reply.AlreadyPending? <==> !old(closed) && m.id !in old(committed) && exists p <- old(pending) :: p.id == m.id
      ensures pending == old(pending) + (if reply.Accepted? then [m] else []) && closed == old(closed) && committed == old(committed)
      ensures preemption == (old(preemption) || reply.Accepted?)
    {
      PendingIds(pending, m.id);
      if m.id in committed {
        return AlreadyCommitted;
      }
      if closed {
        return Refused;
      }
      var i := 0;
      while i < |pending|
        invariant 0 <= i <= |pending|
        invariant forall k :: 0 <= k < i ==> pending[k].id != m.id
      {
        if pending[i].id == m.id {
          assert Ids(pending)[i] == m.id;
          return AlreadyPending;
        }
        i := i + 1;
      }
      pending := pending + [m];
      preemption := true;
      return Accepted;
    }

    method Take(finishIfEmpty: bool) returns (taken: seq<Message>)
      modifies this
      ensures taken == old(pending) && Value() == Taken(old(Value()), finishIfEmpty)
      ensures pending == [] && !preemption && committed == old(committed)
      ensures closed == (old(closed) || (finishIfEmpty && old(pending) == []))
    {
      if finishIfEmpty && pending == [] {
        closed := true;
      }
      preemption := false;
      taken := pending;
      pending := [];
    }

    method RecordCommit(ms: seq<Message>)
      modifies `committed
      ensures Value() == Recorded(old(Value()), ms)
    {
      var start := committed;
      for i := 0 to |ms|
        invariant committed == start + Elements(Ids(ms)[..i])
      {
        assert Ids(ms)[..i + 1] == Ids(ms)[..i] + [ms[i].id];
        assert Elements(Ids(ms)[..i + 1]) == Elements(Ids(ms)[..i]) + {ms[i].id};
        committed := committed + {ms[i].id};
      }
      assert Ids(ms)[..|ms|] == Ids(ms);
    }
  }

  // ----- the replies of one stream -----

  datatype Status = Streaming | Complete | Stopped | Failed

  datatype Row =
    | FromUser(m: Message)
    | Reply(id: Id, content: string, status: Status)

  function RowId(r: Row): Id {
    if r.FromUser? then r.m.id else r.id
  }

  /** The stored rows and the reply being written: `content` is the text in memory for `current`.  The
      last two fields are history: the text each reply of the stream ever received, and the text the
      current one had when it was last settled. */
  datatype Replies = Replies(
    rows: seq<Row>, current: Id, content: string, ended: bool, received: map<Id, string>, settled: string)

  predicate Distinct<T(==)>(s: seq<T>) {
    forall i, j :: 0 <= i < j < |s| ==> s[i] != s[j]
  }

  function RowIds(rows: seq<Row>): (ids: seq<Id>)
    ensures |ids| == |rows| && forall i :: 0 <= i < |rows| ==> ids[i] == RowId(rows[i])
  {
    seq(|rows|, i requires 0 <= i < |rows| => RowId(rows[i]))
  }

  function UserRows(ms: seq<Message>): (rows: seq<Row>)
    ensures |rows| == |ms| && forall i :: 0 <= i < |ms| ==> rows[i] == FromUser(ms[i])
  {
    seq(|ms|, i requires 0 <= i < |ms| => FromUser(ms[i]))
  }

  function UsersOf(rows: seq<Row>): seq<Message> {
    if rows == [] then []
    else UsersOf(rows[..|rows| - 1]) + if rows[|rows| - 1].FromUser? then [rows[|rows| - 1].m] else []
  }

  /** `UPDATE` of one reply. */
  function Update(rows: seq<Row>, id: Id, content: string, status: Status): (r: seq<Row>)
    ensures |r| == |rows|
    ensures forall i :: 0 <= i < |rows| ==> r[i] == if rows[i].Reply? && rows[i].id == id then Reply(id, content, status) else rows[i]
  {
    seq(|rows|, i requires 0 <= i < |rows| => if rows[i].Reply? && rows[i].id == id then Reply(id, content, status) else rows[i])
  }

  function Extended(r: Replies, delta: string): Replies {
    if r.current !in r.received then r
    else r.(content := r.content + delta, received := r.received[r.current := r.received[r.current] + delta])
  }

  function Settle(r: Replies, strip: string -> string, status: Status): Replies {
    r.(rows := Update(r.rows, r.current, strip(r.content), status), ended := true, settled := r.content)
  }

  /** The transaction of an injection: the old reply is settled, the inserted messages and an empty new
      reply follow it. */
  function Committed(rows: seq<Row>, current: Id, content: string, status: Status, ms: seq<Message>,
          next: Id): seq<Row> {
    Update(rows, current, content, status) + UserRows(ms) + [Reply(next, "", Streaming)]
  }

  function Injected(r: Replies, strip: string -> string, status: Status, ms: seq<Message>, next: Id): Replies {
    r.(rows := Committed(r.rows, r.current, strip(r.content), status, ms, next), current := next, content := "",
       received := r.received[next := ""])
  }

  function Snapshotted(r: Replies): Replies {
    r.(rows := Update(r.rows, r.current, r.content, Streaming))
  }

  /** Primary keys let the transaction of an injection through. */
  predicate KeysFree(rows: seq<Row>, ms: seq<Message>, next: Id) {
    && (forall id <- Ids(ms) + [next] :: id !in RowIds(rows))
    && next !in Ids(ms)
  }

  /** Until the stream ends its last row, and no other, is a streaming reply, and that is the current one. */
  predicate RowsOk(r: Replies) {
    && r.rows != [] && Distinct(RowIds(r.rows))
    && var last := r.rows[|r.rows| - 1];
    && last.Reply? && last.id == r.current
    && (last.status == Streaming <==> !r.ended)
    && (forall i :: 0 <= i < |r.rows| - 1 && r.rows[i].Reply? ==> r.rows[i].status != Streaming)
  }

  /** Every reply of the stream but the current one holds all the text it received. */
  predicate TextOk(r: Replies, strip: string -> string) {
    && r.current in r.received && r.received[r.current] == r.content
    && (forall id <- r.received :: id in RowIds(r.rows))
    && (forall i :: 0 <= i < |r.rows| && HasText(r, i) && r.rows[i].id != r.current ==>
          r.rows[i].content == strip(r.received[r.rows[i].id]))
    && (r.ended ==> r.settled <= r.content
                    && forall i :: 0 <= i < |r.rows| && HasText(r, i) && r.rows[i].id == r.current ==> r.rows[i].content == strip(r.settled))
  }

  predicate HasText(r: Replies, i: nat)
    requires i < |r.rows|
  {
    r.rows[i].Reply? && r.rows[i].id in r.received
  }

  lemma ExtendedKeeps(r: Replies, strip: string -> string, delta: string)
    requires RowsOk(r) && TextOk(r, strip)
    ensures RowsOk(Extended(r, delta)) && TextOk(Extended(r, delta), strip)
  {
    hide RowIds, Distinct;
    var r' := Extended(r, delta);
    assert forall i :: 0 <= i < |r.rows| ==> HasText(r', i) == HasText(r, i);
  }

  lemma UpdateKeepsIds(rows: seq<Row>, id: Id, content: string, status: Status)
    ensures RowIds(Update(rows, id, content, status)) == RowIds(rows)
  {
  }

  lemma OnlyLastIsCurrent(r: Replies, i: nat)
    requires RowsOk(r) && i < |r.rows| - 1
    ensures RowId(r.rows[i]) != r.current
  {
    assert RowIds(r.rows)[i] != RowIds(r.rows)[|r.rows| - 1];
  }

  lemma SettleRows(r: Replies, strip: string -> string, status: Status)
    requires RowsOk(r) && status != Streaming
    ensures RowsOk(Settle(r, strip, status))
  {
    hide RowIds, Distinct;
    UpdateKeepsIds(r.rows, r.current, strip(r.content), status);
  }

  lemma SettleText(r: Replies, strip: string -> string, status: Status)
    requires TextOk(r, strip)
    ensures TextOk(Settle(r, strip, status), strip)
  {
    hide RowIds;
    UpdateKeepsIds(r.rows, r.current, strip(r.content), status);
    var r' := Settle(r, strip, status);
    assert forall i :: 0 <= i < |r.rows| ==> HasText(r', i) == HasText(r, i);
  }

  lemma SnapshotRows(r: Replies)
    requires RowsOk(r) && !r.ended
    ensures RowsOk(Snapshotted(r))
  {
    hide RowIds, Distinct;
    UpdateKeepsIds(r.rows, r.current, r.content, Streaming);
    forall i | 0 <= i < |r.rows| - 1 ensures RowId(r.rows[i]) != r.current {
      OnlyLastIsCurrent(r, i);
    }
  }

  lemma SnapshotText(r: Replies, strip: string -> string)
    requires TextOk(r, strip) && !r.ended
    ensures TextOk(Snapshotted(r), strip)
  {
    hide RowIds;
    UpdateKeepsIds(r.rows, r.current, r.content, Streaming);
    var r' := Snapshotted(r);
    assert forall i :: 0 <= i < |r.rows| ==> HasText(r', i) == HasText(r, i);
  }

  /** A snapshot of the reply in memory, written as streaming, leaves the rows well formed exactly while
      the reply has not been settled: the code does not serialize it with the stop. */
  lemma SnapshotKeepsIff(r: Replies, strip: string -> string)
    requires RowsOk(r) && TextOk(r, strip)
    ensures (RowsOk(Snapshotted(r)) && TextOk(Snapshotted(r), strip)) <==> !r.ended
  {
    hide RowIds, Distinct, TextOk;
    if r.ended {
      assert Snapshotted(r).rows[|r.rows| - 1] == Reply(r.current, r.content, Streaming);
    } else {
      SnapshotRows(r);
      SnapshotText(r, strip);
    }
  }

  lemma CommittedIds(rows: seq<Row>, current: Id, content: string, status: Status, ms: seq<Message>, next: Id)
    ensures RowIds(Committed(rows, current, content, status, ms, next)) == RowIds(rows) + Ids(ms) + [next]
  {
    var updated := Update(rows, current, content, status);
    UpdateKeepsIds(rows, current, content, status);
    assert RowIds(updated + UserRows(ms) + [Reply(next, "", Streaming)]) == RowIds(updated) + Ids(ms) + [next];
  }

  lemma DistinctConcat(a: seq<Id>, b: seq<Id>, c: Id)
    requires Distinct(a) && Distinct(b) && c !in b && (forall id <- b + [c] :: id !in a)
    ensures Distinct(a + b + [c])
  {
    var all := a + b + [c];
    forall i, j | 0 <= i < j < |all| ensures all[i] != all[j] {
      if j == |all| - 1 {
        assert c in b + [c];
      } else if j >= |a| {
        assert all[j] == b[j - |a|] && b[j - |a|] in b + [c];
      }
    }
  }

  lemma InjectedRows(r: Replies, strip: string -> string, status: Status, ms: seq<Message>, next: Id)
    requires RowsOk(r) && !r.ended && status != Streaming && KeysFree(r.rows, ms, next) && Distinct(Ids(ms))
    ensures RowsOk(Injected(r, strip, status, ms, next))
  {
    hide RowIds, Distinct, Ids;
    CommittedIds(r.rows, r.current, strip(r.content), status, ms, next);
    DistinctConcat(RowIds(r.rows), Ids(ms), next);
    var updated := Update(r.rows, r.current, strip(r.content), status);
    var r' := Injected(r, strip, status, ms, next);
    assert forall i :: 0 <= i < |updated| ==> r'.rows[i] == updated[i];
    assert forall i :: |updated| <= i < |r'.rows| - 1 ==> r'.rows[i] == FromUser(ms[i - |updated|]);
  }

  lemma CommittedAt(rows: seq<Row>, current: Id, content: string, status: Status, ms: seq<Message>, next: Id)
    ensures var after := Committed(rows, current, content, status, ms, next);
            && |after| == |rows| + |ms| + 1 && after[|after| - 1] == Reply(next, "", Streaming)
            && (forall i :: |rows| <= i < |after| - 1 ==> after[i].FromUser?)
            && (forall i :: 0 <= i < |rows| ==> after[i] == Update(rows, current, content, status)[i])
  {
  }

  lemma InjectedText(r: Replies, strip: string -> string, status: Status, ms: seq<Message>, next: Id)
    requires TextOk(r, strip) && !r.ended && KeysFree(r.rows, ms, next)
    ensures TextOk(Injected(r, strip, status, ms, next), strip)
  {
    hide RowIds, Ids, Committed, UserRows;
    InjectedKeys(r, strip, status, ms, next);
    CommittedAt(r.rows, r.current, strip(r.content), status, ms, next);
    assert next in Ids(ms) + [next];
    assert next !in r.received;
    var r' := Injected(r, strip, status, ms, next);
    forall i | 0 <= i < |r'.rows| && HasText(r', i) && r'.rows[i].id != next
      ensures r'.rows[i].content == strip(r'.received[r'.rows[i].id])
    {
      assert HasText(r, i);
    }
  }

  lemma InjectedKeys(r: Replies, strip: string -> string, status: Status, ms: seq<Message>, next: Id)
    requires forall id <- r.received :: id in RowIds(r.rows)
    ensures var r' := Injected(r, strip, status, ms, next); forall id <- r'.received :: id in RowIds(r'.rows)
  {
    hide RowIds, Ids, Committed;
    CommittedIds(r.rows, r.current, strip(r.content), status, ms, next);
    var r' := Injected(r, strip, status, ms, next);
    forall id <- r'.received ensures id in RowIds(r'.rows) {
      assert id in RowIds(r.rows) || id in [next];
    }
  }

  lemma {:induction false} UpdateKeepsUsers(rows: seq<Row>, id: Id, content: string, status: Status)
    ensures UsersOf(Update(rows, id, content, status)) == UsersOf(rows)
  {
    if rows != [] {
      var n := |rows| - 1;
      UpdateKeepsUsers(rows[..n], id, content, status);
      assert Update(rows, id, content, status)[..n] == Update(rows[..n], id, content, status);
    }
  }

  lemma {:induction false} UsersOfConcat(a: seq<Row>, b: seq<Row>)
    ensures UsersOf(a + b) == UsersOf(a) + UsersOf(b)
    decreases |b|
  {
    if b == [] {
      assert a + b == a;
    } else {
      var n := |b| - 1;
      assert (a + b)[..|a + b| - 1] == a + b[..n];
      UsersOfConcat(a, b[..n]);
    }
  }

  lemma {:induction false} UsersOfUserRows(ms: seq<Message>)
    ensures UsersOf(UserRows(ms)) == ms
  {
    if ms != [] {
      var n := |ms| - 1;
      UsersOfUserRows(ms[..n]);
      assert UserRows(ms)[..n] == UserRows(ms[..n]);
      assert ms == ms[..n] + [ms[n]];
    }
  }

  lemma CommittedUsers(rows: seq<Row>, current: Id, content: string, status: Status, ms: seq<Message>, next: Id)
    ensures UsersOf(Committed(rows, current, content, status, ms, next)) == UsersOf(rows) + ms
  {
    var updated := Update(rows, current, content, status);
    UpdateKeepsUsers(rows, current, content, status);
    UsersOfConcat(updated, UserRows(ms));
    UsersOfUserRows(ms);
    UsersOfConcat(updated + UserRows(ms), [Reply(next, "", Streaming)]);
    assert [Reply(next, "", Streaming)][..0] == [];
    assert UsersOf([Reply(next, "", Streaming)]) == [];
  }

  // ----- the stream -----

  /** How far the run is with its end: it decides on a status, and then writes it. */
  datatype Ending = Going | Decided(status: Status) | Written

  /** One running reply and its inbox.  The last four fields are history: the user messages from before,
      what was accepted, what was committed, and what a failed commit lost. */
  datatype Stream = Stream(
    inbox: Inbox, replies: Replies, stopped: bool, ending: Ending, commitFailed: bool,
    earlier: seq<Message>, accepted: seq<Message>, delivered: seq<Message>, dropped: seq<Message>)

  datatype Event =
    | Insert(m: Message)
    | Receive(delta: string)
    | Consume(finishIfEmpty: bool, interrupted: bool, nextId: Id, ok: bool)
    | StopFlag
    | StopSettle
    | RunDecides(ok: bool)
    | RunWrites
    | Snapshot

  function AfterConsume(s: Stream,
          strip: string -> string, finishIfEmpty: bool, interrupted: bool, next: Id, ok: bool): Stream {
    if s.stopped || s.commitFailed || s.replies.ended || !s.ending.Going? then s
    else
      var ms := s.inbox.pending;
      var inbox := Taken(s.inbox, finishIfEmpty);
      if ms == [] then s.(inbox := inbox)
      else if !ok || !KeysFree(s.replies.rows, ms, next) then
        s.(inbox := inbox, commitFailed := true, dropped := s.dropped + ms)
      else
        s.(inbox := Recorded(inbox, ms), delivered := s.delivered + ms,
           replies := Injected(s.replies, strip, if interrupted then Stopped else Complete, ms, next))
  }

  function After(s: Stream, strip: string -> string, e: Event): Stream {
    match e
    case Insert(m) =>
      s.(inbox := Enqueued(s.inbox, m), accepted := s.accepted + if Answer(s.inbox, m.id).Accepted? then [m] else [])
    case Receive(delta) => if s.ending.Going? then s.(replies := Extended(s.replies, delta)) else s
    case Consume(finishIfEmpty, interrupted, next, ok) => AfterConsume(s, strip, finishIfEmpty, interrupted, next, ok)
    case StopFlag => s.(stopped := true)
    case StopSettle => if s.stopped then s.(replies := Settle(s.replies, strip, Stopped)) else s
    case RunDecides(ok) =>
      if s.ending.Going? then s.(ending := Decided(if s.stopped then Stopped else if ok then Complete else Failed)) else s
    case RunWrites =>
      if s.ending.Decided? then s.(replies := Settle(s.replies, strip, s.ending.status), ending := Written) else s
    case Snapshot => s.(replies := Snapshotted(s.replies))
  }

  function Run(s: Stream, strip: string -> string, events: seq<Event>): Stream
    decreases |events|
  {
    if events == [] then s else After(Run(s, strip, events[..|events| - 1]), strip, events[|events| - 1])
  }

  /** No snapshot is written after the reply has been settled. */
  predicate Orderly(s: Stream, strip: string -> string, events: seq<Event>)
    decreases |events|
  {
    events == []
    || (var n := |events| - 1;
        && Orderly(s, strip, events[..n])
        && (events[n].Snapshot? ==> !Run(s, strip, events[..n]).replies.ended))
  }

  // ----- what every event keeps -----

  /** Closed means nothing is pending, and the signal says whether something is. */
  predicate InboxOk(i: Inbox) {
    (i.closed ==> i.pending == []) && (i.preemption <==> i.pending != [])
  }

  predicate DeliveryOk(s: Stream) {
    && s.accepted == s.delivered + s.dropped + s.inbox.pending
    && (s.dropped != [] <==> s.commitFailed)
    && s.inbox.committed == Elements(Ids(s.delivered))
    && UsersOf(s.replies.rows) == s.earlier + s.delivered
    && Distinct(Ids(s.delivered + s.inbox.pending))
  }

  predicate Inv(s: Stream, strip: string -> string) {
    (s.ending.Decided? ==> s.ending.status != Streaming) && InboxOk(s.inbox) && DeliveryOk(s) && RowsOk(s.replies) && TextOk(s.replies, strip)
  }

  /** A stream as it starts: stored rows, none of them streaming, and one empty reply. */
  predicate Starts(s: Stream) {
    && s.inbox == EMPTY_INBOX && !s.stopped && s.ending == Going && !s.replies.ended && !s.commitFailed
    && s.accepted == s.delivered == s.dropped == [] && UsersOf(s.replies.rows) == s.earlier
    && RowsOk(s.replies) && s.replies.content == "" && s.replies.received == map[s.replies.current := ""]
  }

  lemma IdsOfConcat(a: seq<Message>, b: seq<Message>)
    ensures Ids(a + b) == Ids(a) + Ids(b)
  {
  }

  lemma DistinctPart<T>(a: seq<T>, b: seq<T>)
    requires Distinct(a + b)
    ensures Distinct(a) && Distinct(b)
  {
    assert forall i :: 0 <= i < |a| ==> a[i] == (a + b)[i];
    assert forall i :: 0 <= i < |b| ==> b[i] == (a + b)[|a| + i];
  }

  lemma InsertDelivery(s: Stream, strip: string -> string, m: Message)
    requires DeliveryOk(s)
    ensures DeliveryOk(After(s, strip, Insert(m)))
  {
    hide UsersOf, Ids;
    if Answer(s.inbox, m.id).Accepted? {
      var before := s.delivered + s.inbox.pending;
      assert s.delivered + (s.inbox.pending + [m]) == before + [m];
      IdsOfConcat(before, [m]);
      IdsOfConcat(s.delivered, s.inbox.pending);
      assert m.id !in Elements(Ids(s.delivered));
      assert Ids([m]) == [m.id];
    }
  }

  lemma ConsumeDelivery(s: Stream, strip: string -> string, finishIfEmpty: bool, interrupted: bool, next: Id, ok: bool)
    requires DeliveryOk(s)
    ensures DeliveryOk(AfterConsume(s, strip, finishIfEmpty, interrupted, next, ok))
  {
    hide UsersOf, Ids, KeysFree, Committed, Distinct;
    var ms := s.inbox.pending;
    var s' := AfterConsume(s, strip, finishIfEmpty, interrupted, next, ok);
    IdsOfConcat(s.delivered, ms);
    DistinctPart(Ids(s.delivered), Ids(ms));
    assert s.delivered + [] == s.delivered && s.delivered + ms + [] == s.delivered + ms;
    if s'.delivered != s.delivered {
      CommittedUsers(s.replies.rows, s.replies.current, strip(s.replies.content), if interrupted then Stopped else Complete, ms, next);
      assert Elements(Ids(s.delivered) + Ids(ms)) == Elements(Ids(s.delivered)) + Elements(Ids(ms));
      assert s.dropped == [];
    }
  }

  lemma ConsumeReplies(s: Stream, strip: string -> string, finishIfEmpty: bool, interrupted: bool, next: Id, ok: bool)
    requires Inv(s, strip)
    ensures var s' := AfterConsume(s, strip, finishIfEmpty, interrupted, next, ok);
            RowsOk(s'.replies) && TextOk(s'.replies, strip)
  {
    hide RowsOk, TextOk, UsersOf, Ids, KeysFree, Distinct, Injected;
    var ms := s.inbox.pending;
    IdsOfConcat(s.delivered, ms);
    DistinctPart(Ids(s.delivered), Ids(ms));
    if !s.stopped && !s.commitFailed && !s.replies.ended && ms != [] && ok && KeysFree(s.replies.rows, ms, next) {
      InjectedRows(s.replies, strip, if interrupted then Stopped else Complete, ms, next);
      InjectedText(s.replies, strip, if interrupted then Stopped else Complete, ms, next);
    }
  }

  lemma ConsumeKeeps(s: Stream, strip: string -> string, finishIfEmpty: bool, interrupted: bool, next: Id, ok: bool)
    requires Inv(s, strip)
    ensures Inv(AfterConsume(s, strip, finishIfEmpty, interrupted, next, ok), strip)
  {
    hide RowsOk, TextOk, DeliveryOk;
    ConsumeDelivery(s, strip, finishIfEmpty, interrupted, next, ok);
    ConsumeReplies(s, strip, finishIfEmpty, interrupted, next, ok);
  }

  lemma SettleStreamKeeps(s: Stream, strip: string -> string, status: Status)
    requires Inv(s, strip) && status != Streaming
    ensures Inv(s.(replies := Settle(s.replies, strip, status)), strip)
  {
    hide RowsOk, TextOk, Update, UsersOf, Ids, Distinct;
    SettleRows(s.replies, strip, status);
    SettleText(s.replies, strip, status);
    UpdateKeepsUsers(s.replies.rows, s.replies.current, strip(s.replies.content), status);
  }

  lemma SnapshotStreamKeeps(s: Stream, strip: string -> string)
    requires Inv(s, strip) && !s.replies.ended
    ensures Inv(s.(replies := Snapshotted(s.replies)), strip)
  {
    hide RowsOk, TextOk, Update, UsersOf, Ids, Distinct;
    SnapshotRows(s.replies);
    SnapshotText(s.replies, strip);
    UpdateKeepsUsers(s.replies.rows, s.replies.current, s.replies.content, Streaming);
  }

  lemma StepKeeps(s: Stream, strip: string -> string, e: Event)
    requires Inv(s, strip) && (e.Snapshot? ==> !s.replies.ended)
    ensures Inv(After(s, strip, e), strip)
  {
    hide RowsOk, TextOk, UsersOf, Ids, Distinct, Settle, Snapshotted, AfterConsume;
    match e {
      case Insert(m) => InsertDelivery(s, strip, m);
      case Receive(delta) => ExtendedKeeps(s.replies, strip, delta);
      case Consume(finishIfEmpty, interrupted, next, ok) => ConsumeKeeps(s, strip, finishIfEmpty, interrupted, next, ok);
      case StopFlag =>
      case StopSettle =>
        if s.stopped {
          SettleStreamKeeps(s, strip, Stopped);
        }
      case RunDecides(ok) =>
      case RunWrites =>
        if s.ending.Decided? {
          SettleStreamKeeps(s, strip, s.ending.status);
        }
      case Snapshot => SnapshotStreamKeeps(s, strip);
    }
  }

  lemma StartKeeps(s: Stream, strip: string -> string)
    requires Starts(s)
    ensures Inv(s, strip)
  {
    hide UsersOf;
    assert RowIds(s.replies.rows)[|s.replies.rows| - 1] == s.replies.current;
    assert s.earlier + s.delivered == s.earlier;
  }

  lemma {:induction false} RunKeeps(s: Stream, strip: string -> string, events: seq<Event>)
    requires Starts(s) && Orderly(s, strip, events)
    ensures Inv(Run(s, strip, events), strip) && Run(s, strip, events).earlier == s.earlier
    decreases |events|
  {
    hide Inv, Starts;
    if events == [] {
      StartKeeps(s, strip);
    } else {
      var n := |events| - 1;
      RunKeeps(s, strip, events[..n]);
      StepKeeps(Run(s, strip, events[..n]), strip, events[n]);
    }
  }

  // ----- the theorems -----

  /** Over every run: what was accepted is what was committed to the history, then what a failed commit
      lost, then what is pending, in acceptance order; each id is delivered at most once; the user rows of
      the history are the earlier ones followed by exactly the delivered messages; and messages are lost
      exactly when a commit has failed. */
  lemma AcceptedIsDeliveredThenPending(s: Stream, strip: string -> string, events: seq<Event>)
    requires Starts(s) && Orderly(s, strip, events)
    ensures var t := Run(s, strip, events);
            && t.accepted == t.delivered + t.dropped + t.inbox.pending
            && (t.dropped == [] <==> !t.commitFailed)
            && Distinct(Ids(t.delivered + t.inbox.pending))
            && UsersOf(t.replies.rows) == s.earlier + t.delivered
  {
    hide Run, Starts, Orderly, Distinct, RowsOk, TextOk;
    RunKeeps(s, strip, events);
  }

  /** The preemption signal is up exactly while something is pending, and once the inbox is closed every
      accepted message has been delivered, unless a commit failed. */
  lemma ClosedAbandonsNothing(s: Stream, strip: string -> string, events: seq<Event>)
    requires Starts(s) && Orderly(s, strip, events)
    ensures var t := Run(s, strip, events);
            && (t.inbox.preemption <==> t.inbox.pending != [])
            && (t.inbox.closed ==> t.inbox.pending == [])
            && (t.inbox.closed && !t.commitFailed ==> t.accepted == t.delivered)
  {
    hide Run, Starts, Orderly, Distinct, RowsOk, TextOk;
    RunKeeps(s, strip, events);
    var t := Run(s, strip, events);
    assert t.delivered + [] + [] == t.delivered;
  }

  /** Closing is for good: whatever follows, nothing is accepted or pending again. */
  lemma {:induction false} ClosedStaysClosed(s: Stream, strip: string -> string, later: seq<Event>)
    requires InboxOk(s.inbox) && s.inbox.closed
    ensures var u := Run(s, strip, later);
            u.inbox.closed && u.inbox.pending == [] && u.accepted == s.accepted
    decreases |later|
  {
    if later != [] {
      var n := |later| - 1;
      ClosedStaysClosed(s, strip, later[..n]);
      ClosedStep(Run(s, strip, later[..n]), strip, later[n]);
    }
  }

  lemma ClosedStep(s: Stream, strip: string -> string, e: Event)
    requires s.inbox.closed && s.inbox.pending == []
    ensures var u := After(s, strip, e);
            u.inbox.closed && u.inbox.pending == [] && u.accepted == s.accepted
  {
    hide Settle, Snapshotted, Extended, KeysFree, Injected, Ids;
  }

  /** Until the reply ends the history has exactly one streaming reply, the last row, and it is the
      current one; afterwards it has none. */
  lemma OneStreamingReply(s: Stream, strip: string -> string, events: seq<Event>, i: nat)
    requires Starts(s) && Orderly(s, strip, events) && i < |Run(s, strip, events).replies.rows|
    ensures var r := Run(s, strip, events).replies;
            && r.rows[|r.rows| - 1].Reply? && r.rows[|r.rows| - 1].id == r.current
            && (r.rows[i].Reply? && r.rows[i].status == Streaming <==> i == |r.rows| - 1 && !r.ended)
  {
    hide Run, Starts, Orderly, Distinct, TextOk, DeliveryOk;
    RunKeeps(s, strip, events);
  }

  /** Every reply of the stream that is no longer current holds all the text it had itself received, and
      the current one, once the stream has ended, the text it had received when it was settled: never
      text of another reply. */
  lemma NeverAMixture(s: Stream, strip: string -> string, events: seq<Event>, i: nat)
    requires Starts(s) && Orderly(s, strip, events)
    requires var r := Run(s, strip, events).replies; i < |r.rows| && HasText(r, i) && (r.rows[i].id != r.current || r.ended)
    ensures var r := Run(s, strip, events).replies;
            var id := r.rows[i].id;
            && (id != r.current ==> r.rows[i].content == strip(r.received[id]))
            && (id == r.current ==> r.rows[i].content == strip(r.settled) && r.settled <= r.received[id])
  {
    hide Run, Starts, Orderly, Distinct, RowsOk, DeliveryOk;
    RunKeeps(s, strip, events);
  }

  /** Stopping settles the whole reply that is current at that moment, with every character it has
      received, and leaves all other rows alone. */
  lemma StopSettlesWholeReply(s: Stream, strip: string -> string, events: seq<Event>)
    requires Starts(s) && Orderly(s, strip, events) && Run(s, strip, events).stopped
    ensures var r := Run(s, strip, events).replies;
            var u := Run(s, strip, events + [StopSettle]).replies;
            && u.ended && r.current in r.received && |u.rows| == |r.rows| && |u.rows| > 0
            && u.rows == r.rows[..|r.rows| - 1] + [Reply(r.current, strip(r.received[r.current]), Stopped)]
  {
    hide Starts, Orderly, Distinct, DeliveryOk;
    RunKeeps(s, strip, events);
    assert (events + [StopSettle])[..|events + [StopSettle]| - 1] == events;
    StopRows(Run(s, strip, events).replies, strip);
  }

  lemma StopRows(r: Replies, strip: string -> string)
    requires RowsOk(r)
    ensures Settle(r, strip, Stopped).rows == r.rows[..|r.rows| - 1] + [Reply(r.current, strip(r.content), Stopped)]
  {
    hide Distinct, RowIds;
    forall i | 0 <= i < |r.rows| - 1 ensures RowId(r.rows[i]) != r.current {
      OnlyLastIsCurrent(r, i);
    }
  }

  /** And that comes about: stopped, settled, and then the snapshot of a running task is stored after all. */
  lemma SnapshotAfterStop(s: Stream, strip: string -> string)
    requires Starts(s)
    ensures var r := Run(s, strip, [StopFlag, StopSettle, Snapshot]).replies;
            && r.ended && r.rows != [] && r.rows[|r.rows| - 1] == Reply(r.current, r.content, Streaming)
            && !Orderly(s, strip, [StopFlag, StopSettle, Snapshot])
  {
    var flag, settle := s.(stopped := true), Settle(s.replies, strip, Stopped);
    assert [StopFlag, StopSettle, Snapshot][..2] == [StopFlag, StopSettle] && [StopFlag, StopSettle][..1] == [StopFlag];
    assert [StopFlag][..0] == [];
    hide RowsOk, Orderly;
    assert Run(s, strip, [StopFlag]) == flag;
    assert Run(s, strip, [StopFlag, StopSettle]) == flag.(replies := settle);
    SettledThenStored(s.replies, strip);
    NotOrderly(s, strip);
  }

  lemma SettledThenStored(r: Replies, strip: string -> string)
    requires RowsOk(r)
    ensures var t := Snapshotted(Settle(r, strip, Stopped));
            t.ended && t.rows != [] && t.rows[|t.rows| - 1] == Reply(t.current, t.content, Streaming)
  {
    hide Distinct, RowIds;
  }

  lemma NotOrderly(s: Stream, strip: string -> string)
    requires Run(s, strip, [StopFlag, StopSettle]).replies.ended
    ensures !Orderly(s, strip, [StopFlag, StopSettle, Snapshot])
  {
    assert [StopFlag, StopSettle, Snapshot][..2] == [StopFlag, StopSettle];
  }

  // ----- what a run leaves behind -----

  /** The run returns without an error only when it was stopped or has closed its inbox. */
  predicate Returns(s: Stream, strip: string -> string, events: seq<Event>)
    decreases |events|
  {
    events == []
    || (var n := |events| - 1;
        && Returns(s, strip, events[..n])
        && (events[n] == RunDecides(true) ==>
              var t := Run(s, strip, events[..n]); t.stopped || t.inbox.closed))
  }

  predicate Fails(events: seq<Event>) {
    RunDecides(false) in events
  }

  /** A reply has ended by a stop, by a failure, or behind a closed inbox; and nothing is lost before that
      is closed. */
  predicate EndsOk(t: Stream, failed: bool) {
    && (t.commitFailed ==> !t.inbox.closed)
    && (t.replies.ended ==> t.stopped || t.ending == Written)
    && (!t.ending.Going? ==> t.stopped || t.inbox.closed || failed)
  }

  lemma EndsStep(s: Stream, strip: string -> string, e: Event, failed: bool)
    requires InboxOk(s.inbox) && EndsOk(s, failed) && (e == RunDecides(true) ==> s.stopped || s.inbox.closed)
    ensures EndsOk(After(s, strip, e), failed || e == RunDecides(false))
  {
    hide KeysFree, Ids, Update, Committed;
  }

  lemma {:induction false} RunEndsOk(s: Stream, strip: string -> string, events: seq<Event>)
    requires Starts(s) && Orderly(s, strip, events) && Returns(s, strip, events)
    ensures EndsOk(Run(s, strip, events), Fails(events))
    decreases |events|
  {
    hide Starts, Orderly, InboxOk, EndsOk, DeliveryOk, RowsOk, TextOk, After;
    if events == [] {
      EndsAtStart(s);
    } else {
      var n := |events| - 1;
      OrderlyPart(s, strip, events);
      RunEndsOk(s, strip, events[..n]);
      RunKeeps(s, strip, events[..n]);
      EndsStep(Run(s, strip, events[..n]), strip, events[n], Fails(events[..n]));
      assert events == events[..n] + [events[n]];
    }
  }

  lemma EndsAtStart(s: Stream)
    requires Starts(s)
    ensures EndsOk(s, false)
  {
  }

  lemma OrderlyPart(s: Stream, strip: string -> string, events: seq<Event>)
    requires Orderly(s, strip, events) && events != []
    ensures Orderly(s, strip, events[..|events| - 1])
  {
  }

  /** Accepted messages are abandoned exactly when some are pending or a commit has lost some; once the reply
      has ended that takes a stop or a failed run. */
  lemma AbandonedOnlyByStopOrFailure(s: Stream, strip: string -> string, events: seq<Event>)
    requires Starts(s) && Orderly(s, strip, events) && Returns(s, strip, events)
    ensures var t := Run(s, strip, events);
            && (t.accepted != t.delivered <==> t.inbox.pending != [] || t.commitFailed)
            && (t.replies.ended && t.accepted != t.delivered ==> t.stopped || Fails(events))
  {
    hide Run, Starts, Orderly, Returns, Distinct, RowsOk, TextOk;
    RunKeeps(s, strip, events);
    RunEndsOk(s, strip, events);
    var t := Run(s, strip, events);
    assert t.accepted == t.delivered + (t.dropped + t.inbox.pending);
    assert t.delivered + [] + [] == t.delivered;
    assert |t.accepted| == |t.delivered| + |t.dropped| + |t.inbox.pending|;
  }

  lemma {:induction false} InOrder(s: Stream, strip: string -> string, events: seq<Event>)
    requires forall e <- events :: !e.Snapshot? && e != RunDecides(true)
    ensures Orderly(s, strip, events) && Returns(s, strip, events)
  {
    if events != [] {
      InOrder(s, strip, events[..|events| - 1]);
    }
  }

  // ----- stopping while the run ends -----

  predicate StoppedForGood(t: Stream) {
    && t.stopped && t.replies.ended && (t.ending.Decided? ==> t.ending.status == Stopped)
    && t.replies.rows != [] && LastStatus(t.replies) == Stopped
  }

  function LastStatus(r: Replies): Status
    requires r.rows != []
  {
    var last := r.rows[|r.rows| - 1];
    if last.Reply? then last.status else Complete
  }

  lemma SettledStatus(r: Replies, strip: string -> string, status: Status)
    requires RowsOk(r)
    ensures Settle(r, strip, status).rows != [] && LastStatus(Settle(r, strip, status)) == status
  {
    hide Distinct, RowIds;
  }

  lemma StoppedStep(s: Stream, strip: string -> string, e: Event)
    requires StoppedForGood(s) && RowsOk(s.replies) && !e.Snapshot?
    ensures StoppedForGood(After(s, strip, e))
  {
    hide RowsOk, Settle, Update, Enqueued, Answer;
    SettledStatus(s.replies, strip, Stopped);
    assert Settle(s.replies, strip, Stopped).ended by { SettleEnds(s.replies, strip); }
  }

  lemma SettleEnds(r: Replies, strip: string -> string)
    ensures Settle(r, strip, Stopped).ended
  {
  }

  lemma {:induction false} StaysStopped(s: Stream, strip: string -> string, events: seq<Event>, later: seq<Event>)
    requires Starts(s) && Orderly(s, strip, events + later) && StoppedForGood(Run(s, strip, events))
    ensures StoppedForGood(Run(s, strip, events + later))
    decreases |later|
  {
    hide Starts, StoppedForGood, After, RowsOk, TextOk, DeliveryOk;
    if later == [] {
      assert events + later == events;
    } else {
      var n := |later| - 1;
      var all := events + later;
      assert all[..|all| - 1] == events + later[..n] && all[|all| - 1] == later[n];
      StaysStopped(s, strip, events, later[..n]);
      RunKeeps(s, strip, events + later[..n]);
      assert Run(s, strip, events + later[..n]).replies.ended by { EndedOnceStopped(Run(s, strip, events + later[..n])); }
      StoppedStep(Run(s, strip, events + later[..n]), strip, later[n]);
    }
  }

  lemma EndedOnceStopped(t: Stream)
    requires StoppedForGood(t)
    ensures t.replies.ended
  {
  }

  ghost predicate StopHolds(s: Stream, strip: string -> string, events: seq<Event>) {
    forall later :: Orderly(s, strip, events + later) ==> StoppedForGood(Run(s, strip, events + later))
  }

  /** Whatever follows, a reply that a stop has settled stays stopped, exactly when the run had not yet decided
      on another status: it reads the flag and writes the status without a common lock. */
  lemma StopHoldsIff(s: Stream, strip: string -> string, events: seq<Event>)
    requires Starts(s) && Orderly(s, strip, events) && Run(s, strip, events).stopped
    ensures StopHolds(s, strip, events + [StopSettle]) <==>
            var ending := Run(s, strip, events).ending; ending.Decided? ==> ending.status == Stopped
  {
    hide Starts, TextOk, DeliveryOk, RowsOk, Settle, Distinct;
    var settled := events + [StopSettle];
    assert settled[..|settled| - 1] == events;
    RunKeeps(s, strip, events);
    var t := Run(s, strip, events);
    SettledStatus(t.replies, strip, Stopped);
    SettleEnds(t.replies, strip);
    if t.ending.Decided? && t.ending.status != Stopped {
      var all := settled + [RunWrites];
      assert all[..|all| - 1] == settled;
      RunKeeps(s, strip, settled);
      SettledStatus(Run(s, strip, settled).replies, strip, t.ending.status);
      assert Orderly(s, strip, settled + [RunWrites]) && !StoppedForGood(Run(s, strip, settled + [RunWrites]));
    } else {
      forall later | Orderly(s, strip, settled + later) ensures StoppedForGood(Run(s, strip, settled + later)) {
        StaysStopped(s, strip, settled, later);
      }
    }
  }

  lemma RunThen(s: Stream, strip: string -> string, events: seq<Event>, e: Event)
    ensures Run(s, strip, events + [e]) == After(Run(s, strip, events), strip, e)
    ensures Orderly(s, strip, events) && !e.Snapshot? ==> Orderly(s, strip, events + [e])
    ensures Returns(s, strip, events) && (e == RunDecides(true) ==> Run(s, strip, events).inbox.closed) ==>
              Returns(s, strip, events + [e])
  {
    assert (events + [e])[..|events|] == events;
  }

  /** And a stop, or a failed run, does abandon what is pending. */
  lemma StopAbandons(s: Stream, strip: string -> string, m: Message, stop: bool)
    requires Starts(s)
    ensures var events := [] + [Insert(m)] + [if stop then StopFlag else RunDecides(false)] + [if stop then StopSettle else RunWrites];
            var t := Run(s, strip, events);
            && Orderly(s, strip, events) && Returns(s, strip, events) && t.replies.ended && t.accepted == [m] == t.inbox.pending
            && t.delivered == []
  {
    var second, third := if stop then StopFlag else RunDecides(false), if stop then StopSettle else RunWrites;
    InOrder(s, strip, [] + [Insert(m)] + [second] + [third]);
    RunThen(s, strip, [], Insert(m));
    RunThen(s, strip, [] + [Insert(m)], second);
    RunThen(s, strip, [] + [Insert(m)] + [second], third);
    hide Run, RowsOk, Update, Orderly, Returns, UsersOf;
  }

  /** So a reply can be stored as complete after it was stopped. */
  lemma CompleteOverStopped(s: Stream, strip: string -> string, next: Id) returns (events: seq<Event>)
    requires Starts(s)
    ensures Orderly(s, strip, events) && Returns(s, strip, events) && StopSettle in events
    ensures var t := Run(s, strip, events);
            t.stopped && t.ending == Written && t.replies.rows != [] && LastStatus(t.replies) == Complete
  {
    var closing := Consume(true, false, next, true);
    events := [] + [closing] + [RunDecides(true)] + [StopFlag] + [StopSettle];
    RunThen(s, strip, [], closing);
    RunThen(s, strip, [] + [closing], RunDecides(true));
    RunThen(s, strip, [] + [closing] + [RunDecides(true)], StopFlag);
    RunThen(s, strip, [] + [closing] + [RunDecides(true)] + [StopFlag], StopSettle);
    RunThen(s, strip, events, RunWrites);
    hide Run, Orderly, Returns, RowsOk, Settle;
    SettledRows(s.replies, strip);
    events := events + [RunWrites];
  }

  lemma SettledRows(r: Replies, strip: string -> string)
    requires RowsOk(r)
    ensures var u := Settle(Settle(r, strip, Stopped), strip, Complete); u.rows != [] && LastStatus(u) == Complete
  {
    SettleRows(r, strip, Stopped);
    SettledStatus(Settle(r, strip, Stopped), strip, Complete);
  }

  // ----- what is received, delivered and lost -----

  /** What an event adds to the text of a reply: a delta that comes in while it is the current one and the run
      has not decided on its end. */
  function MoreFor(t: Stream, e: Event, id: Id): string {
    match e
    case Receive(delta) => if t.replies.current == id && t.ending.Going? then delta else ""
    case _ => ""
  }

  /** The text received for a reply. */
  function Heard(s: Stream, strip: string -> string, events: seq<Event>, id: Id): string
    decreases |events|
  {
    if events == [] then ""
    else
      var n := |events| - 1;
      var t := Run(s, strip, events[..n]);
      Heard(s, strip, events[..n], id) + MoreFor(t, events[n], id)
  }

  lemma StepHears(s: Stream, strip: string -> string, e: Event, id: Id)
    requires TextOk(s.replies, strip) && id in s.replies.received
    ensures id in After(s, strip, e).replies.received
    ensures !(e.Consume? && e.nextId == id) ==>
              After(s, strip, e).replies.received[id] == s.replies.received[id] + MoreFor(s, e, id)
  {
    hide RowIds, Ids, KeysFree, Committed, Update;
    assert s.replies.received[id] + "" == s.replies.received[id];
  }

  lemma FreeIsNew(rows: seq<Row>, ms: seq<Message>, next: Id)
    requires KeysFree(rows, ms, next)
    ensures next !in RowIds(rows)
  {
    assert next in Ids(ms) + [next];
  }

  lemma NewReplyHearsNothing(s: Stream, strip: string -> string, e: Event)
    requires Inv(s, strip) && e.Consume? && e.nextId in After(s, strip, e).replies.received
    ensures if e.nextId in s.replies.received then After(s, strip, e).replies.received == s.replies.received
            else After(s, strip, e).replies.received[e.nextId] == ""
  {
    if KeysFree(s.replies.rows, s.inbox.pending, e.nextId) {
      FreeIsNew(s.replies.rows, s.inbox.pending, e.nextId);
    }
    hide RowsOk, DeliveryOk, Ids, Committed, Update, KeysFree, RowIds;
  }

  lemma HeardThen(s: Stream, strip: string -> string, events: seq<Event>, id: Id)
    requires events != []
    ensures var n := |events| - 1; var t := Run(s, strip, events[..n]);
            && Run(s, strip, events) == After(t, strip, events[n])
            && Heard(s, strip, events, id) == Heard(s, strip, events[..n], id) + MoreFor(t, events[n], id)
            && (Orderly(s, strip, events) ==> Orderly(s, strip, events[..n]))
  {
  }

  lemma HeardBeforeItsTime(s: Stream, strip: string -> string, events: seq<Event>, id: Id)
    requires Starts(s) && Orderly(s, strip, events) && id !in Run(s, strip, events).replies.received
    ensures Heard(s, strip, events, id) == ""
    decreases |events|
  {
    hide Starts, Inv, After;
    if events != [] {
      var n := |events| - 1;
      var t := Run(s, strip, events[..n]);
      RunKeeps(s, strip, events[..n]);
      CurrentIsReceived(t, strip);
      if id in t.replies.received {
        StepHears(t, strip, events[n], id);
      } else {
        HeardBeforeItsTime(s, strip, events[..n], id);
      }
    }
  }

  lemma CurrentIsReceived(t: Stream, strip: string -> string)
    requires Inv(t, strip)
    ensures t.replies.current in t.replies.received && TextOk(t.replies, strip)
  {
  }

  /** Over every run the text kept for a reply is all that was received for it, in order. */
  lemma {:induction false} ReceivedIsHeard(s: Stream, strip: string -> string, events: seq<Event>, id: Id)
    requires Starts(s) && Orderly(s, strip, events) && id in Run(s, strip, events).replies.received
    ensures Run(s, strip, events).replies.received[id] == Heard(s, strip, events, id)
    decreases |events|
  {
    if events == [] {
      assert Run(s, strip, []) == s && Heard(s, strip, [], id) == "";
    } else {
      var n := |events| - 1;
      var t := Run(s, strip, events[..n]);
      HeardThen(s, strip, events, id);
      RunKeeps(s, strip, events[..n]);
      hide *;
      CurrentIsReceived(t, strip);
      if id in t.replies.received {
        ReceivedIsHeard(s, strip, events[..n], id);
        StepHears(t, strip, events[n], id);
        if events[n].Consume? && events[n].nextId == id {
          NewReplyHearsNothing(t, strip, events[n]);
          ConsumeAddsNothing(t, events[n], id, t.replies.received[id]);
        }
      } else {
        HeardBeforeItsTime(s, strip, events[..n], id);
        OnlyConsumeMakes(t, strip, events[n], id);
        NewReplyHearsNothing(t, strip, events[n]);
        ConsumeAddsNothing(t, events[n], id, "");
      }
    }
  }

  lemma ConsumeAddsNothing(t: Stream, e: Event, id: Id, text: string)
    requires e.Consume?
    ensures text + MoreFor(t, e, id) == text
  {
  }

  lemma OnlyConsumeMakes(s: Stream, strip: string -> string, e: Event, id: Id)
    requires id !in s.replies.received && id in After(s, strip, e).replies.received
    ensures e.Consume? && e.nextId == id
  {
    hide Update, Committed, KeysFree, Ids;
  }

  /** The messages that wait are taken, and committed behind the reply so far. */
  predicate Delivers(t: Stream, u: Stream, strip: string -> string, interrupted: bool, next: Id) {
    && u.inbox.pending == [] && u.delivered == t.delivered + t.inbox.pending && u.dropped == t.dropped
    && u.replies.current == next && u.replies.content == "" && t.replies.rows != []
    && u.replies.rows == t.replies.rows[..|t.replies.rows| - 1]
                         + [Reply(t.replies.current, strip(t.replies.content), if interrupted then Stopped else Complete)]
                         + UserRows(t.inbox.pending) + [Reply(next, "", Streaming)]
  }

  /** While the run goes on the messages that wait are all committed, under new ids, or all lost with the commit;
      once it was stopped, has failed or has decided on its end they are left alone. */
  predicate TakenAs(t: Stream, u: Stream, strip: string -> string, finishIfEmpty: bool, interrupted: bool, next: Id, ok: bool) {
    if t.stopped || t.commitFailed || t.replies.ended || !t.ending.Going? then u == t
    else if t.inbox.pending == [] then
      u == t.(inbox := u.inbox) && u.inbox.pending == [] && u.inbox.closed == (t.inbox.closed || finishIfEmpty)
    else if ok && next !in RowIds(t.replies.rows) && next !in Ids(t.inbox.pending)
            && (forall m <- t.inbox.pending :: m.id !in RowIds(t.replies.rows)) then
      Delivers(t, u, strip, interrupted, next)
    else
      && u.commitFailed && u.inbox.pending == [] && u.dropped == t.dropped + t.inbox.pending
      && u.delivered == t.delivered && u.replies == t.replies
  }

  lemma ConsumeTakes(t: Stream, strip: string -> string, finishIfEmpty: bool, interrupted: bool, next: Id, ok: bool)
    requires RowsOk(t.replies)
    ensures TakenAs(t, AfterConsume(t, strip, finishIfEmpty, interrupted, next, ok), strip, finishIfEmpty, interrupted, next, ok)
  {
    KeysAreFree(t.replies.rows, t.inbox.pending, next);
    SettledRowsAre(t.replies, strip(t.replies.content), if interrupted then Stopped else Complete);
    NotEmpty(t.replies);
    hide RowsOk, KeysFree, Update, RowIds, Ids, UserRows;
  }

  lemma NotEmpty(r: Replies)
    requires RowsOk(r)
    ensures r.rows != []
  {
  }

  /** What becomes of them, in any run. */
  lemma TakingDelivers(s: Stream, strip: string -> string, events: seq<Event>, finishIfEmpty: bool, interrupted: bool, next: Id, ok: bool)
    requires Starts(s) && Orderly(s, strip, events)
    ensures TakenAs(Run(s, strip, events), Run(s, strip, events + [Consume(finishIfEmpty, interrupted, next, ok)]),
                    strip, finishIfEmpty, interrupted, next, ok)
  {
    RunThen(s, strip, events, Consume(finishIfEmpty, interrupted, next, ok));
    RunKeeps(s, strip, events);
    hide Run, Starts, Orderly, DeliveryOk, RowsOk, TextOk, TakenAs, AfterConsume;
    ConsumeTakes(Run(s, strip, events), strip, finishIfEmpty, interrupted, next, ok);
  }

  lemma KeysAreFree(rows: seq<Row>, ms: seq<Message>, next: Id)
    ensures KeysFree(rows, ms, next) <==>
            next !in RowIds(rows) && next !in Ids(ms) && forall m <- ms :: m.id !in RowIds(rows)
  {
    assert forall id :: id in Ids(ms) + [next] <==> id in Ids(ms) || id == next;
    forall id ensures id in Ids(ms) <==> exists m <- ms :: m.id == id {
      PendingIds(ms, id);
    }
  }

  lemma SettledRowsAre(r: Replies, content: string, status: Status)
    requires RowsOk(r)
    ensures Update(r.rows, r.current, content, status) == r.rows[..|r.rows| - 1] + [Reply(r.current, content, status)]
  {
    hide Distinct, RowIds;
    forall i | 0 <= i < |r.rows| - 1 ensures RowId(r.rows[i]) != r.current {
      OnlyLastIsCurrent(r, i);
    }
  }
}
