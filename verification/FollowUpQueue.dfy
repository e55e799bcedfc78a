/** Queued follow-up messages and the drain that sends them one turn at a time once their
    session is done. */
module FollowUpQueue {
  import opened Seqs
  import opened Wrappers

  type SessionId = string

  datatype EntryStatus = Queued | NotStarted | Withdrawn

  datatype Entry = Entry(id: nat, session: SessionId, text: string, status: EntryStatus, createdAt: int)

  datatype SessionStatus = Created | Running | NeedUser | Done | Failed | Cancelled

  /** What became of an attempt to send: refused before the entry was deleted, or a turn that
      ran and, if it failed while current, marked the rest of the queue. */
  datatype Send = Refused | Ran(failed: bool)

  /** One round of the drain: the status the session list reports, and the attempt made. */
  datatype Round = Round(status: Option<SessionStatus>, send: Send)

  // ---------- the queue ----------

  predicate Before(a: Entry, b: Entry) {
    a.createdAt < b.createdAt || (a.createdAt == b.createdAt && a.id < b.id)
  }

  ghost predicate Sorted(queue: seq<Entry>) {
    forall i, j :: 0 <= i < j < |queue| ==> Before(queue[i], queue[j])
  }

  ghost predicate UniqueIds(queue: seq<Entry>) {
    forall i, j :: 0 <= i < j < |queue| ==> queue[i].id != queue[j].id
  }

  predicate IsWaiting(e: Entry, session: SessionId) {
    e.session == session && e.status == Queued
  }

  function WaitingFor(session: SessionId): (r: Entry -> bool) {
    e => IsWaiting(e, session)
  }

  function Waiting(queue: seq<Entry>, session: SessionId): (r: seq<Entry>) {
    Filter(WaitingFor(session), queue)
  }

  function Outside(ids: set<nat>): (r: Entry -> bool) {
    (e: Entry) => e.id !in ids
  }

  function Without(queue: seq<Entry>, ids: set<nat>): (r: seq<Entry>) {
    Filter(Outside(ids), queue)
  }

  function MarkEntry(e: Entry, session: SessionId): (r: Entry) {
    if IsWaiting(e, session) then e.(status := NotStarted) else e
  }

  function MarkNotStarted(queue: seq<Entry>, session: SessionId): (r: seq<Entry>) {
    if queue == [] then [] else [MarkEntry(queue[0], session)] + MarkNotStarted(queue[1..], session)
  }

  function Ids(entries: seq<Entry>): (r: set<nat>) {
    set e | e in entries :: e.id
  }

  // ---------- the drain ----------

  datatype Drained = Drained(queue: seq<Entry>, sent: seq<Entry>)

  lemma {:induction false} WithoutShrinks(queue: seq<Entry>, session: SessionId, ids: set<nat>)
    ensures |Waiting(Without(queue, ids), session)| <= |Waiting(queue, session)|
    ensures (exists e :: e in Waiting(queue, session) && e.id in ids) ==>
      |Waiting(Without(queue, ids), session)| < |Waiting(queue, session)|
  {
    if queue != [] {
      WithoutShrinks(queue[1..], session, ids);
      var rest := Without(queue[1..], ids);
      if queue[0].id !in ids {
        assert Without(queue, ids)[0] == queue[0] && Without(queue, ids)[1..] == rest;
      } else {
        assert Without(queue, ids) == rest;
      }
    }
  }

  lemma {:induction false} MarkEmpties(queue: seq<Entry>, session: SessionId)
    ensures Waiting(MarkNotStarted(queue, session), session) == []
  {
    if queue != [] {
      MarkEmpties(queue[1..], session);
      var marked := MarkNotStarted(queue, session);
      assert marked[1..] == MarkNotStarted(queue[1..], session);
    }
  }

  function AfterTurn(queue: seq<Entry>, session: SessionId, id: nat, failed: bool): (r: seq<Entry>) {
    var deleted := Without(queue, {id});
    if failed then MarkNotStarted(deleted, session) else deleted
  }

  lemma AfterTurnShrinks(queue: seq<Entry>, session: SessionId, failed: bool)
    requires Waiting(queue, session) != []
    ensures var next := Waiting(queue, session)[0];
            |Waiting(AfterTurn(queue, session, next.id, failed), session)| < |Waiting(queue, session)|
  {
    var next := Waiting(queue, session)[0];
    assert next in Waiting(queue, session);
    WithoutShrinks(queue, session, {next.id});
    MarkEmpties(Without(queue, {next.id}), session);
  }

  /** Draining from round `k` on. It stops when the session is waiting or running again, when
      it is anything else but done (then the rest is marked), when nothing waits, or when an
      attempt is refused. */
  function Drain(queue: seq<Entry>, session: SessionId, rounds: nat -> Round, k: nat): (r: Drained)
    decreases |Waiting(queue, session)|
  {
    var status := rounds(k).status;
    var waiting := Waiting(queue, session);
    if status == Some(NeedUser) || status == Some(Running) then Drained(queue, [])
    else if status != Some(Done) then Drained(MarkNotStarted(queue, session), [])
    else if waiting == [] || rounds(k).send.Refused? then Drained(queue, [])
    else
      AfterTurnShrinks(queue, session, rounds(k).send.failed);
      var rest := Drain(AfterTurn(queue, session, waiting[0].id, rounds(k).send.failed), session, rounds, k + 1);
      Drained(rest.queue, [waiting[0]] + rest.sent)
  }

  // ---------- what the drain promises ----------

  lemma {:induction false} WithoutTwice(queue: seq<Entry>, a: set<nat>, b: set<nat>)
    ensures Without(Without(queue, a), b) == Without(queue, a + b)
  {
    if queue != [] {
      WithoutTwice(queue[1..], a, b);
      var rest := Without(queue[1..], a);
      if queue[0].id !in a {
        assert Without(queue, a)[0] == queue[0] && Without(queue, a)[1..] == rest;
      } else {
        assert Without(queue, a) == rest;
      }
    }
  }

  lemma {:induction false} MarkCommutes(queue: seq<Entry>, session: SessionId, ids: set<nat>)
    ensures MarkNotStarted(Without(queue, ids), session) == Without(MarkNotStarted(queue, session), ids)
  {
    if queue != [] {
      MarkCommutes(queue[1..], session, ids);
      var marked := MarkNotStarted(queue, session);
      assert marked[0].id == queue[0].id && marked[1..] == MarkNotStarted(queue[1..], session);
      var rest := Without(queue[1..], ids);
      if queue[0].id !in ids {
        assert Without(queue, ids)[0] == queue[0] && Without(queue, ids)[1..] == rest;
      } else {
        assert Without(queue, ids) == rest;
      }
    }
  }

  lemma {:induction false} MarkTwice(queue: seq<Entry>, session: SessionId)
    ensures MarkNotStarted(MarkNotStarted(queue, session), session) == MarkNotStarted(queue, session)
  {
    if queue != [] {
      MarkTwice(queue[1..], session);
      var marked := MarkNotStarted(queue, session);
      assert marked[0] == MarkEntry(queue[0], session) && marked[1..] == MarkNotStarted(queue[1..], session);
    }
  }

  lemma DeleteHead(queue: seq<Entry>, session: SessionId)
    requires UniqueIds(queue) && queue != [] && IsWaiting(queue[0], session)
    ensures Without(queue, {queue[0].id}) == queue[1..]
  {
    assert forall e :: e in queue[1..] ==> e.id != queue[0].id;
    FilterAll(Outside({queue[0].id}), queue[1..]);
  }

  lemma WaitingIsLater(queue: seq<Entry>, session: SessionId)
    requires UniqueIds(queue) && queue != [] && Waiting(queue[1..], session) != []
    ensures queue[0].id != Waiting(queue[1..], session)[0].id
  {
    FilterMembers(WaitingFor(session), queue[1..]);
    assert Waiting(queue[1..], session)[0] in queue[1..];
  }

  /** Deleting the first waiting entry leaves exactly the others waiting. */
  lemma {:induction false} DeleteFirst(queue: seq<Entry>, session: SessionId)
    requires UniqueIds(queue) && Waiting(queue, session) != []
    ensures Waiting(Without(queue, {Waiting(queue, session)[0].id}), session) == Waiting(queue, session)[1..]
  {
    if IsWaiting(queue[0], session) {
      DeleteHead(queue, session);
      assert Waiting(queue, session)[1..] == Waiting(queue[1..], session);
    } else {
      assert Waiting(queue, session) == Waiting(queue[1..], session);
      assert UniqueIds(queue[1..]);
      WaitingIsLater(queue, session);
      DeleteFirst(queue[1..], session);
      var id := Waiting(queue, session)[0].id;
      assert Without(queue, {id})[0] == queue[0] && Without(queue, {id})[1..] == Without(queue[1..], {id});
    }
  }

  lemma {:induction false} FilterKeepsUnique(keep: Entry -> bool, queue: seq<Entry>)
    requires UniqueIds(queue)
    ensures UniqueIds(Filter(keep, queue))
  {
    if queue != [] {
      assert UniqueIds(queue[1..]);
      FilterKeepsUnique(keep, queue[1..]);
      FilterMembers(keep, queue[1..]);
      var rest := Filter(keep, queue[1..]);
      assert forall e :: e in queue[1..] ==> e.id != queue[0].id;
      assert forall i :: 0 <= i < |rest| ==> rest[i] in queue[1..];
    }
  }

  lemma {:induction false} MarkShape(queue: seq<Entry>, session: SessionId)
    ensures |MarkNotStarted(queue, session)| == |queue|
    ensures forall i :: 0 <= i < |queue| ==> MarkNotStarted(queue, session)[i] == MarkEntry(queue[i], session)
  {
    if queue != [] {
      MarkShape(queue[1..], session);
    }
  }

  /** Marking turns exactly the queued entries of the session into not-started ones, in place. */
  lemma MarkExactly(queue: seq<Entry>, session: SessionId)
    ensures |MarkNotStarted(queue, session)| == |queue|
    ensures forall i :: 0 <= i < |queue| ==>
      MarkNotStarted(queue, session)[i]
      == if queue[i].session == session && queue[i].status == Queued then queue[i].(status := NotStarted) else queue[i]
  {
    MarkShape(queue, session);
  }

  lemma MarkKeepsUnique(queue: seq<Entry>, session: SessionId)
    requires UniqueIds(queue)
    ensures UniqueIds(MarkNotStarted(queue, session))
  {
    MarkShape(queue, session);
  }

  /** The session list called the session neither done nor still going. */
  predicate Halts(round: Round) {
    round.status != Some(Done) && round.status != Some(NeedUser) && round.status != Some(Running)
  }

  /** The rest of the queue was marked: a turn failed, or the last status halted the drain. */
  predicate Marked(rounds: nat -> Round, k: nat, n: nat)
    decreases n
  {
    if n == 0 then Halts(rounds(k))
    else (rounds(k).send.Ran? && rounds(k).send.failed) || Marked(rounds, k + 1, n - 1)
  }

  /** Every one of the `n` sends was made on a session reported done, and no turn but the last
      failed by itself. */
  predicate AllSent(rounds: nat -> Round, k: nat, n: nat)
    decreases n
  {
    n == 0 || (&& rounds(k).status == Some(Done) && rounds(k).send.Ran?
               && (n > 1 ==> !rounds(k).send.failed)
               && AllSent(rounds, k + 1, n - 1))
  }

  lemma NextWaiting(queue: seq<Entry>, session: SessionId, failed: bool)
    requires UniqueIds(queue) && Waiting(queue, session) != []
    ensures var next := AfterTurn(queue, session, Waiting(queue, session)[0].id, failed);
            && UniqueIds(next)
            && Waiting(next, session) == (if failed then [] else Waiting(queue, session)[1..])
  {
    var id := Waiting(queue, session)[0].id;
    FilterKeepsUnique(Outside({id}), queue);
    MarkKeepsUnique(Without(queue, {id}), session);
    MarkEmpties(Without(queue, {id}), session);
    DeleteFirst(queue, session);
  }

  lemma {:induction false} DrainPrefix(queue: seq<Entry>, session: SessionId, rounds: nat -> Round, k: nat)
    requires UniqueIds(queue)
    ensures Drain(queue, session, rounds, k).sent <= Waiting(queue, session)
    ensures AllSent(rounds, k, |Drain(queue, session, rounds, k).sent|)
    decreases |Waiting(queue, session)|
  {
    if Drain(queue, session, rounds, k).sent != [] {
      var waiting := Waiting(queue, session);
      var failed := rounds(k).send.failed;
      var next := AfterTurn(queue, session, waiting[0].id, failed);
      NextWaiting(queue, session, failed);
      DrainPrefix(next, session, rounds, k + 1);
      var rest := Drain(next, session, rounds, k + 1);
      assert ([waiting[0]] + rest.sent)[1..] == rest.sent;
      assert waiting == [waiting[0]] + waiting[1..];
    }
  }

  lemma {:induction false} DrainStops(queue: seq<Entry>, session: SessionId, rounds: nat -> Round, k: nat)
    requires UniqueIds(queue)
    ensures var n := |Drain(queue, session, rounds, k).sent|;
            n < |Waiting(queue, session)| ==>
              Marked(rounds, k, n) || rounds(k + n).status != Some(Done) || rounds(k + n).send.Refused?
    decreases |Waiting(queue, session)|
  {
    if Drain(queue, session, rounds, k).sent != [] {
      DrainRound(queue, session, rounds, k);
      var failed := rounds(k).send.failed;
      var next := AfterTurn(queue, session, Waiting(queue, session)[0].id, failed);
      NextWaiting(queue, session, failed);
      DrainStops(next, session, rounds, k + 1);
      assert (k + 1) + |Drain(next, session, rounds, k + 1).sent| == k + |Drain(queue, session, rounds, k).sent|;
    }
  }

  function Left(queue: seq<Entry>, session: SessionId, sent: seq<Entry>, marked: bool): (r: seq<Entry>) {
    if marked then MarkNotStarted(Without(queue, Ids(sent)), session) else Without(queue, Ids(sent))
  }

  lemma LeftAll(queue: seq<Entry>, session: SessionId)
    ensures Left(queue, session, [], false) == queue
    ensures Left(queue, session, [], true) == MarkNotStarted(queue, session)
  {
    FilterAll(Outside({}), queue);
    assert Ids([]) == {};
  }

  lemma LeftStep(queue: seq<Entry>, session: SessionId, first: Entry, rest: seq<Entry>, failed: bool, marked: bool)
    ensures Left(AfterTurn(queue, session, first.id, failed), session, rest, marked)
            == Left(queue, session, [first] + rest, failed || marked)
  {
    var deleted := Without(queue, {first.id});
    assert Ids([first] + rest) == {first.id} + Ids(rest);
    WithoutTwice(queue, {first.id}, Ids(rest));
    if failed {
      MarkCommutes(deleted, session, Ids(rest));
      MarkTwice(Without(deleted, Ids(rest)), session);
    }
  }

  lemma DrainNothing(queue: seq<Entry>, session: SessionId, rounds: nat -> Round, k: nat)
    requires Drain(queue, session, rounds, k).sent == []
    ensures Drain(queue, session, rounds, k).queue == Left(queue, session, [], Marked(rounds, k, 0))
  {
    LeftAll(queue, session);
  }

  /** The first round of a drain that sends something, and the rest of it. */
  lemma DrainRound(queue: seq<Entry>, session: SessionId, rounds: nat -> Round, k: nat)
    requires Drain(queue, session, rounds, k).sent != []
    ensures Waiting(queue, session) != [] && rounds(k).send.Ran?
    ensures var first := Waiting(queue, session)[0];
            var next := AfterTurn(queue, session, first.id, rounds(k).send.failed);
            && Drain(queue, session, rounds, k).sent == [first] + Drain(next, session, rounds, k + 1).sent
            && Drain(queue, session, rounds, k).queue == Drain(next, session, rounds, k + 1).queue
            && |Waiting(next, session)| < |Waiting(queue, session)|
  {
    AfterTurnShrinks(queue, session, rounds(k).send.failed);
  }

  lemma {:induction false} DrainLeaves(queue: seq<Entry>, session: SessionId, rounds: nat -> Round, k: nat)
    ensures var r := Drain(queue, session, rounds, k);
            r.queue == Left(queue, session, r.sent, Marked(rounds, k, |r.sent|))
    decreases |Waiting(queue, session)|
  {
    if Drain(queue, session, rounds, k).sent == [] {
      DrainNothing(queue, session, rounds, k);
    } else {
      DrainRound(queue, session, rounds, k);
      var first, failed := Waiting(queue, session)[0], rounds(k).send.failed;
      var next := AfterTurn(queue, session, first.id, failed);
      DrainLeaves(next, session, rounds, k + 1);
      var rest := Drain(next, session, rounds, k + 1).sent;
      LeftStep(queue, session, first, rest, failed, Marked(rounds, k + 1, |rest|));
    }
  }

  /** What a drain leaves, entry by entry: nothing that was sent, and every other entry as it was,
      but not-started if it was queued for the session and the drain was halted. */
  lemma LeftExactly(queue: seq<Entry>, session: SessionId, sent: seq<Entry>, marked: bool, e: Entry)
    ensures e in Left(queue, session, sent, marked)
       <==> exists q :: q in queue && (forall x :: x in sent ==> x.id != q.id)
                        && e == if marked && q.session == session && q.status == Queued
                                then q.(status := NotStarted) else q
  {
    var rest := Without(queue, Ids(sent));
    FilterMembers(Outside(Ids(sent)), queue);
    assert forall q: Entry :: q.id !in Ids(sent) <==> forall x :: x in sent ==> x.id != q.id;
    if marked {
      MarkExactly(rest, session);
      MarkedMembers(rest, session, e);
    }
  }

  lemma MarkedMembers(rest: seq<Entry>, session: SessionId, e: Entry)
    ensures e in MarkNotStarted(rest, session)
       <==> exists q :: q in rest && e == if q.session == session && q.status == Queued
                                          then q.(status := NotStarted) else q
  {
    MarkExactly(rest, session);
    var marked := MarkNotStarted(rest, session);
    if e in marked {
      var i :| 0 <= i < |marked| && marked[i] == e;
      assert rest[i] in rest;
    }
    if q :| q in rest && e == if q.session == session && q.status == Queued then q.(status := NotStarted) else q {
      var i :| 0 <= i < |rest| && rest[i] == q;
      assert marked[i] == e;
    }
  }

  /** For every course of events: what is sent is a prefix of the waiting entries in queue
      order, each send following a report that the session is done; the queue keeps exactly
      the entries not sent, and those that were waiting are marked not-started exactly when a
      turn failed or a later report halted the drain. If waiting entries are left, the drain
      stopped for one of its reasons. */
  lemma DrainIsOrderly(queue: seq<Entry>, session: SessionId, rounds: nat -> Round, k: nat)
    requires UniqueIds(queue)
    ensures var waiting := Waiting(queue, session);
            var r := Drain(queue, session, rounds, k);
            var n := |r.sent|;
            && r.sent <= waiting
            && AllSent(rounds, k, n)
            && r.queue == Left(queue, session, r.sent, Marked(rounds, k, n))
            && (n < |waiting| ==>
                  Marked(rounds, k, n) || rounds(k + n).status != Some(Done) || rounds(k + n).send.Refused?)
  {
    DrainPrefix(queue, session, rounds, k);
    DrainLeaves(queue, session, rounds, k);
    DrainStops(queue, session, rounds, k);
  }

  /** After `j` sends the session is reported failed or cancelled: nothing more is sent and
      none of the rest stays queued. */
  lemma ReportedFailureStops(queue: seq<Entry>, session: SessionId, rounds: nat -> Round, k: nat, j: nat)
    requires UniqueIds(queue) && Halts(rounds(k + j))
    requires |Drain(queue, session, rounds, k).sent| >= j
    ensures |Drain(queue, session, rounds, k).sent| == j
    ensures Waiting(Drain(queue, session, rounds, k).queue, session) == []
  {
    var sent := Drain(queue, session, rounds, k).sent;
    DrainPrefix(queue, session, rounds, k);
    SentBound(rounds, k, |sent|, j);
    DrainLeaves(queue, session, rounds, k);
    MarkedAtEnd(rounds, k, j);
    MarkEmpties(Without(queue, Ids(sent)), session);
  }

  /** The turn after `j` sends throws: it is the last one, whatever is reported afterwards. */
  lemma ThrownTurnStops(queue: seq<Entry>, session: SessionId, rounds: nat -> Round, k: nat, j: nat)
    requires UniqueIds(queue) && rounds(k + j).send == Ran(true)
    requires |Drain(queue, session, rounds, k).sent| > j
    ensures |Drain(queue, session, rounds, k).sent| == j + 1
    ensures Waiting(Drain(queue, session, rounds, k).queue, session) == []
  {
    var sent := Drain(queue, session, rounds, k).sent;
    DrainPrefix(queue, session, rounds, k);
    AllSentAt(rounds, k, |sent|, j);
    DrainLeaves(queue, session, rounds, k);
    MarkedByThrow(rounds, k, |sent|, j);
    MarkEmpties(Without(queue, Ids(sent)), session);
  }

  lemma {:induction false} MarkedByThrow(rounds: nat -> Round, k: nat, n: nat, j: nat)
    requires j < n && rounds(k + j).send == Ran(true)
    ensures Marked(rounds, k, n)
    decreases n
  {
    if j > 0 { MarkedByThrow(rounds, k + 1, n - 1, j - 1); }
  }

  /** A turn that ends failed or cancelled, whether it throws or the next session list reports
      it, ends the drain: nothing more is sent and none of the rest stays queued. */
  lemma FailureStopsTheDrain(queue: seq<Entry>, session: SessionId, rounds: nat -> Round, k: nat, j: nat)
    requires UniqueIds(queue) && |Drain(queue, session, rounds, k).sent| > j
    requires rounds(k + j).send == Ran(true) || Halts(rounds(k + j + 1))
    ensures |Drain(queue, session, rounds, k).sent| == j + 1
    ensures Waiting(Drain(queue, session, rounds, k).queue, session) == []
  {
    if rounds(k + j).send == Ran(true) {
      ThrownTurnStops(queue, session, rounds, k, j);
    } else {
      assert k + j + 1 == k + (j + 1);
      ReportedFailureStops(queue, session, rounds, k, j + 1);
    }
  }

  lemma SentBound(rounds: nat -> Round, k: nat, n: nat, j: nat)
    requires AllSent(rounds, k, n) && Halts(rounds(k + j))
    ensures n <= j
  {
    if n > j {
      AllSentAt(rounds, k, n, j);
      assert false;
    }
  }

  lemma {:induction false} AllSentAt(rounds: nat -> Round, k: nat, n: nat, j: nat)
    requires AllSent(rounds, k, n) && j < n
    ensures rounds(k + j).status == Some(Done) && rounds(k + j).send.Ran?
    ensures rounds(k + j).send.failed ==> n == j + 1
    decreases n
  {
    if j > 0 { AllSentAt(rounds, k + 1, n - 1, j - 1); }
  }

  lemma {:induction false} MarkedAtEnd(rounds: nat -> Round, k: nat, n: nat)
    requires Halts(rounds(k + n))
    ensures Marked(rounds, k, n)
    decreases n
  {
    if n > 0 { MarkedAtEnd(rounds, k + 1, n - 1); }
  }

  lemma {:induction false} FilterKeepsOrder(keep: Entry -> bool, queue: seq<Entry>)
    requires Sorted(queue)
    ensures Sorted(Filter(keep, queue))
  {
    if queue != [] {
      assert Sorted(queue[1..]);
      FilterKeepsOrder(keep, queue[1..]);
      FilterMembers(keep, queue[1..]);
      var rest := Filter(keep, queue[1..]);
      assert forall e :: e in queue[1..] ==> Before(queue[0], e);
      assert forall i :: 0 <= i < |rest| ==> rest[i] in queue[1..];
    }
  }

  /** From a sorted queue the entries go out by creation time, then by id, none twice. */
  lemma DrainSendsInOrder(queue: seq<Entry>, session: SessionId, rounds: nat -> Round, k: nat)
    requires UniqueIds(queue) && Sorted(queue)
    ensures Sorted(Drain(queue, session, rounds, k).sent)
    ensures forall e :: e in Drain(queue, session, rounds, k).sent ==>
      e in queue && e.session == session && e.status == Queued
    ensures var sent := Drain(queue, session, rounds, k).sent;
            forall i, j :: 0 <= i < j < |sent| ==>
              || sent[i].createdAt < sent[j].createdAt
              || (sent[i].createdAt == sent[j].createdAt && sent[i].id < sent[j].id)
  {
    DrainPrefix(queue, session, rounds, k);
    FilterKeepsOrder(WaitingFor(session), queue);
    var waiting, sent := Waiting(queue, session), Drain(queue, session, rounds, k).sent;
    assert forall i :: 0 <= i < |sent| ==> sent[i] == waiting[i];
    forall e | e in sent ensures e in queue && e.session == session && e.status == Queued {
      assert e in waiting;
      FilterMembers(WaitingFor(session), queue);
    }
  }

  function WithdrawEntry(id: nat): (r: Entry -> Entry) {
    (e: Entry) => if e.id == id then e.(status := Withdrawn) else e
  }

  function Withdraw(queue: seq<Entry>, id: nat): (r: seq<Entry>) {
    Map(WithdrawEntry(id), queue)
  }

  /** An entry withdrawn before a drain begins is not sent, whatever course the drain takes. */
  lemma WithdrawnNotSent(queue: seq<Entry>, id: nat, session: SessionId, rounds: nat -> Round, k: nat)
    requires UniqueIds(queue)
    ensures forall e :: e in Drain(Withdraw(queue, id), session, rounds, k).sent ==> e.id != id
  {
    var left := Withdraw(queue, id);
    assert UniqueIds(left);
    DrainPrefix(left, session, rounds, k);
    FilterMembers(WaitingFor(session), left);
    var waiting, sent := Waiting(left, session), Drain(left, session, rounds, k).sent;
    forall e | e in sent ensures e.id != id {
      assert e in waiting;
    }
  }

  lemma OthersDiffer(queue: seq<Entry>, id: nat)
    ensures forall j :: 0 <= j < |Without(queue, {id})| ==> Without(queue, {id})[j].id != id
  {
    FilterMembers(Outside({id}), queue);
    assert forall j :: 0 <= j < |Without(queue, {id})| ==> Without(queue, {id})[j] in Without(queue, {id});
  }

  lemma InsertSorted(others: seq<Entry>, item: Entry, i: nat)
    requires Sorted(others) && UniqueIds(others) && i <= |others|
    requires forall j :: 0 <= j < |others| ==> others[j].id != item.id
    requires forall j :: 0 <= j < i ==> Before(others[j], item)
    requires i < |others| ==> !Before(others[i], item)
    ensures var queue := others[..i] + [item] + others[i..];
            && Sorted(queue) && UniqueIds(queue)
            && multiset(queue) == multiset(others) + multiset{item}
  {
    assert forall j :: i <= j < |others| ==> Before(item, others[j]);
    InsertedPairs(others, item, i);
    assert others == others[..i] + others[i..];
  }

  lemma InsertedPairs(others: seq<Entry>, item: Entry, i: nat)
    requires Sorted(others) && UniqueIds(others) && i <= |others|
    requires forall j :: 0 <= j < |others| ==> others[j].id != item.id
    requires forall j :: 0 <= j < i ==> Before(others[j], item)
    requires forall j :: i <= j < |others| ==> Before(item, others[j])
    ensures var queue := others[..i] + [item] + others[i..];
            Sorted(queue) && UniqueIds(queue)
  {
    var queue := others[..i] + [item] + others[i..];
    forall a, b | 0 <= a < b < |queue|
      ensures Before(queue[a], queue[b]) && queue[a].id != queue[b].id
    {
      assert queue[a] == if a < i then others[a] else if a == i then item else others[a - 1];
      assert queue[b] == if b < i then others[b] else if b == i then item else others[b - 1];
    }
  }

  // ---------- the queue ref ----------

  class FollowUps {
    var queue: seq<Entry>
    var draining: set<SessionId>

    constructor ()
      ensures queue == [] && draining == {}
    {
      queue, draining := [], {};
    }

    /** The same id replaces its entry; the list is then kept sorted. */
    method Enqueue(item: Entry)
      requires Sorted(queue) && UniqueIds(queue)
      modifies this`queue
      ensures Sorted(queue) && UniqueIds(queue)
      ensures multiset(queue) == multiset(Without(old(queue), {item.id})) + multiset{item}
    {
      var others := Without(queue, {item.id});
      FilterKeepsOrder(Outside({item.id}), queue);
      FilterKeepsUnique(Outside({item.id}), queue);
      OthersDiffer(queue, item.id);
      var i := 0;
      while i < |others| && Before(others[i], item)
        invariant 0 <= i <= |others|
        invariant forall j :: 0 <= j < i ==> Before(others[j], item)
      {
        i := i + 1;
      }
      InsertSorted(others, item, i);
      queue := others[..i] + [item] + others[i..];
    }

    /** The user withdraws an entry; it keeps its place. */
    method CancelFollowUp(id: nat)
      modifies this`queue
      ensures queue == Withdraw(old(queue), id)
    {
      queue := Map(WithdrawEntry(id), queue);
    }

    /** The drain, one recursive call per sent entry; the guard set keeps a second drain of the
        same session out while a send is under way. */
    method DrainQueue(session: SessionId, rounds: nat -> Round, k: nat) returns (sent: seq<Entry>)
      modifies this
      ensures draining == old(draining)
      ensures session in old(draining) ==> sent == [] && queue == old(queue)
      ensures session !in old(draining) ==> Drained(queue, sent) == Drain(old(queue), session, rounds, k)
      decreases |Waiting(queue, session)|
    {
      if session in draining {
        return [];
      }
      var status := rounds(k).status;
      if status == Some(NeedUser) || status == Some(Running) {
        return [];
      }
      if status != Some(Done) {
        queue := MarkNotStarted(queue, session);
        return [];
      }
      var waiting := Waiting(queue, session);
      if waiting == [] {
        return [];
      }
      draining := draining + {session};
      var outcome := rounds(k).send;
      if outcome.Ran? {
        AfterTurnShrinks(queue, session, outcome.failed);
        queue := AfterTurn(queue, session, waiting[0].id, outcome.failed);
      }
      draining := draining - {session};
      if outcome.Refused? {
        return [];
      }
      var rest := DrainQueue(session, rounds, k + 1);
      sent := [waiting[0]] + rest;
    }
  }
}
