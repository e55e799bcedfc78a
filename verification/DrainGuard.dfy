/** Drains of one session that overlap. A drain looks at the guard, waits for the session list,
    sets the guard and sends; sending first deletes the entry and then runs its turn. Between any
    two of these another drain may be called and the queue may change in any way, as it does when
    the user or a drain of another session touches it. */
module DrainGuard {
  import opened Runs
  import opened Seqs
  import opened Wrappers
  import opened FollowUpQueue

  datatype Stage = Deleting | InTurn

  datatype Sending = Sending(entry: Entry, stage: Stage)

  /** The queue, the session's place in the guard set, how many drains wait for the session list,
      and the sends under way. */
  datatype Drains = Drains(session: SessionId, queue: seq<Entry>, guard: bool, listing: nat, sends: seq<Sending>)

  datatype Event =
    | Called
    | Listed(status: Option<SessionStatus>)
    | DeleteAnswered(i: nat, deleted: bool)
    | TurnEnded(i: nat, failed: bool)
    | QueueChanged(queue: seq<Entry>)

  function Idle(session: SessionId, queue: seq<Entry>): (r: Drains) {
    Drains(session, queue, false, 0, [])
  }

  function Call(d: Drains): (r: Drains) {
    if d.guard then d else d.(listing := d.listing + 1)
  }

  /** From the session list on: the guard is set here and not looked at again. */
  function Proceed(d: Drains, status: Option<SessionStatus>): (r: Drains) {
    var waiting := Waiting(d.queue, d.session);
    if status == Some(NeedUser) || status == Some(Running) then d
    else if status != Some(Done) then d.(queue := MarkNotStarted(d.queue, d.session))
    else if waiting == [] then d
    else d.(guard := true, sends := d.sends + [Sending(waiting[0], Deleting)])
  }

  function Drop(sends: seq<Sending>, i: nat): (r: seq<Sending>)
    requires i < |sends|
    ensures |r| == |sends| - 1
  {
    sends[..i] + sends[i + 1..]
  }

  predicate Enabled(d: Drains, e: Event) {
    match e
    case Listed(_) => d.listing > 0
    case DeleteAnswered(i, _) => i < |d.sends| && d.sends[i].stage == Deleting
    case TurnEnded(i, _) => i < |d.sends| && d.sends[i].stage == InTurn
    case _ => true
  }

  function Advance(d: Drains, e: Event): (r: Drains) {
    if !Enabled(d, e) then d
    else
      match e
      case Called => Call(d)
      case Listed(status) => Proceed(d.(listing := d.listing - 1), status)
      case DeleteAnswered(i, deleted) =>
        if deleted
        then d.(queue := Without(d.queue, {d.sends[i].entry.id}), sends := d.sends[i := d.sends[i].(stage := InTurn)])
        else d.(guard := false, sends := Drop(d.sends, i))
      case TurnEnded(i, failed) =>
        var queue := if failed then MarkNotStarted(d.queue, d.session) else d.queue;
        Call(d.(queue := queue, guard := false, sends := Drop(d.sends, i)))
      case QueueChanged(queue) => d.(queue := queue)
  }

  // ---------- one send at a time ----------

  /** At most one drain is under way, and the guard is set exactly while it sends. */
  predicate Single(d: Drains) {
    d.listing + |d.sends| <= 1 && (d.guard <==> d.sends != [])
  }

  /** A drain is called while another one has passed the guard and not yet set it. */
  predicate Overlaps(d: Drains, e: Event) {
    e.Called? && !d.guard && d.listing > 0
  }

  lemma SingleStep(d: Drains, e: Event)
    requires Single(d) && !Overlaps(d, e)
    ensures Single(Advance(d, e))
  {}

  /** As long as no call falls between another drain's look at the guard and its answer from the
      session list, at most one send is under way, and the guard tells. */
  lemma OneSendAtATime(d: Drains, events: seq<Event>)
    requires Single(d) && !SomeStep(Advance, Overlaps, d, events)
    ensures Single(Run(Advance, d, events))
  {
    forall x, e | Single(x) && !Overlaps(x, e) ensures Single(Advance(x, e)) { SingleStep(x, e); }
    KeptUntil(Advance, Single, Overlaps, d, events);
  }

  lemma OneWaiting(entry: Entry, session: SessionId)
    requires IsWaiting(entry, session)
    ensures Waiting([entry], session) == [entry]
  {
    FilterAll(WaitingFor(session), [entry]);
  }

  /** Two drains waiting for the session list both send, and the same entry at that. */
  lemma BothSend(d: Drains, entry: Entry)
    requires d.listing >= 2 && !d.guard && d.sends == [] && IsWaiting(entry, d.session)
    ensures var events := [QueueChanged([entry]), Listed(Some(Done)), Listed(Some(Done))];
            && !SomeStep(Advance, Overlaps, d, events)
            && Run(Advance, d, events).sends == [Sending(entry, Deleting), Sending(entry, Deleting)]
  {
    var list := Listed(Some(Done));
    var events := [QueueChanged([entry]), list, list];
    var d1 := Advance(d, QueueChanged([entry]));
    OneWaiting(entry, d.session);
    var d2 := Advance(d1, list);
    assert d2.sends == [Sending(entry, Deleting)] && d2.queue == [entry];
    var d3 := Advance(d2, list);
    assert d3.sends == [Sending(entry, Deleting), Sending(entry, Deleting)];
    assert events[1..] == [list, list] && [list, list][1..] == [list] && [list][1..] == [];
    assert Run(Advance, d2, [list]) == Run(Advance, d3, []) == d3;
    assert Run(Advance, d1, [list, list]) == d3;
    assert !SomeStep(Advance, Overlaps, d2, [list]);
    assert !SomeStep(Advance, Overlaps, d1, [list, list]);
  }

  /** A call keeps the sends of the session apart in every continuation without a further overlap
      if and only if it does not itself fall between another drain's look at the guard and its
      answer from the session list. */
  lemma GuardExactly(d: Drains)
    requires Single(d)
    ensures (forall after :: !SomeStep(Advance, Overlaps, Advance(d, Called), after) ==>
               |Run(Advance, Advance(d, Called), after).sends| <= 1)
        <==> !Overlaps(d, Called)
  {
    var next := Advance(d, Called);
    if Overlaps(d, Called) {
      var entry := Entry(0, d.session, "", Queued, 0);
      BothSend(next, entry);
    } else {
      SingleStep(d, Called);
      forall after | !SomeStep(Advance, Overlaps, next, after)
        ensures |Run(Advance, next, after).sends| <= 1
      {
        OneSendAtATime(next, after);
      }
    }
  }

  /** And then both deletions are answered, the second one having found nothing to delete, and
      the entry's message is sent twice. */
  lemma SentTwice(session: SessionId, entry: Entry)
    requires IsWaiting(entry, session)
    ensures var d := Drains(session, [entry], true, 0, [Sending(entry, Deleting), Sending(entry, Deleting)]);
            var called := Advance(Advance(Idle(session, [entry]), Called), Called);
            && Advance(Advance(called, Listed(Some(Done))), Listed(Some(Done))) == d
            && Advance(Advance(d, DeleteAnswered(0, true)), DeleteAnswered(1, true)).sends
               == [Sending(entry, InTurn), Sending(entry, InTurn)]
  {
    OneWaiting(entry, session);
  }

  // ---------- a drain on its own ----------

  /** The answers a single drain meets, round by round. */
  function Answers(queue: seq<Entry>, session: SessionId, rounds: nat -> Round, k: nat): (r: seq<Event>)
    decreases |Waiting(queue, session)|
  {
    var list := Listed(rounds(k).status);
    var waiting := Waiting(queue, session);
    if rounds(k).status != Some(Done) || waiting == [] then [list]
    else if rounds(k).send.Refused? then [list, DeleteAnswered(0, false)]
    else
      var failed := rounds(k).send.failed;
      AfterTurnShrinks(queue, session, failed);
      [list, DeleteAnswered(0, true), TurnEnded(0, failed)]
      + Answers(AfterTurn(queue, session, waiting[0].id, failed), session, rounds, k + 1)
  }

  function Alone(session: SessionId, queue: seq<Entry>, listing: nat): (r: Drains) {
    Drains(session, queue, false, listing, [])
  }

  lemma OneRound(queue: seq<Entry>, session: SessionId, failed: bool)
    requires Waiting(queue, session) != []
    ensures var first := Waiting(queue, session)[0];
            var d := Advance(Alone(session, queue, 1), Listed(Some(Done)));
            && Advance(d, DeleteAnswered(0, false)) == Alone(session, queue, 0)
            && Advance(Advance(d, DeleteAnswered(0, true)), TurnEnded(0, failed))
               == Alone(session, AfterTurn(queue, session, first.id, failed), 1)
  {
    var first := Waiting(queue, session)[0];
    var d := Advance(Alone(session, queue, 1), Listed(Some(Done)));
    assert d == Drains(session, queue, true, 0, [Sending(first, Deleting)]);
    assert Drop(d.sends, 0) == [];
    var d' := Advance(d, DeleteAnswered(0, true));
    assert d' == Drains(session, Without(queue, {first.id}), true, 0, [Sending(first, InTurn)]);
    assert Drop(d'.sends, 0) == [];
  }

  /** With nothing in between, the steps of a drain do what the drain as a whole is said to do. */
  lemma {:induction false} AloneIsDrain(queue: seq<Entry>, session: SessionId, rounds: nat -> Round, k: nat)
    ensures Run(Advance, Alone(session, queue, 1), Answers(queue, session, rounds, k))
         == Alone(session, Drain(queue, session, rounds, k).queue, 0)
    decreases |Waiting(queue, session)|
  {
    var d, list := Alone(session, queue, 1), Listed(rounds(k).status);
    var waiting := Waiting(queue, session);
    if rounds(k).status != Some(Done) || waiting == [] {
      RunOne(Advance, d, list);
    } else if rounds(k).send.Refused? {
      OneRound(queue, session, false);
      RunTwo(Advance, d, list, DeleteAnswered(0, false));
    } else {
      var failed := rounds(k).send.failed;
      var next := AfterTurn(queue, session, waiting[0].id, failed);
      OneRound(queue, session, failed);
      AfterTurnShrinks(queue, session, failed);
      RunThree(Advance, d, list, DeleteAnswered(0, true), TurnEnded(0, failed), Answers(next, session, rounds, k + 1));
      AloneIsDrain(next, session, rounds, k + 1);
    }
  }

  // ---------- withdrawing an entry ----------

  /** The user withdraws an entry; other drains and answers may be under way. */
  function WithdrawIn(d: Drains, id: nat): (r: Drains) {
    Advance(d, QueueChanged(Withdraw(d.queue, id)))
  }

  ghost predicate Sends(d: Drains, id: nat) {
    exists i :: 0 <= i < |d.sends| && d.sends[i].entry.id == id
  }

  /** The entry's message has gone out. */
  ghost predicate Goes(d: Drains, id: nat) {
    exists i :: 0 <= i < |d.sends| && d.sends[i] == Sending(d.sends[i].entry, InTurn) && d.sends[i].entry.id == id
  }

  predicate ChangesQueue(d: Drains, e: Event) {
    e.QueueChanged?
  }

  ghost predicate NoneQueued(queue: seq<Entry>, id: nat) {
    forall i :: 0 <= i < |queue| && queue[i].id == id ==> queue[i].status != Queued
  }

  /** No send of the entry is under way, and none of its rows is waiting. */
  ghost predicate OutOf(d: Drains, id: nat) {
    NoneQueued(d.queue, id) && !Sends(d, id)
  }

  ghost function OutOfId(id: nat): (r: Drains -> bool) {
    (d: Drains) => OutOf(d, id)
  }

  lemma MarkKeepsNone(queue: seq<Entry>, session: SessionId, id: nat)
    requires NoneQueued(queue, id)
    ensures NoneQueued(MarkNotStarted(queue, session), id)
  {
    MarkShape(queue, session);
  }

  lemma DeleteKeepsNone(queue: seq<Entry>, gone: set<nat>, id: nat)
    requires NoneQueued(queue, id)
    ensures NoneQueued(Without(queue, gone), id)
  {
    FilterMembers(Outside(gone), queue);
    var left := Without(queue, gone);
    forall i | 0 <= i < |left| && left[i].id == id
      ensures left[i].status != Queued
    {
      assert left[i] in queue;
    }
  }

  lemma FirstIsOther(queue: seq<Entry>, session: SessionId, id: nat)
    requires NoneQueued(queue, id)
    ensures Waiting(queue, session) == [] || Waiting(queue, session)[0].id != id
  {
    FilterMembers(WaitingFor(session), queue);
    var waiting := Waiting(queue, session);
    assert waiting == [] || waiting[0] in waiting;
  }

  lemma OutOfStep(d: Drains, e: Event, id: nat)
    requires OutOf(d, id) && !ChangesQueue(d, e)
    ensures OutOf(Advance(d, e), id)
  {
    MarkKeepsNone(d.queue, d.session, id);
    FirstIsOther(d.queue, d.session, id);
    if e.DeleteAnswered? && Enabled(d, e) {
      DeleteKeepsNone(d.queue, {d.sends[e.i].entry.id}, id);
    }
  }

  lemma OutOfRun(d: Drains, id: nat, after: seq<Event>)
    requires OutOf(d, id) && !SomeStep(Advance, ChangesQueue, d, after)
    ensures !Sends(Run(Advance, d, after), id)
  {
    forall x, e | OutOfId(id)(x) && !ChangesQueue(x, e) ensures OutOfId(id)(Advance(x, e)) { OutOfStep(x, e, id); }
    KeptUntil(Advance, OutOfId(id), ChangesQueue, d, after);
  }

  /** A send that awaits its deletion goes on although the entry was withdrawn meanwhile. */
  lemma SendGoesOn(d: Drains, id: nat) returns (after: seq<Event>)
    requires Sends(d, id)
    ensures !SomeStep(Advance, ChangesQueue, WithdrawIn(d, id), after)
    ensures Goes(Run(Advance, WithdrawIn(d, id), after), id)
  {
    var next := WithdrawIn(d, id);
    var i :| 0 <= i < |d.sends| && d.sends[i].entry.id == id;
    if d.sends[i].stage == InTurn {
      after := [];
      assert next.sends[i] == Sending(next.sends[i].entry, InTurn);
    } else {
      after := [DeleteAnswered(i, true)];
      RunOne(Advance, next, DeleteAnswered(i, true));
      var last := Advance(next, DeleteAnswered(i, true));
      assert last.sends[i] == Sending(last.sends[i].entry, InTurn) && last.sends[i].entry.id == id;
      assert after[1..] == [];
    }
  }

  /** A withdrawn entry's message goes out in no continuation that leaves the queue to the drains,
      if and only if no send of it was under way when it was withdrawn. */
  lemma WithdrawnExactly(d: Drains, id: nat)
    ensures (forall after :: !SomeStep(Advance, ChangesQueue, WithdrawIn(d, id), after) ==>
               !Goes(Run(Advance, WithdrawIn(d, id), after), id))
        <==> !Sends(d, id)
  {
    if Sends(d, id) {
      var after := SendGoesOn(d, id);
    } else {
      var next := WithdrawIn(d, id);
      assert NoneQueued(Withdraw(d.queue, id), id);
      forall after | !SomeStep(Advance, ChangesQueue, next, after)
        ensures !Goes(Run(Advance, next, after), id)
      {
        OutOfRun(next, id, after);
      }
    }
  }

  /** A run in which a withdrawn entry is sent: the withdrawal falls into the deletion. */
  lemma SentAlthoughWithdrawn(session: SessionId, entry: Entry)
    requires IsWaiting(entry, session)
    ensures var d := Advance(Advance(Idle(session, [entry]), Called), Listed(Some(Done)));
            Advance(WithdrawIn(d, entry.id), DeleteAnswered(0, true)).sends == [Sending(entry, InTurn)]
  {
    OneWaiting(entry, session);
  }
}
