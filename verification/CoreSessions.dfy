/** The session service: statuses, message log, pending actions and the cancel probe that
    other threads poll. Each service call is one atomic step over the store. */
module CoreSessions {
  import opened Runs
  import opened Text
  import ToolOutput
  import opened Wrappers

  type Id = nat

  datatype Status = Created | Running | NeedUser | Done | Failed | Cancelled

  datatype Role = User | Assistant | Tool

  datatype Message = Message(role: Role, content: string)

  datatype Session = Session(root: string, status: Status, log: seq<Message>)

  datatype ActionStatus = Pending | Approved | Rejected

  datatype Action = Action(session: Id, status: ActionStatus)

  /** The store, the probe, and the identifiers handed out so far: a generated identifier is
      never one of them. */
  datatype State = State(sessions: map<Id, Session>, actions: map<Id, Action>, probe: set<Id>, issued: set<Id>)

  datatype Call =
    | CreateSession(id: Id, root: string, model: Option<string>, configModel: string)
    | StartChat(id: Id, root: string, model: Option<string>, configModel: string, message: string)
    | ContinueChat(id: Id, root: string, message: string)
    | PauseChat(id: Id)
    | ResumeChat(id: Id)
    | CancelSession(id: Id, partial: Option<string>)
    | CreatePendingAction(id: Id, action: Id)
    | ResolvePendingAction(id: Id, action: Id, approved: bool)
    | RecordToolMessage(id: Id, content: string)
    | RecordAssistantMessage(id: Id, content: string)
    | CompleteChat(id: Id, content: string)
    | FailChat(id: Id)
    | DeleteSession(id: Id)
    | DeleteWorkspaceSessions(ids: set<Id>)
    | ReconcileInterrupted

  datatype Step = Step(state: State, ok: bool)

  // ---------- single updates ----------

  /** Trimming would leave nothing. */
  predicate Blank(s: string) {
    forall i :: 0 <= i < |s| ==> ToolOutput.IsSpace(s[i])
  }

  lemma BlankIffTrimmedAway(s: string)
    ensures Blank(s) <==> Trim(s, ToolOutput.IsSpace) == ""
  {
    TrimmedAway(s, ToolOutput.IsSpace);
  }

  function SetStatus(s: State, id: Id, status: Status): (r: State)
    requires id in s.sessions
  {
    s.(sessions := s.sessions[id := s.sessions[id].(status := status)])
  }

  function Append(s: State, id: Id, role: Role, content: string): (r: State)
    requires id in s.sessions
  {
    var session := s.sessions[id];
    s.(sessions := s.sessions[id := session.(log := session.log + [Message(role, content)])])
  }

  function RejectPending(actions: map<Id, Action>, id: Id): (r: map<Id, Action>) {
    map a | a in actions ::
      if actions[a].session == id && actions[a].status == Pending then actions[a].(status := Rejected) else actions[a]
  }

  function Remove(s: State, ids: set<Id>): (r: State) {
    s.(sessions := map i | i in s.sessions && i !in ids :: s.sessions[i],
       actions := map a | a in s.actions && s.actions[a].session !in ids :: s.actions[a])
  }

  function Reconcile(sessions: map<Id, Session>): (r: map<Id, Session>) {
    map i | i in sessions ::
      if sessions[i].status == Running then sessions[i].(status := Cancelled) else sessions[i]
  }

  predicate Continuable(status: Status) {
    status == Done || status == Failed || status == Created || status == Cancelled
  }

  /** An empty root matches any session; otherwise case and slash direction are ignored. */
  predicate RootMatches(requested: string, existing: string) {
    Blank(requested) ||
    ToolOutput.Stream.LowerAscii(Slashed(Trim(requested, ToolOutput.IsSpace)))
      == ToolOutput.Stream.LowerAscii(Slashed(Trim(existing, ToolOutput.IsSpace)))
  }

  predicate ModelChosen(model: Option<string>, configModel: string) {
    (model.Some? && !Blank(model.value)) || !Blank(configModel)
  }

  function AddSession(s: State, id: Id, session: Session): (r: State) {
    s.(sessions := s.sessions[id := session], issued := s.issued + {id})
  }

  // ---------- one call ----------

  function Refuse(s: State): (r: Step) {
    Step(s, false)
  }

  function PartialText(partial: Option<string>): (r: string) {
    if partial.Some? then Trim(partial.value, ToolOutput.IsSpace) else ""
  }

  /** The streamed text is noted unless it is empty or already the last message. */
  function NotePartial(log: seq<Message>, content: string): (r: seq<Message>) {
    if content == "" || (log != [] && log[|log| - 1] == Message(Assistant, content)) then log
    else log + [Message(Assistant, content)]
  }

  function Cancel(s: State, id: Id, content: string): (r: State)
    requires id in s.sessions
  {
    var session := s.sessions[id];
    var log := NotePartial(session.log, content);
    s.(sessions := s.sessions[id := session.(status := Cancelled, log := log)],
       actions := RejectPending(s.actions, id), probe := s.probe + {id})
  }

  function Reopen(s: State, id: Id, text: string): (r: State)
    requires id in s.sessions
  {
    SetStatus(Append(s.(probe := s.probe - {id}), id, User, text), id, Running)
  }

  /** The effect of one call; a refused call changes nothing. */
  function Apply(s: State, c: Call): (r: Step) {
    match c
    case CreateSession(id, root, model, configModel) =>
      // The workspace's model is looked up, and the root checked, only when none is given.
      if id in s.issued || !ModelChosen(model, configModel) || (!ModelChosen(model, "") && Blank(root)) then Refuse(s)
      else Step(AddSession(s, id, Session(root, Created, [])), true)
    case StartChat(id, root, model, configModel, message) =>
      if id in s.issued || Blank(root) || Blank(message) || !ModelChosen(model, configModel) then Refuse(s)
      else Step(AddSession(s, id, Session(root, Running, [Message(User, message)])), true)
    case ContinueChat(id, root, message) =>
      if Blank(message) || id !in s.sessions || !RootMatches(root, s.sessions[id].root)
         || !Continuable(s.sessions[id].status) then Refuse(s)
      else Step(Reopen(s, id, Trim(message, ToolOutput.IsSpace)), true)
    case PauseChat(id) =>
      if id !in s.sessions then Refuse(s) else Step(SetStatus(s, id, NeedUser), true)
    case ResumeChat(id) =>
      if id !in s.sessions || s.sessions[id].status == Cancelled then Refuse(s)
      else Step(SetStatus(s, id, Running), true)
    case CancelSession(id, partial) =>
      if id !in s.sessions || !Active(s.sessions[id].status) then Refuse(s)
      else Step(Cancel(s, id, PartialText(partial)), true)
    case CreatePendingAction(id, action) =>
      if id !in s.sessions || action in s.issued then Refuse(s)
      else Step(s.(actions := s.actions[action := Action(id, Pending)], issued := s.issued + {action}), true)
    case ResolvePendingAction(id, action, approved) =>
      if id !in s.sessions || s.sessions[id].status != NeedUser || action !in s.actions
         || s.actions[action].session != id || s.actions[action].status != Pending then Refuse(s)
      else Step(s.(actions := s.actions[action := Action(id, if approved then Approved else Rejected)]), true)
    case RecordToolMessage(id, content) =>
      if id !in s.sessions then Refuse(s) else Step(Append(s, id, Tool, content), true)
    case RecordAssistantMessage(id, content) =>
      if id !in s.sessions then Refuse(s) else Step(Append(s, id, Assistant, content), true)
    case CompleteChat(id, content) =>
      if id !in s.sessions then Refuse(s)
      else if s.sessions[id].status == Cancelled then Step(s, true)
      else Step(SetStatus(Append(s, id, Assistant, content), id, Done), true)
    case FailChat(id) =>
      if id !in s.sessions then Refuse(s)
      else if s.sessions[id].status == Cancelled || s.sessions[id].status == Done then Step(s, true)
      else Step(SetStatus(s, id, Failed), true)
    case DeleteSession(id) =>
      if id !in s.sessions then Refuse(s)
      else
        var removed := Remove(s, {id});
        Step(removed.(probe := removed.probe + {id}), true)
    case DeleteWorkspaceSessions(ids) => Step(Remove(s, ids), true)
    case ReconcileInterrupted => Step(s.(sessions := Reconcile(s.sessions)), true)
  }

  /** What a poller learns; `None` stands for the session-not-found error. */
  function Poll(s: State, id: Id): (r: Option<bool>) {
    if id in s.probe then Some(true)
    else if id in s.sessions then Some(s.sessions[id].status == Cancelled)
    else None
  }

  function Next(s: State, c: Call): (r: State) {
    Apply(s, c).state
  }

  predicate Active(status: Status) {
    status == Running || status == NeedUser
  }

  // ---------- the invariant of every run ----------

  predicate Valid(s: State) {
    && s.sessions.Keys <= s.issued
    && s.actions.Keys <= s.issued
    && (forall a :: a in s.actions ==> s.actions[a].session in s.sessions)
  }

  const EMPTY := State(map[], map[], {}, {})

  lemma ApplyValid(s: State, c: Call)
    requires Valid(s)
    ensures Valid(Apply(s, c).state)
    ensures s.issued <= Apply(s, c).state.issued
  {}

  lemma RunValid(s: State, calls: seq<Call>)
    requires Valid(s)
    ensures Valid(Run(Next, s, calls))
  {
    forall s, c | Valid(s) ensures Valid(Next(s, c)) { ApplyValid(s, c); }
    Kept(Next, Valid, s, calls);
  }

  // ---------- turns ----------

  /** The call starts a user turn on `id`. */
  predicate StartsTurn(s: State, c: Call, id: Id) {
    (c.StartChat? || c.ContinueChat?) && c.id == id && Apply(s, c).ok
  }

  /** The call takes an active session to Done, Failed or Cancelled. */
  predicate EndsTurn(s: State, c: Call, id: Id) {
    var t := Apply(s, c).state;
    && id in s.sessions && Active(s.sessions[id].status)
    && id in t.sessions
    && (t.sessions[id].status == Done || t.sessions[id].status == Failed || t.sessions[id].status == Cancelled)
  }

  function EndsTurnOf(id: Id): (r: (State, Call) -> bool) {
    (s, c) => EndsTurn(s, c, id)
  }

  /** A session whose turn has not ended is active or gone for good. */
  predicate InTurnOrGone(s: State, id: Id) {
    && Valid(s) && id in s.issued
    && (id in s.sessions ==> Active(s.sessions[id].status))
  }

  function InTurnOrGoneOf(id: Id): (r: State -> bool) {
    s => InTurnOrGone(s, id)
  }

  lemma StaysInTurn(s: State, c: Call, id: Id)
    requires InTurnOrGone(s, id) && !EndsTurn(s, c, id)
    ensures InTurnOrGone(Next(s, c), id)
  {
    ApplyValid(s, c);
  }

  lemma StartBeginsTurn(s: State, c: Call, id: Id)
    requires Valid(s) && StartsTurn(s, c, id)
    ensures !InTurnOrGone(s, id) && InTurnOrGone(Next(s, c), id)
  {
    ApplyValid(s, c);
  }

  /** Two turns on one session never overlap: between two successful starts some call took the
      session from active to Done, Failed or Cancelled. */
  lemma TurnsSeparated(s: State, first: Call, between: seq<Call>, second: Call, id: Id)
    requires Valid(s) && StartsTurn(s, first, id)
    requires StartsTurn(Run(Next, Next(s, first), between), second, id)
    ensures SomeStep(Next, EndsTurnOf(id), Next(s, first), between)
  {
    var t := Next(s, first);
    StartBeginsTurn(s, first, id);
    RunValid(t, between);
    StartBeginsTurn(Run(Next, t, between), second, id);
    if !SomeStep(Next, EndsTurnOf(id), t, between) {
      InTurnRun(t, between, id);
      assert false;
    }
  }

  lemma InTurnRun(s: State, calls: seq<Call>, id: Id)
    requires InTurnOrGone(s, id) && !SomeStep(Next, EndsTurnOf(id), s, calls)
    ensures InTurnOrGone(Run(Next, s, calls), id)
  {
    forall s, c | InTurnOrGoneOf(id)(s) && !EndsTurnOf(id)(s, c)
      ensures InTurnOrGoneOf(id)(Next(s, c))
    {
      StaysInTurn(s, c, id);
    }
    KeptUntil(Next, InTurnOrGoneOf(id), EndsTurnOf(id), s, calls);
  }

  // ---------- the message log ----------

  function UserMessages(log: seq<Message>): (r: nat) {
    if log == [] then 0
    else UserMessages(log[..|log| - 1]) + (if log[|log| - 1].role == User then 1 else 0)
  }

  function LogOf(s: State, id: Id): (r: seq<Message>) {
    if id in s.sessions then s.sessions[id].log else []
  }

  function StartsTurnOf(id: Id): (r: (State, Call) -> bool) {
    (s, c) => StartsTurn(s, c, id)
  }

  lemma UserMessagesPush(log: seq<Message>, m: Message)
    ensures UserMessages(log + [m]) == UserMessages(log) + (if m.role == User then 1 else 0)
  {
    assert (log + [m])[..|log|] == log;
  }

  /** One call leaves the log of a surviving session alone or appends to it one message, a
      user message exactly when the call starts a turn. */
  lemma LogStep(s: State, c: Call, id: Id)
    requires Valid(s) && id in Next(s, c).sessions
    ensures LogOf(s, id) <= LogOf(Next(s, c), id)
    ensures UserMessages(LogOf(Next(s, c), id))
            == UserMessages(LogOf(s, id)) + (if StartsTurn(s, c, id) then 1 else 0)
  {
    var before, after := LogOf(s, id), LogOf(Next(s, c), id);
    LogAppends(s, c, id);
    if after != before {
      UserMessagesPush(before, after[|before|]);
    }
  }

  lemma LogAppends(s: State, c: Call, id: Id)
    requires Valid(s) && id in Next(s, c).sessions
    ensures AppendedTo(LogOf(s, id), LogOf(Next(s, c), id), StartsTurn(s, c, id))
  {
    if c.CancelSession? { CancelLog(s, c, id); } else { OtherLog(s, c, id); }
  }

  ghost predicate AppendedTo(before: seq<Message>, after: seq<Message>, user: bool) {
    || (after == before && !user)
    || (|after| == |before| + 1 && after == before + [after[|before|]] && (after[|before|].role == User <==> user))
  }

  lemma CancelLog(s: State, c: Call, id: Id)
    requires Valid(s) && id in Next(s, c).sessions && c.CancelSession?
    ensures AppendedTo(LogOf(s, id), LogOf(Next(s, c), id), StartsTurn(s, c, id))
  {}

  lemma OtherLog(s: State, c: Call, id: Id)
    requires Valid(s) && id in Next(s, c).sessions && !c.CancelSession?
    ensures AppendedTo(LogOf(s, id), LogOf(Next(s, c), id), StartsTurn(s, c, id))
  {}

  predicate Gone(s: State, id: Id) {
    Valid(s) && id in s.issued && id !in s.sessions
  }

  function GoneOf(id: Id): (r: State -> bool) {
    s => Gone(s, id)
  }

  lemma GoneStaysGone(s: State, c: Call, id: Id)
    requires Gone(s, id)
    ensures Gone(Next(s, c), id)
  {
    ApplyValid(s, c);
  }

  /** An identifier is never used for a second session. */
  lemma DeletedForGood(s: State, calls: seq<Call>, id: Id)
    requires Gone(s, id)
    ensures Gone(Run(Next, s, calls), id)
  {
    forall s, c | GoneOf(id)(s) ensures GoneOf(id)(Next(s, c)) { GoneStaysGone(s, c, id); }
    Kept(Next, GoneOf(id), s, calls);
  }

  lemma StartLeavesSession(s: State, c: Call, id: Id)
    requires StartsTurn(s, c, id)
    ensures id in Next(s, c).sessions
  {}

  /** As long as a session is not deleted its log only grows by appending, and the user
      messages it gains are exactly the turns started on it. */
  lemma {:induction false} LogCountsTurns(s: State, calls: seq<Call>, id: Id)
    requires Valid(s) && id in Run(Next, s, calls).sessions
    ensures LogOf(s, id) <= LogOf(Run(Next, s, calls), id)
    ensures UserMessages(LogOf(Run(Next, s, calls), id))
            == UserMessages(LogOf(s, id)) + CountSteps(Next, StartsTurnOf(id), s, calls)
    decreases |calls|
  {
    if calls != [] {
      ApplyValid(s, calls[0]);
      if id in Next(s, calls[0]).sessions {
        LogStep(s, calls[0], id);
      } else {
        StillFresh(s, calls[0], calls[1..], id);
      }
      LogCountsTurns(Next(s, calls[0]), calls[1..], id);
    }
  }

  lemma StillFresh(s: State, c: Call, calls: seq<Call>, id: Id)
    requires Valid(s) && id !in Next(s, c).sessions && id in Run(Next, Next(s, c), calls).sessions
    ensures id !in s.sessions && !StartsTurn(s, c, id)
  {
    ApplyValid(s, c);
    if id in Next(s, c).issued {
      DeletedForGood(Next(s, c), calls, id);
      assert false;
    }
    if StartsTurn(s, c, id) {
      StartLeavesSession(s, c, id);
      assert false;
    }
  }

  // ---------- cancellation ----------

  /** A `ContinueChat` on `id` that passes its checks. */
  predicate Continues(s: State, c: Call, id: Id) {
    c.ContinueChat? && StartsTurn(s, c, id)
  }

  function ContinuesOf(id: Id): (r: (State, Call) -> bool) {
    (s, c) => Continues(s, c, id)
  }

  function ProbedOf(id: Id): (r: State -> bool) {
    (s: State) => id in s.probe
  }

  lemma ProbeStep(s: State, c: Call, id: Id)
    requires id in s.probe && !Continues(s, c, id)
    ensures id in Next(s, c).probe
  {}

  lemma CancelMarks(s: State, c: Call)
    requires (c.CancelSession? || c.DeleteSession?) && Apply(s, c).ok
    ensures c.id in Next(s, c).probe
  {}

  /** A successful cancel or delete is seen by every later poll, through pauses, resumes,
      completions, failures and deletions, until the session is continued. */
  lemma CancelIsDurable(s: State, c: Call, calls: seq<Call>, id: Id)
    requires (c.CancelSession? || c.DeleteSession?) && c.id == id && Apply(s, c).ok
    requires !SomeStep(Next, ContinuesOf(id), Next(s, c), calls)
    ensures Poll(Run(Next, Next(s, c), calls), id) == Some(true)
  {
    CancelMarks(s, c);
    forall s, c | ProbedOf(id)(s) && !ContinuesOf(id)(s, c)
      ensures ProbedOf(id)(Next(s, c))
    {
      ProbeStep(s, c, id);
    }
    KeptUntil(Next, ProbedOf(id), ContinuesOf(id), Next(s, c), calls);
  }

  /** And a continue that passes its checks does end it. */
  lemma ContinueEndsCancel(s: State, c: Call, id: Id)
    requires c.ContinueChat? && StartsTurn(s, c, id)
    ensures Poll(Apply(s, c).state, id) == Some(false)
  {}

  lemma CancelIs(s: State, id: Id, partial: Option<string>, content: string)
    requires content == PartialText(partial) && Apply(s, CancelSession(id, partial)).ok
    ensures id in s.sessions
    ensures Apply(s, CancelSession(id, partial)) == Step(Cancel(s, id, content), true)
  {}

  lemma CancelAfterPause(s: State, id: Id, partial: Option<string>)
    requires id in s.sessions
    ensures Apply(SetStatus(s, id, NeedUser), CancelSession(id, partial)).ok
    ensures Next(s, PauseChat(id)) == SetStatus(s, id, NeedUser)
  {}

  lemma CancelTwice(s: State, id: Id, content: string)
    requires id in s.sessions
    ensures var once := Cancel(s, id, content);
            && LogOf(Cancel(SetStatus(once, id, NeedUser), id, content), id) == LogOf(once, id)
            && (content != "" ==> EndsWith(LogOf(once, id), Message(Assistant, content)))
  {}

  predicate EndsWith(log: seq<Message>, m: Message) {
    log != [] && log[|log| - 1] == m
  }

  /** The streamed text of a cancelled turn ends the log, and cancelling again after a late
      pause with the same text does not add it a second time. */
  lemma PartialNotedOnce(s: State, id: Id, partial: Option<string>)
    requires Apply(s, CancelSession(id, partial)).ok
    ensures var once := Next(s, CancelSession(id, partial));
            && LogOf(Next(Next(once, PauseChat(id)), CancelSession(id, partial)), id) == LogOf(once, id)
            && (PartialText(partial) != "" ==> EndsWith(LogOf(once, id), Message(Assistant, PartialText(partial))))
  {
    var content := PartialText(partial);
    CancelIs(s, id, partial, content);
    var once := Cancel(s, id, content);
    CancelAfterPause(once, id, partial);
    CancelIs(SetStatus(once, id, NeedUser), id, partial, content);
    CancelTwice(s, id, content);
  }

  // ---------- pending actions ----------

  /** The action is resolved with `status`, or was deleted with its session. */
  predicate ResolvedOrGone(s: State, a: Id, status: ActionStatus) {
    Valid(s) && a in s.issued && (a in s.actions ==> s.actions[a].status == status)
  }

  function ResolvedOf(a: Id, status: ActionStatus): (r: State -> bool) {
    s => ResolvedOrGone(s, a, status)
  }

  lemma ResolvedStep(s: State, c: Call, a: Id, status: ActionStatus)
    requires status != Pending && ResolvedOrGone(s, a, status)
    ensures ResolvedOrGone(Next(s, c), a, status)
  {
    ApplyValid(s, c);
  }

  lemma ResolvedRefuses(s: State, c: Call, a: Id, status: ActionStatus)
    requires status != Pending && ResolvedOrGone(s, a, status)
    requires c.ResolvePendingAction? && c.action == a
    ensures !Apply(s, c).ok
  {}

  lemma ResolvedRun(s: State, calls: seq<Call>, a: Id, status: ActionStatus)
    requires status != Pending && ResolvedOrGone(s, a, status)
    ensures ResolvedOrGone(Run(Next, s, calls), a, status)
  {
    forall s, c | ResolvedOf(a, status)(s) ensures ResolvedOf(a, status)(Next(s, c)) {
      ResolvedStep(s, c, a, status);
    }
    Kept(Next, ResolvedOf(a, status), s, calls);
  }

  lemma ResolveResolves(s: State, c: Call)
    requires Valid(s) && c.ResolvePendingAction? && Apply(s, c).ok
    ensures ResolvedOrGone(Next(s, c), c.action, if c.approved then Approved else Rejected)
  {
    ApplyValid(s, c);
  }

  /** Once a resolve succeeds, the action keeps that status and every later resolve fails. */
  lemma ResolvesOnce(s: State, c: Call, calls: seq<Call>, again: Call)
    requires Valid(s) && c.ResolvePendingAction? && Apply(s, c).ok
    requires again.ResolvePendingAction? && again.action == c.action
    ensures !Apply(Run(Next, Next(s, c), calls), again).ok
    ensures ResolvedOrGone(Run(Next, Next(s, c), calls), c.action, if c.approved then Approved else Rejected)
  {
    var status := if c.approved then Approved else Rejected;
    ResolveResolves(s, c);
    ResolvedRun(Next(s, c), calls, c.action, status);
    ResolvedRefuses(Run(Next, Next(s, c), calls), again, c.action, status);
  }

  lemma CancelRejects(s: State, c: Call, a: Id)
    requires Valid(s) && c.CancelSession? && Apply(s, c).ok
    requires a in s.actions && s.actions[a] == Action(c.id, Pending)
    ensures ResolvedOrGone(Next(s, c), a, Rejected)
  {
    ApplyValid(s, c);
  }

  /** An action pending when its session is cancelled is never approved afterwards: it stays
      rejected and no later resolve of it succeeds. */
  lemma CancelRejectsForGood(s: State, c: Call, calls: seq<Call>, a: Id, again: Call)
    requires Valid(s) && c.CancelSession? && Apply(s, c).ok
    requires a in s.actions && s.actions[a] == Action(c.id, Pending)
    requires again.ResolvePendingAction? && again.action == a
    ensures ResolvedOrGone(Run(Next, Next(s, c), calls), a, Rejected)
    ensures !Apply(Run(Next, Next(s, c), calls), again).ok
  {
    CancelRejects(s, c, a);
    ResolvedRun(Next(s, c), calls, a, Rejected);
    ResolvedRefuses(Run(Next, Next(s, c), calls), again, a, Rejected);
  }

  /** `a` cannot be approved for session `id`: it belongs to another session, is resolved, or
      was deleted. */
  predicate Barred(s: State, a: Id, id: Id) {
    Valid(s) && a in s.issued && (a in s.actions ==> s.actions[a].session != id || s.actions[a].status != Pending)
  }

  function BarredOf(a: Id, id: Id): (r: State -> bool) {
    s => Barred(s, a, id)
  }

  lemma BarredStep(s: State, c: Call, a: Id, id: Id)
    requires Barred(s, a, id)
    ensures Barred(Next(s, c), a, id)
    ensures c.ResolvePendingAction? && c.id == id && c.action == a ==> !Apply(s, c).ok
  {
    ApplyValid(s, c);
  }

  lemma CancelBars(s: State, c: Call, a: Id)
    requires Valid(s) && c.CancelSession? && Apply(s, c).ok && a in s.issued
    ensures Barred(Next(s, c), a, c.id)
  {
    ApplyValid(s, c);
  }

  /** Whatever is approved or rejected after a cancel was asked for after it. */
  lemma ResolvedAfterCancelIsNew(s: State, c: Call, calls: seq<Call>, resolve: Call)
    requires Valid(s) && c.CancelSession? && Apply(s, c).ok
    requires resolve.ResolvePendingAction? && resolve.id == c.id
    requires Apply(Run(Next, Next(s, c), calls), resolve).ok
    ensures resolve.action !in s.issued
  {
    var a := resolve.action;
    if a in s.issued {
      CancelBars(s, c, a);
      forall s, d | BarredOf(a, c.id)(s) ensures BarredOf(a, c.id)(Next(s, d)) { BarredStep(s, d, a, c.id); }
      Kept(Next, BarredOf(a, c.id), Next(s, c), calls);
      BarredStep(Run(Next, Next(s, c), calls), resolve, a, c.id);
      assert false;
    }
  }

  /** The session is cancelled or was deleted. */
  predicate CancelledOrGone(s: State, id: Id) {
    Valid(s) && id in s.issued && (id in s.sessions ==> s.sessions[id].status == Cancelled)
  }

  function CancelledOf(id: Id): (r: State -> bool) {
    s => CancelledOrGone(s, id)
  }

  /** The calls that take a cancelled session out of that status. */
  predicate Revives(s: State, c: Call, id: Id) {
    (c.PauseChat? && c.id == id && Apply(s, c).ok) || Continues(s, c, id)
  }

  function RevivesOf(id: Id): (r: (State, Call) -> bool) {
    (s, c) => Revives(s, c, id)
  }

  /** No other call does, and no action of a cancelled session is resolved. */
  lemma CancelledStep(s: State, c: Call, id: Id)
    requires CancelledOrGone(s, id)
    ensures CancelledOrGone(Next(s, c), id) <==> !Revives(s, c, id)
    ensures c.ResolvePendingAction? && c.id == id ==> !Apply(s, c).ok
  {
    ApplyValid(s, c);
  }

  lemma CancelCancels(s: State, c: Call)
    requires Valid(s) && c.CancelSession? && Apply(s, c).ok
    ensures CancelledOrGone(Next(s, c), c.id)
  {
    ApplyValid(s, c);
  }

  /** After a cancel nothing is approved or rejected by the user until the session is paused by a
      late worker or continued, over every run. */
  lemma LateApprovalNeedsPause(s: State, c: Call, calls: seq<Call>, resolve: Call)
    requires Valid(s) && c.CancelSession? && Apply(s, c).ok
    requires resolve.ResolvePendingAction? && resolve.id == c.id
    requires Apply(Run(Next, Next(s, c), calls), resolve).ok
    ensures SomeStep(Next, RevivesOf(c.id), Next(s, c), calls)
  {
    var id := c.id;
    CancelCancels(s, c);
    if !SomeStep(Next, RevivesOf(id), Next(s, c), calls) {
      forall s, d | CancelledOf(id)(s) && !RevivesOf(id)(s, d) ensures CancelledOf(id)(Next(s, d)) {
        CancelledStep(s, d, id);
      }
      KeptUntil(Next, CancelledOf(id), RevivesOf(id), Next(s, c), calls);
      CancelledStep(Run(Next, Next(s, c), calls), resolve, id);
      assert false;
    }
  }

  /** Cancelling does not stop a late worker from asking again: with the probe still set, a
      pause and a new action can be followed by an approval. */
  lemma LateActionCanBeApproved(s: State, id: Id, partial: Option<string>, action: Id)
    requires Valid(s) && Apply(s, CancelSession(id, partial)).ok && action !in s.issued
    ensures var t := Run(Next, s, [CancelSession(id, partial), CreatePendingAction(id, action), PauseChat(id),
                                   ResolvePendingAction(id, action, true)]);
            && action in t.actions && t.actions[action] == Action(id, Approved)
            && Poll(t, id) == Some(true)
  {
    var s1 := Next(s, CancelSession(id, partial));
    assert id in s1.sessions && action !in s1.issued && id in s1.probe;
    LateApproval(s1, id, action);
    var calls := [CancelSession(id, partial), CreatePendingAction(id, action), PauseChat(id),
                  ResolvePendingAction(id, action, true)];
    assert calls[1..] == [CreatePendingAction(id, action), PauseChat(id), ResolvePendingAction(id, action, true)];
  }

  lemma LateApproval(s: State, id: Id, action: Id)
    requires id in s.sessions && action !in s.issued && id in s.probe
    ensures var t := Run(Next, s, [CreatePendingAction(id, action), PauseChat(id),
                                   ResolvePendingAction(id, action, true)]);
            && action in t.actions && t.actions[action] == Action(id, Approved)
            && id in t.probe
  {
    var c1, c2, c3 := CreatePendingAction(id, action), PauseChat(id), ResolvePendingAction(id, action, true);
    var s1 := Next(s, c1);
    var s2 := Next(s1, c2);
    var s3 := Next(s2, c3);
    assert action in s3.actions && s3.actions[action] == Action(id, Approved) && id in s3.probe;
    assert [c1, c2, c3][1..] == [c2, c3] && [c2, c3][1..] == [c3] && [c3][1..] == [];
    assert Run(Next, s3, []) == s3;
    assert Run(Next, s2, [c3]) == s3;
    assert Run(Next, s1, [c2, c3]) == s3;
  }

  // ---------- the service object ----------

  /** The service as the rest of the program holds it: each method checks, then updates the
      store and the probe in place. Identifiers come from the caller's generator. */
  class CoreService {
    var sessions: map<Id, Session>
    var actions: map<Id, Action>
    var cancelProbe: set<Id>
    ghost var issued: set<Id>

    ghost function View(): (s: State)
      reads this
    {
      State(sessions, actions, cancelProbe, issued)
    }

    constructor ()
      ensures View() == EMPTY
    {
      sessions, actions, cancelProbe, issued := map[], map[], {}, {};
    }

    method SetSessionStatus(id: Id, status: Status) returns (ok: bool)
      modifies this
      ensures ok <==> id in old(sessions)
      ensures View() == if ok then SetStatus(old(View()), id, status) else old(View())
    {
      ok := id in sessions;
      if ok {
        sessions := sessions[id := sessions[id].(status := status)];
      }
    }

    method AppendMessage(id: Id, role: Role, content: string) returns (ok: bool)
      modifies this
      ensures ok <==> id in old(sessions)
      ensures View() == if ok then Append(old(View()), id, role, content) else old(View())
    {
      ok := id in sessions;
      if ok {
        var session := sessions[id];
        sessions := sessions[id := session.(log := session.log + [Message(role, content)])];
      }
    }

    method StartChat(id: Id, root: string, model: Option<string>, configModel: string,
                     message: string) returns (ok: bool)
      requires id !in issued
      modifies this
      ensures Step(View(), ok) == Apply(old(View()), Call.StartChat(id, root, model, configModel, message))
    {
      if Blank(root) || Blank(message) {
        return false;
      }
      if !ModelChosen(model, configModel) {
        return false;
      }
      sessions := sessions[id := Session(root, Created, [])];
      issued := issued + {id};
      ok := SetSessionStatus(id, Running);
      ok := AppendMessage(id, User, message);
      assert [] + [Message(User, message)] == [Message(User, message)];
      assert sessions == old(sessions)[id := Session(root, Running, [Message(User, message)])];
    }

    method ContinueChat(id: Id, root: string, message: string) returns (ok: bool)
      modifies this
      ensures Step(View(), ok) == Apply(old(View()), Call.ContinueChat(id, root, message))
    {
      if Blank(message) || id !in sessions {
        return false;
      }
      var session := sessions[id];
      if !RootMatches(root, session.root) || !Continuable(session.status) {
        return false;
      }
      ReopenSession(id, Trim(message, ToolOutput.IsSpace));
      ok := true;
    }

    method ReopenSession(id: Id, text: string)
      requires id in sessions
      modifies this
      ensures View() == Reopen(old(View()), id, text)
    {
      cancelProbe := cancelProbe - {id};
      var _ := AppendMessage(id, User, text);
      var _ := SetSessionStatus(id, Running);
    }

    method PauseChat(id: Id) returns (ok: bool)
      modifies this
      ensures Step(View(), ok) == Apply(old(View()), Call.PauseChat(id))
    {
      ok := SetSessionStatus(id, NeedUser);
    }

    method ResumeChat(id: Id) returns (ok: bool)
      modifies this
      ensures Step(View(), ok) == Apply(old(View()), Call.ResumeChat(id))
    {
      if id !in sessions || sessions[id].status == Cancelled {
        return false;
      }
      ok := SetSessionStatus(id, Running);
    }

    method CancelSession(id: Id, partial: Option<string>) returns (ok: bool)
      modifies this
      ensures Step(View(), ok) == Apply(old(View()), Call.CancelSession(id, partial))
    {
      if id !in sessions || !Active(sessions[id].status) {
        return false;
      }
      CloseSession(id, PartialText(partial));
      ok := true;
    }

    method CloseSession(id: Id, content: string)
      requires id in sessions
      modifies this
      ensures View() == Cancel(old(View()), id, content)
    {
      if content != "" {
        var log := sessions[id].log;
        var already := log != [] && log[|log| - 1] == Message(Assistant, content);
        if !already {
          var _ := AppendMessage(id, Assistant, content);
        }
      }
      actions := RejectPending(actions, id);
      cancelProbe := cancelProbe + {id};
      var _ := SetSessionStatus(id, Cancelled);
    }

    method CreatePendingAction(id: Id, action: Id) returns (ok: bool)
      requires action !in issued
      modifies this
      ensures Step(View(), ok) == Apply(old(View()), Call.CreatePendingAction(id, action))
    {
      if id !in sessions {
        return false;
      }
      actions := actions[action := Action(id, Pending)];
      issued := issued + {action};
      ok := true;
    }

    method ResolvePendingAction(id: Id, action: Id, approved: bool) returns (ok: bool)
      modifies this
      ensures Step(View(), ok) == Apply(old(View()), Call.ResolvePendingAction(id, action, approved))
    {
      if id !in sessions || sessions[id].status != NeedUser {
        return false;
      }
      if action !in actions || actions[action].session != id {
        return false;
      }
      if actions[action].status != Pending {
        return false;
      }
      actions := actions[action := Action(id, if approved then Approved else Rejected)];
      ok := true;
    }

    method CompleteChat(id: Id, content: string) returns (ok: bool)
      modifies this
      ensures Step(View(), ok) == Apply(old(View()), Call.CompleteChat(id, content))
    {
      if id !in sessions {
        return false;
      }
      if sessions[id].status == Cancelled {
        return true;
      }
      ok := AppendMessage(id, Assistant, content);
      ok := SetSessionStatus(id, Done);
    }

    method FailChat(id: Id) returns (ok: bool)
      modifies this
      ensures Step(View(), ok) == Apply(old(View()), Call.FailChat(id))
    {
      if id !in sessions {
        return false;
      }
      if sessions[id].status == Cancelled || sessions[id].status == Done {
        return true;
      }
      ok := SetSessionStatus(id, Failed);
    }

    method DeleteSession(id: Id) returns (ok: bool)
      modifies this
      ensures Step(View(), ok) == Apply(old(View()), Call.DeleteSession(id))
    {
      if id !in sessions {
        return false;
      }
      actions := map a | a in actions && actions[a].session !in {id} :: actions[a];
      sessions := map i | i in sessions && i !in {id} :: sessions[i];
      cancelProbe := cancelProbe + {id};
      ok := true;
    }

    method IsSessionCancelled(id: Id) returns (answer: Option<bool>)
      ensures answer == Poll(View(), id)
    {
      if id in cancelProbe {
        return Some(true);
      }
      answer := if id in sessions then Some(sessions[id].status == Cancelled) else None;
    }
  }
}
