/** The history of a session tells its state: the last call that changed its status tells the
    status, the calls that spoke tell the log, and the last cancel, delete or continue tells what
    the probe answers. */
module SessionLaws {
  import opened Runs
  import opened Text
  import opened Wrappers
  import opened CoreSessions
  import ToolOutput

  function StatusOf(s: State, id: Id): (r: Option<Status>) {
    if id in s.sessions then Some(s.sessions[id].status) else None
  }

  // ---------- statuses ----------

  /** The call leaves the session with another status than before, or made it. */
  predicate ChangesStatus(s: State, c: Call, id: Id) {
    StatusOf(Next(s, c), id) != StatusOf(s, id)
  }

  function ChangesStatusOf(id: Id): (r: (State, Call) -> bool) {
    (s, c) => ChangesStatus(s, c, id)
  }

  /** The status a call stands for. */
  predicate Leaves(c: Call, status: Status) {
    match status
    case Created => c.CreateSession?
    case Running => c.StartChat? || c.ContinueChat? || c.ResumeChat?
    case NeedUser => c.PauseChat?
    case Done => c.CompleteChat?
    case Failed => c.FailChat?
    case Cancelled => c.CancelSession? || c.ReconcileInterrupted?
  }

  /** The last change, if the session exists, was made by a call for its status. */
  predicate StatusTold(last: Option<Call>, s: State, id: Id) {
    id in s.sessions ==> last.Some? && Leaves(last.value, s.sessions[id].status)
  }

  function StatusToldOf(id: Id): (r: (Option<Call>, State) -> bool) {
    (last, s) => StatusTold(last, s, id)
  }

  lemma StatusStep(s: State, c: Call, last: Option<Call>, id: Id)
    requires StatusTold(last, s, id)
    ensures StatusTold(if ChangesStatus(s, c, id) then Some(c) else last, Next(s, c), id)
  {}

  /** Over every run: a session is Done if and only if the last call that changed its status was a
      completion, and so for every other status. */
  lemma StatusIsLastChange(calls: seq<Call>, id: Id, status: Status)
    requires id in Run(Next, EMPTY, calls).sessions
    ensures var last := LastCall(Next, ChangesStatusOf(id), EMPTY, calls, None);
            last.Some? && (Run(Next, EMPTY, calls).sessions[id].status == status <==> Leaves(last.value, status))
  {
    forall s, c, o | StatusToldOf(id)(o, s)
      ensures StatusToldOf(id)(if ChangesStatusOf(id)(s, c) then Some(c) else o, Next(s, c))
    {
      StatusStep(s, c, o, id);
    }
    LastCallTells(Next, ChangesStatusOf(id), StatusToldOf(id), EMPTY, calls, None);
  }

  // ---------- which calls succeed ----------

  /** Equal up to letter case and the direction of slashes. */
  predicate SamePathChar(a: char, b: char) {
    || a == b || (a in "/\\" && b in "/\\")
    || ('A' <= a <= 'Z' && a as int + 32 == b as int) || ('A' <= b <= 'Z' && b as int + 32 == a as int)
  }

  ghost predicate SamePath(a: string, b: string) {
    |a| == |b| && forall i :: 0 <= i < |a| ==> SamePathChar(a[i], b[i])
  }

  function TrimRoot(root: string): (r: string) {
    Trim(root, ToolOutput.IsSpace)
  }

  ghost predicate IsBlank(s: string) {
    AllSpace(s, ToolOutput.IsSpace)
  }

  function Folded(s: string): (r: string) {
    ToolOutput.Stream.LowerAscii(Slashed(s))
  }

  lemma FoldedExactly(a: string, b: string)
    ensures Folded(a) == Folded(b) <==> SamePath(a, b)
  {
    var x, y := Folded(a), Folded(b);
    assert |x| == |a| && |y| == |b|;
    if |a| == |b| {
      forall i | 0 <= i < |a| ensures x[i] == y[i] <==> SamePathChar(a[i], b[i]) {
        FoldedChar(a, b, i);
      }
    }
  }

  lemma FoldedChar(a: string, b: string, i: nat)
    requires i < |a| && i < |b|
    ensures Folded(a)[i] == Folded(b)[i] <==> SamePathChar(a[i], b[i])
  {}

  /** A requested root fits a session: none was given, or it is the session's own. */
  ghost predicate RootFits(requested: string, existing: string) {
    IsBlank(requested) || SamePath(TrimRoot(requested), TrimRoot(existing))
  }

  lemma RootExactly(requested: string, existing: string)
    ensures RootMatches(requested, existing) <==> RootFits(requested, existing)
  {
    FoldedExactly(TrimRoot(requested), TrimRoot(existing));
  }

  /** A model is named, or the workspace's configuration names one. */
  ghost predicate HasModel(model: Option<string>, configured: string) {
    (model.Some? && !IsBlank(model.value)) || !IsBlank(configured)
  }

  ghost predicate Passes(s: State, c: Call) {
    match c
    case CreateSession(id, root, model, configured) =>
      id !in s.issued && HasModel(model, configured) && (!IsBlank(root) || (model.Some? && !IsBlank(model.value)))
    case StartChat(id, root, model, configured, message) =>
      id !in s.issued && !IsBlank(root) && !IsBlank(message) && HasModel(model, configured)
    case ContinueChat(id, root, message) =>
      && !IsBlank(message) && id in s.sessions && RootFits(root, s.sessions[id].root)
      && s.sessions[id].status != Running && s.sessions[id].status != NeedUser
    case PauseChat(id) => id in s.sessions
    case ResumeChat(id) => id in s.sessions && s.sessions[id].status != Cancelled
    case CancelSession(id, _) =>
      id in s.sessions && (s.sessions[id].status == Running || s.sessions[id].status == NeedUser)
    case CreatePendingAction(id, action) => id in s.sessions && action !in s.issued
    case ResolvePendingAction(id, action, _) =>
      && id in s.sessions && s.sessions[id].status == NeedUser
      && action in s.actions && s.actions[action] == Action(id, Pending)
    case RecordToolMessage(id, _) => id in s.sessions
    case RecordAssistantMessage(id, _) => id in s.sessions
    case CompleteChat(id, _) => id in s.sessions
    case FailChat(id) => id in s.sessions
    case DeleteSession(id) => id in s.sessions
    case DeleteWorkspaceSessions(_) => true
    case ReconcileInterrupted => true
  }

  /** A call succeeds if and only if it passes the checks, and a refused call changes nothing. */
  lemma SucceedsExactly(s: State, c: Call)
    ensures Apply(s, c).ok <==> Passes(s, c)
    ensures !Apply(s, c).ok ==> Next(s, c) == s
  {
    if c.ContinueChat? && c.id in s.sessions {
      RootExactly(c.root, s.sessions[c.id].root);
    }
  }

  // ---------- what a successful call leaves ----------

  /** The status of the named session after a successful call. */
  predicate StatusAfter(s: State, c: Call, t: State) {
    match c
    case CreateSession(id, root, _, _) => id in t.sessions && t.sessions[id] == Session(root, Created, [])
    case StartChat(id, root, _, _, message) =>
      id in t.sessions && t.sessions[id] == Session(root, Running, [Message(User, message)])
    case ContinueChat(id, _, _) => StatusOf(t, id) == Some(Running) && id !in t.probe
    case PauseChat(id) => StatusOf(t, id) == Some(NeedUser)
    case ResumeChat(id) => StatusOf(t, id) == Some(Running)
    case CancelSession(id, _) => StatusOf(t, id) == Some(Cancelled) && id in t.probe
    case CompleteChat(id, _) =>
      StatusOf(t, id) == if StatusOf(s, id) == Some(Cancelled) then Some(Cancelled) else Some(Done)
    case FailChat(id) =>
      StatusOf(t, id) == if StatusOf(s, id) in {Some(Cancelled), Some(Done)} then StatusOf(s, id) else Some(Failed)
    case CreatePendingAction(id, action) => action in t.actions && t.actions[action] == Action(id, Pending)
    case ResolvePendingAction(id, action, approved) =>
      action in t.actions && t.actions[action] == Action(id, if approved then Approved else Rejected)
    case DeleteSession(id) => id !in t.sessions && id in t.probe
    case _ => true
  }

  lemma SuccessLeaves(s: State, c: Call)
    requires Apply(s, c).ok
    ensures StatusAfter(s, c, Next(s, c))
  {}

  predicate Names(c: Call, id: Id) {
    match c
    case DeleteWorkspaceSessions(ids) => id in ids
    case ReconcileInterrupted => true
    case _ => c.id == id
  }

  lemma OtherActionsUntouched(s: State, c: Call, other: Id, a: Id)
    requires Valid(s) && !Names(c, other) && a in s.actions && s.actions[a].session == other
    ensures a in Next(s, c).actions && Next(s, c).actions[a] == s.actions[a]
  {}

  lemma OtherSessionsUntouched(s: State, c: Call, other: Id)
    requires Valid(s) && !Names(c, other)
    ensures other in s.sessions <==> other in Next(s, c).sessions
    ensures other in s.sessions ==> Next(s, c).sessions[other] == s.sessions[other]
    ensures other in s.probe <==> other in Next(s, c).probe
  {}

  /** Sessions that a call does not name stay as they are, and so do their actions. */
  lemma OthersUntouched(s: State, c: Call, other: Id)
    requires Valid(s) && !Names(c, other)
    ensures other in s.sessions <==> other in Next(s, c).sessions
    ensures other in s.sessions ==> Next(s, c).sessions[other] == s.sessions[other]
    ensures other in s.probe <==> other in Next(s, c).probe
    ensures forall a :: a in s.actions && s.actions[a].session == other ==>
      a in Next(s, c).actions && Next(s, c).actions[a] == s.actions[a]
  {
    OtherSessionsUntouched(s, c, other);
    forall a | a in s.actions && s.actions[a].session == other
      ensures a in Next(s, c).actions && Next(s, c).actions[a] == s.actions[a]
    {
      OtherActionsUntouched(s, c, other, a);
    }
  }

  /** Deleting a workspace's sessions removes exactly them with their actions; reconciling cancels
      exactly the running ones. */
  lemma WholesaleCalls(s: State, ids: set<Id>)
    ensures Next(s, DeleteWorkspaceSessions(ids)).sessions.Keys == s.sessions.Keys - ids
    ensures forall a :: a in Next(s, DeleteWorkspaceSessions(ids)).actions <==>
      a in s.actions && s.actions[a].session !in ids
    ensures Next(s, ReconcileInterrupted).sessions.Keys == s.sessions.Keys
    ensures forall id :: id in s.sessions ==>
      Next(s, ReconcileInterrupted).sessions[id]
      == if s.sessions[id].status == Running then s.sessions[id].(status := Cancelled) else s.sessions[id]
  {}

  // ---------- the log ----------

  /** What a call adds to the log of the session. */
  function Said(s: State, c: Call, id: Id): (r: seq<Message>) {
    match c
    case StartChat(i, _, _, _, message) => if i == id && Apply(s, c).ok then [Message(User, message)] else []
    case ContinueChat(i, _, message) =>
      if i == id && Apply(s, c).ok then [Message(User, Trim(message, ToolOutput.IsSpace))] else []
    case CompleteChat(i, content) =>
      if i == id && id in s.sessions && s.sessions[id].status != Cancelled then [Message(Assistant, content)] else []
    case RecordToolMessage(i, content) => if i == id && id in s.sessions then [Message(Tool, content)] else []
    case RecordAssistantMessage(i, content) => if i == id && id in s.sessions then [Message(Assistant, content)] else []
    case CancelSession(i, partial) =>
      if i == id && Apply(s, c).ok
      then Noted(LogOf(s, id), if partial.Some? then Trim(partial.value, ToolOutput.IsSpace) else "") else []
    case _ => []
  }

  /** The streamed text, unless there is none or the log ends with it. */
  function Noted(log: seq<Message>, text: string): (r: seq<Message>) {
    if text == "" || (log != [] && log[|log| - 1] == Message(Assistant, text)) then [] else [Message(Assistant, text)]
  }

  function SaidOf(id: Id): (r: (State, Call) -> seq<Message>) {
    (s, c) => Said(s, c, id)
  }

  lemma CancelSays(s: State, id: Id, partial: Option<string>)
    requires Apply(s, CancelSession(id, partial)).ok
    ensures LogOf(Next(s, CancelSession(id, partial)), id)
         == LogOf(s, id) + Said(s, CancelSession(id, partial), id)
  {
    var text := if partial.Some? then Trim(partial.value, ToolOutput.IsSpace) else "";
    CancelIs(s, id, partial, text);
    NotedIs(LogOf(s, id), text);
  }

  lemma NotedIs(log: seq<Message>, text: string)
    ensures NotePartial(log, text) == log + Noted(log, text)
  {}

  lemma ContinueIs(s: State, c: Call, text: string)
    requires c.ContinueChat? && Apply(s, c).ok && text == Trim(c.message, ToolOutput.IsSpace)
    ensures c.id in s.sessions && Next(s, c) == Reopen(s, c.id, text)
  {}

  lemma ReopenSays(s: State, id: Id, text: string)
    requires id in s.sessions
    ensures LogOf(Reopen(s, id, text), id) == LogOf(s, id) + [Message(User, text)]
  {}

  lemma ContinueSays(s: State, c: Call)
    requires c.ContinueChat? && Apply(s, c).ok
    ensures LogOf(Next(s, c), c.id) == LogOf(s, c.id) + Said(s, c, c.id)
  {
    var text := Trim(c.message, ToolOutput.IsSpace);
    ContinueIs(s, c, text);
    ReopenSays(s, c.id, text);
  }

  lemma TurnsSay(s: State, c: Call, id: Id)
    requires Valid(s) && id in Next(s, c).sessions && (c.StartChat? || c.ContinueChat? || c.CompleteChat?)
    ensures LogOf(Next(s, c), id) == LogOf(s, id) + Said(s, c, id)
  {
    if c.ContinueChat? && c.id == id && Apply(s, c).ok {
      ContinueSays(s, c);
    }
  }

  lemma RestSays(s: State, c: Call, id: Id)
    requires Valid(s) && id in Next(s, c).sessions && !(c.StartChat? || c.ContinueChat? || c.CompleteChat?)
    requires !(c.CancelSession? && c.id == id && Apply(s, c).ok)
    ensures LogOf(Next(s, c), id) == LogOf(s, id) + Said(s, c, id)
  {}

  lemma LogSays(s: State, c: Call, id: Id)
    requires Valid(s) && id in Next(s, c).sessions
    ensures LogOf(Next(s, c), id) == LogOf(s, id) + Said(s, c, id)
  {
    if c.CancelSession? && c.id == id && Apply(s, c).ok {
      CancelSays(s, id, c.partial);
    } else {
      if c.StartChat? || c.ContinueChat? || c.CompleteChat? { TurnsSay(s, c, id); } else { RestSays(s, c, id); }
    }
  }

  lemma {:induction false} LogIsTranscriptFrom(s: State, calls: seq<Call>, id: Id)
    requires Valid(s) && id in Run(Next, s, calls).sessions
    ensures LogOf(Run(Next, s, calls), id) == LogOf(s, id) + Gathered(Next, SaidOf(id), s, calls)
    decreases |calls|
  {
    if calls != [] {
      ApplyValid(s, calls[0]);
      LogIsTranscriptFrom(Next(s, calls[0]), calls[1..], id);
      if id in Next(s, calls[0]).sessions {
        LogSays(s, calls[0], id);
      } else {
        StillFresh(s, calls[0], calls[1..], id);
      }
    }
  }

  /** Over every run the log of a session is what its calls said, in their order: the message of
      each start, the trimmed message of each continue, the answer of each completion, the recorded
      messages, and the streamed text of a cancel. */
  lemma LogIsTranscript(calls: seq<Call>, id: Id)
    requires id in Run(Next, EMPTY, calls).sessions
    ensures Run(Next, EMPTY, calls).sessions[id].log == Gathered(Next, SaidOf(id), EMPTY, calls)
  {
    LogIsTranscriptFrom(EMPTY, calls, id);
  }

  // ---------- the probe ----------

  /** A cancel, a delete or a continue of the session that succeeded. */
  predicate TouchesProbe(s: State, c: Call, id: Id) {
    (c.CancelSession? || c.DeleteSession? || c.ContinueChat?) && c.id == id && Apply(s, c).ok
  }

  function TouchesProbeOf(id: Id): (r: (State, Call) -> bool) {
    (s, c) => TouchesProbe(s, c, id)
  }

  predicate ProbeTold(last: Option<Call>, s: State, id: Id) {
    id in s.probe <==> last.Some? && !last.value.ContinueChat?
  }

  function ProbeToldOf(id: Id): (r: (Option<Call>, State) -> bool) {
    (last, s) => ProbeTold(last, s, id)
  }

  lemma ProbeTellsStep(s: State, c: Call, last: Option<Call>, id: Id)
    requires ProbeTold(last, s, id)
    ensures ProbeTold(if TouchesProbe(s, c, id) then Some(c) else last, Next(s, c), id)
  {}

  /** Over every run a poller is told that a session is cancelled if and only if the last successful
      cancel, delete or continue of it was no continue, or its status is Cancelled; and it is told
      that there is no such session if and only if neither holds and the session does not exist. */
  lemma PollExactly(calls: seq<Call>, id: Id)
    ensures var last := LastCall(Next, TouchesProbeOf(id), EMPTY, calls, None);
            var s := Run(Next, EMPTY, calls);
            var cancelled := (last.Some? && !last.value.ContinueChat?) || StatusOf(s, id) == Some(Cancelled);
            Poll(s, id) == if cancelled then Some(true) else if id in s.sessions then Some(false) else None
  {
    forall s, c, o | ProbeToldOf(id)(o, s)
      ensures ProbeToldOf(id)(if TouchesProbeOf(id)(s, c) then Some(c) else o, Next(s, c))
    {
      ProbeTellsStep(s, c, o, id);
    }
    LastCallTells(Next, TouchesProbeOf(id), ProbeToldOf(id), EMPTY, calls, None);
  }

  // ---------- actions ----------

  function ActionOf(s: State, a: Id): (r: Option<ActionStatus>) {
    if a in s.actions then Some(s.actions[a].status) else None
  }

  predicate ChangesAction(s: State, c: Call, a: Id) {
    ActionOf(Next(s, c), a) != ActionOf(s, a)
  }

  function ChangesActionOf(a: Id): (r: (State, Call) -> bool) {
    (s, c) => ChangesAction(s, c, a)
  }

  predicate Settles(c: Call, status: ActionStatus) {
    match status
    case Pending => c.CreatePendingAction?
    case Approved => c.ResolvePendingAction? && c.approved
    case Rejected => (c.ResolvePendingAction? && !c.approved) || c.CancelSession?
  }

  predicate ActionTold(last: Option<Call>, s: State, a: Id) {
    a in s.actions ==> last.Some? && Settles(last.value, s.actions[a].status)
  }

  function ActionToldOf(a: Id): (r: (Option<Call>, State) -> bool) {
    (last, s) => ActionTold(last, s, a)
  }

  lemma ActionStep(s: State, c: Call, last: Option<Call>, a: Id)
    requires ActionTold(last, s, a)
    ensures ActionTold(if ChangesAction(s, c, a) then Some(c) else last, Next(s, c), a)
  {}

  /** Over every run an action is approved if and only if the last call that changed it approved it,
      rejected if and only if that call rejected it or cancelled its session, and else pending. */
  lemma ActionIsLastChange(calls: seq<Call>, a: Id, status: ActionStatus)
    requires a in Run(Next, EMPTY, calls).actions
    ensures var last := LastCall(Next, ChangesActionOf(a), EMPTY, calls, None);
            last.Some? && (Run(Next, EMPTY, calls).actions[a].status == status <==> Settles(last.value, status))
  {
    forall s, c, o | ActionToldOf(a)(o, s)
      ensures ActionToldOf(a)(if ChangesActionOf(a)(s, c) then Some(c) else o, Next(s, c))
    {
      ActionStep(s, c, o, a);
    }
    LastCallTells(Next, ChangesActionOf(a), ActionToldOf(a), EMPTY, calls, None);
  }
}
