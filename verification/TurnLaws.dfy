/** When the desktop does select a session, told from what happened and not from its refs; that it
    never takes a selected session away; and when a turn stays current. */
module TurnLaws {
  import opened Runs
  import opened Wrappers
  import opened TurnProtocol

  // ---------- the story so far ----------

  /** How many turns were started; the last turn without a target, while it lasts; the sessions that
      were listed when the composer was last claimed by a new draft, unless it was reset or that
      last draft ended since; and the sessions listed now. */
  datatype Story = Story(starts: nat, draft: Option<nat>, claimed: Option<set<SessionId>>, listed: set<SessionId>)

  const BEGINNING := Story(0, None, None, {})

  function Tell(story: Story, e: Event): (r: Story) {
    match e
    case StartTurn(target, continuing) =>
      if target.None? && continuing then story
      else
        story.(starts := story.starts + 1,
               draft := if target.None? then Some(story.starts + 1) else story.draft,
               claimed := if continuing then story.claimed else Some(story.listed))
    case ResetComposer => story.(claimed := None)
    case TurnEnded(generation) =>
      if story.draft == Some(generation) then story.(draft := None, claimed := None) else story
    case RefreshSessions(sessions) => story.(listed := sessions)
    case _ => story
  }

  /** What the refs hold is what the story says. */
  ghost predicate Told(d: Desktop, story: Story) {
    && ClaimOk(d.composer)
    && d.turns.mono == story.starts
    && d.composer.draftInFlight == story.draft
    && d.composer.sessions == story.listed
    && (story.claimed.Some? <==> d.composer.draftEpoch == Some(d.composer.epoch))
    && (story.claimed.Some? ==> d.composer.known == story.claimed.value)
  }

  lemma ToldStep(d: Desktop, story: Story, e: Event)
    requires Told(d, story)
    ensures Told(Advance(d, e), Tell(story, e))
  {}

  lemma {:induction false} ToldRun(d: Desktop, story: Story, events: seq<Event>)
    requires Told(d, story)
    ensures Told(Run(Advance, d, events), Run(Tell, story, events))
    decreases |events|
  {
    if events != [] {
      ToldStep(d, story, events[0]);
      ToldRun(Advance(d, events[0]), Tell(story, events[0]), events[1..]);
    }
  }

  /** The present draft may take the session in: the composer was claimed and neither reset nor
      given up since, and the session was not listed at the claim. */
  predicate Awaited(story: Story, s: SessionId) {
    story.claimed.Some? && s !in story.claimed.value
  }

  /** Over every run: the event of a session selects it if and only if the composer is empty and the
      session is awaited, and otherwise changes nothing. */
  lemma EventSelectsExactly(events: seq<Event>, s: SessionId)
    ensures var d := Run(Advance, FRESH, events);
            var story := Run(Tell, BEGINNING, events);
            Advance(d, SessionEvent(s)).composer.active
            == if d.composer.activeRef.None? && Awaited(story, s) then Some(s) else d.composer.active
  {
    ToldRun(FRESH, BEGINNING, events);
  }

  /** Over every run: the chat of a turn that is current when it returns selects its session if and
      only if the session is selected already, or the composer is empty and the session awaited. The
      chat of any other turn selects nothing. */
  lemma ReturnSelectsExactly(events: seq<Event>, generation: nat, s: SessionId)
    requires Enabled(Run(Advance, FRESH, events), ChatReturned(generation, s))
    ensures var d := Run(Advance, FRESH, events);
            var story := Run(Tell, BEGINNING, events);
            var next := Advance(d, ChatReturned(generation, s));
            var takes := d.composer.activeRef == Some(s) || (d.composer.activeRef.None? && Awaited(story, s));
            next.composer.active
            == if IsCurrent(next.turns, generation) && takes then Some(s) else d.composer.active
  {
    ToldRun(FRESH, BEGINNING, events);
  }

  /** So the first event of a new draft's session selects it, whatever happened before. */
  lemma NewTaskIsSelected(before: seq<Event>, s: SessionId)
    requires Run(Advance, FRESH, before).composer.activeRef.None?
    requires s !in Run(Tell, BEGINNING, before).listed
    ensures var d := Advance(Run(Advance, FRESH, before), StartTurn(None, false));
            Advance(d, SessionEvent(s)).composer.active == Some(s)
  {
    var d, story := Run(Advance, FRESH, before), Run(Tell, BEGINNING, before);
    ToldRun(FRESH, BEGINNING, before);
    ToldStep(d, story, StartTurn(None, false));
  }

  // ---------- a selected session ----------

  predicate Viewing(d: Desktop, s: SessionId) {
    d.composer.active == Some(s) && d.composer.activeRef == Some(s)
  }

  function ViewingOf(s: SessionId): (r: Desktop -> bool) {
    d => Viewing(d, s)
  }

  /** What takes the user elsewhere: another selection, a reset, a new draft, the start-up restore. */
  predicate Leaves(d: Desktop, e: Event) {
    e.SelectSession? || e.ResetComposer? || e.AutoRestore? || (e.StartTurn? && !e.continuing)
  }

  lemma ViewingStep(d: Desktop, e: Event, s: SessionId)
    requires Viewing(d, s) && !Leaves(d, e)
    ensures Viewing(Advance(d, e), s)
  {}

  /** A session the user selects stays selected, however many other turns send events and finish,
      until the user goes elsewhere. */
  lemma FocusIsNotStolen(d: Desktop, s: SessionId, after: seq<Event>)
    requires !SomeStep(Advance, Leaves, Advance(d, SelectSession(s)), after)
    ensures Viewing(Run(Advance, Advance(d, SelectSession(s)), after), s)
  {
    forall x, e | ViewingOf(s)(x) && !Leaves(x, e) ensures ViewingOf(s)(Advance(x, e)) { ViewingStep(x, e, s); }
    KeptUntil(Advance, ViewingOf(s), Leaves, Advance(d, SelectSession(s)), after);
  }

  /** Nor does one that its own event brought up, once the selection has settled. */
  lemma AdoptedIsNotStolen(d: Desktop, s: SessionId, after: seq<Event>)
    requires Advance(d, SessionEvent(s)).composer.active == Some(s)
    requires !SomeStep(Advance, Leaves, Advance(Advance(d, SessionEvent(s)), SyncActiveRef), after)
    ensures Viewing(Run(Advance, Advance(Advance(d, SessionEvent(s)), SyncActiveRef), after), s)
  {
    forall x, e | ViewingOf(s)(x) && !Leaves(x, e) ensures ViewingOf(s)(Advance(x, e)) { ViewingStep(x, e, s); }
    KeptUntil(Advance, ViewingOf(s), Leaves, Advance(Advance(d, SessionEvent(s)), SyncActiveRef), after);
  }

  // ---------- current turns ----------

  /** The turn is bound to the session and current for it. */
  predicate Holds(t: Turns, g: nat, s: SessionId) {
    g in t.owners && t.owners[g] == Some(s) && s in t.bySession && t.bySession[s] == g
  }

  /** A newer turn takes the session, or the turn itself comes back with another one. */
  predicate Takes(d: Desktop, e: Event, g: nat, s: SessionId) {
    match e
    case StartTurn(target, _) => target == Some(s)
    case ChatReturned(h, r) =>
      Enabled(d, e) && if h == g then r != s else r == s && h > g && d.turns.owners[h].None?
    case _ => false
  }

  /** A turn that holds its session goes on holding it exactly until a newer turn takes it. */
  lemma HoldsExactly(d: Desktop, e: Event, g: nat, s: SessionId)
    requires TurnsOk(d.turns) && Holds(d.turns, g, s)
    ensures Holds(Advance(d, e).turns, g, s) <==> !Takes(d, e, g, s)
  {}

  function TakesOf(g: nat, s: SessionId): (r: (Desktop, Event) -> bool) {
    (d, e) => Takes(d, e, g, s)
  }

  ghost function HoldsOf(g: nat, s: SessionId): (r: Desktop -> bool) {
    (d: Desktop) => TurnsOk(d.turns) && Holds(d.turns, g, s)
  }

  /** Over every interleaving a turn on a session is current from its start until a newer turn takes
      the session. */
  lemma CurrentUntilTaken(d: Desktop, s: SessionId, continuing: bool, after: seq<Event>)
    requires TurnsOk(d.turns)
    requires !SomeStep(Advance, TakesOf(d.turns.mono + 1, s), Advance(d, StartTurn(Some(s), continuing)), after)
    ensures IsCurrent(Run(Advance, Advance(d, StartTurn(Some(s), continuing)), after).turns, d.turns.mono + 1)
  {
    var g := d.turns.mono + 1;
    var start := Advance(d, StartTurn(Some(s), continuing));
    AdvanceKeepsTurns(d, StartTurn(Some(s), continuing));
    forall x, e | HoldsOf(g, s)(x) && !TakesOf(g, s)(x, e) ensures HoldsOf(g, s)(Advance(x, e)) {
      AdvanceKeepsTurns(x, e);
      HoldsExactly(x, e, g, s);
    }
    KeptUntil(Advance, HoldsOf(g, s), TakesOf(g, s), start, after);
  }

  /** A turn without a target is current until its chat returns or another such turn starts. */
  lemma DraftCurrentExactly(d: Desktop, e: Event, g: nat)
    requires TurnsOk(d.turns) && g in d.turns.owners && d.turns.owners[g].None? && d.turns.draft == g
    requires !(e.ChatReturned? && e.generation == g)
    ensures IsCurrent(Advance(d, e).turns, g) <==> !(e.StartTurn? && e.target.None? && !e.continuing)
  {}

  /** A started turn has its own number and is the current one of its session, or the current draft. */
  lemma StartIsCurrent(d: Desktop, target: Option<SessionId>, continuing: bool)
    requires TurnsOk(d.turns) && (target.Some? || !continuing)
    ensures var next := Advance(d, StartTurn(target, continuing)).turns;
            var g := next.mono;
            && g == d.turns.mono + 1 && g !in d.turns.owners
            && g in next.owners && next.owners[g] == target && IsCurrent(next, g)
  {}
}
