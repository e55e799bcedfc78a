/** The desktop's turn protocol: a shared generation counter decides which of several
    overlapping turns may still touch a session, and an epoch counter keeps background turns
    from taking over a composer that the user has just emptied. */
module TurnProtocol {
  import opened Runs
  import opened Wrappers

  type SessionId = string

  /** The generation refs. A turn is named by its generation; `owners` is what each running
      turn has in its own owner ref, `returned` the turns whose chat call has come back. */
  datatype Turns = Turns(
    mono: nat,
    bySession: map<SessionId, nat>,
    draft: nat,
    owners: map<nat, Option<SessionId>>,
    returned: set<nat>)

  /** The composer refs: the selected session as state and as the ref that an effect copies it
      to, the epoch, and the draft turn's claim on the composer. */
  datatype Composer = Composer(
    active: Option<SessionId>,
    activeRef: Option<SessionId>,
    epoch: nat,
    draftEpoch: Option<nat>,
    known: set<SessionId>,
    draftInFlight: Option<nat>,
    sessions: set<SessionId>,
    restored: bool)

  datatype Desktop = Desktop(turns: Turns, composer: Composer)

  datatype Event =
    | StartTurn(target: Option<SessionId>, continuing: bool)
    | ChatReturned(generation: nat, session: SessionId)
    | TurnEnded(generation: nat)
    | SessionEvent(session: SessionId)
    | ResetComposer
    | SelectSession(session: SessionId)
    | SyncActiveRef
    | RefreshSessions(sessions: set<SessionId>)
    | AutoRestore(first: Option<SessionId>)

  const FRESH := Desktop(Turns(0, map[], 0, map[], {}),
                         Composer(None, None, 0, None, {}, None, {}, false))

  // ---------- generations ----------

  function BeginTurn(t: Turns, target: Option<SessionId>): (r: Turns) {
    var g := t.mono + 1;
    var next := t.(mono := g, owners := t.owners[g := target]);
    if target.Some? then next.(bySession := t.bySession[target.value := g]) else next.(draft := g)
  }

  predicate IsCurrent(t: Turns, g: nat) {
    g in t.owners &&
    match t.owners[g]
    case Some(s) => s in t.bySession && t.bySession[s] == g
    case None => t.draft == g
  }

  /** The session id a chat call came back with: a draft claims it unless a newer turn holds
      it already; any turn takes it as its owner. */
  function AdoptSession(t: Turns, g: nat, s: SessionId): (r: Turns)
    requires g in t.owners
  {
    var claims := t.owners[g].None? && (s !in t.bySession || t.bySession[s] < g);
    var next := if claims then t.(bySession := t.bySession[s := g]) else t;
    next.(owners := t.owners[g := Some(s)], returned := t.returned + {g})
  }

  // ---------- the composer ----------

  predicate MayAdopt(c: Composer, s: SessionId) {
    c.draftEpoch == Some(c.epoch) && s !in c.known
  }

  function ClaimComposer(c: Composer): (r: Composer) {
    c.(draftEpoch := Some(c.epoch), known := c.sessions, active := None)
  }

  function FocusFinished(c: Composer, s: SessionId): (r: Composer) {
    if c.activeRef == Some(s) || (c.activeRef.None? && MayAdopt(c, s)) then c.(active := Some(s)) else c
  }

  function FocusOnEvent(c: Composer, s: SessionId): (r: Composer) {
    if c.activeRef.None? && MayAdopt(c, s) then c.(active := Some(s)) else c
  }

  function Reset(c: Composer): (r: Composer) {
    c.(epoch := c.epoch + 1, active := None, activeRef := None)
  }

  function ReleaseClaim(c: Composer, g: nat): (r: Composer) {
    if c.draftInFlight == Some(g) then c.(draftInFlight := None, draftEpoch := None, known := {}) else c
  }

  // ---------- one event ----------

  /** A turn without a target never continues a session, and a chat call comes back once. */
  predicate Enabled(d: Desktop, e: Event) {
    match e
    case StartTurn(target, continuing) => target.Some? || !continuing
    case ChatReturned(g, _) => g in d.turns.owners && g !in d.turns.returned
    case AutoRestore(_) => !d.composer.restored
    case _ => true
  }

  function Advance(d: Desktop, e: Event): (r: Desktop) {
    if !Enabled(d, e) then d
    else
      match e
      case StartTurn(target, continuing) =>
        var claimed := if continuing then d.composer else ClaimComposer(d.composer);
        var g := d.turns.mono + 1;
        Desktop(BeginTurn(d.turns, target),
                if target.None? then claimed.(draftInFlight := Some(g)) else claimed)
      case ChatReturned(g, s) =>
        var turns := AdoptSession(d.turns, g, s);
        Desktop(turns, if IsCurrent(turns, g) then FocusFinished(d.composer, s) else d.composer)
      case TurnEnded(g) => d.(composer := ReleaseClaim(d.composer, g))
      case SessionEvent(s) => d.(composer := FocusOnEvent(d.composer, s))
      case ResetComposer => d.(composer := Reset(d.composer))
      case SelectSession(s) => d.(composer := d.composer.(active := Some(s), activeRef := Some(s)))
      case SyncActiveRef => d.(composer := d.composer.(activeRef := d.composer.active))
      case RefreshSessions(sessions) => d.(composer := d.composer.(sessions := sessions))
      case AutoRestore(first) =>
        d.(composer := d.composer.(restored := true, active := if first.Some? then first else d.composer.active))
  }

  // ---------- generation invariants ----------

  /** Every generation was handed out by the counter and holds at most one session: none while
      its turn is a draft, only its own target until its chat call comes back. */
  ghost predicate TurnsOk(t: Turns) {
    && (forall g :: g in t.owners ==> 1 <= g <= t.mono)
    && (forall g :: g in t.returned ==> g in t.owners && t.owners[g].Some?)
    && (forall s :: s in t.bySession ==> t.bySession[s] in t.owners)
    && (forall s :: s in t.bySession ==> t.owners[t.bySession[s]].Some?)
    && (forall s :: s in t.bySession ==>
          t.bySession[s] in t.returned || t.owners[t.bySession[s]] == Some(s))
  }

  lemma BeginKeeps(t: Turns, target: Option<SessionId>)
    requires TurnsOk(t)
    ensures TurnsOk(BeginTurn(t, target))
  {}

  lemma AdoptKeeps(t: Turns, g: nat, s: SessionId)
    requires TurnsOk(t) && g in t.owners && g !in t.returned
    ensures TurnsOk(AdoptSession(t, g, s))
  {}

  lemma AdvanceKeepsTurns(d: Desktop, e: Event)
    requires TurnsOk(d.turns)
    ensures TurnsOk(Advance(d, e).turns)
  {
    if Enabled(d, e) {
      match e
      case StartTurn(target, _) => BeginKeeps(d.turns, target);
      case ChatReturned(g, s) => AdoptKeeps(d.turns, g, s);
      case _ =>
    }
  }

  /** No session's generation ever goes back. */
  ghost predicate NeverOlder(before: Turns, after: Turns) {
    forall s :: s in before.bySession ==> s in after.bySession && before.bySession[s] <= after.bySession[s]
  }

  lemma AdvanceNeverOlder(d: Desktop, e: Event)
    requires TurnsOk(d.turns)
    ensures NeverOlder(d.turns, Advance(d, e).turns)
  {}

  ghost function NoOlderThan(start: Turns): (r: Desktop -> bool) {
    (d: Desktop) => TurnsOk(d.turns) && NeverOlder(start, d.turns)
  }

  lemma GenerationsNeverDecrease(d: Desktop, events: seq<Event>)
    requires TurnsOk(d.turns)
    ensures NeverOlder(d.turns, Run(Advance, d, events).turns) && TurnsOk(Run(Advance, d, events).turns)
  {
    forall x, e | NoOlderThan(d.turns)(x) ensures NoOlderThan(d.turns)(Advance(x, e)) {
      AdvanceKeepsTurns(x, e);
      AdvanceNeverOlder(x, e);
    }
    Kept(Advance, NoOlderThan(d.turns), d, events);
  }

  /** At most one turn is current for a session, and at most one draft is current. */
  lemma OneCurrentTurn(t: Turns, g: nat, h: nat)
    requires IsCurrent(t, g) && IsCurrent(t, h) && t.owners[g] == t.owners[h]
    ensures g == h
  {}

  /** A turn that holds no session and cannot claim one. */
  ghost predicate Retired(t: Turns, g: nat) {
    && TurnsOk(t) && g in t.owners && t.owners[g].Some? && !IsCurrent(t, g)
    && (g in t.returned || forall s :: s in t.bySession ==> t.bySession[s] != g)
  }

  lemma SupersededIsRetired(t: Turns, g: nat)
    requires TurnsOk(t) && g in t.owners && t.owners[g].Some? && !IsCurrent(t, g)
    ensures Retired(t, g)
  {}

  ghost function RetiredOf(g: nat): (r: Desktop -> bool) {
    (d: Desktop) => Retired(d.turns, g)
  }

  lemma RetiredStep(d: Desktop, e: Event, g: nat)
    requires Retired(d.turns, g)
    ensures Retired(Advance(d, e).turns, g)
  {
    AdvanceKeepsTurns(d, e);
  }

  /** A turn bound to a session and then superseded is never current again. */
  lemma SupersededForGood(d: Desktop, g: nat, events: seq<Event>)
    requires TurnsOk(d.turns) && g in d.turns.owners && d.turns.owners[g].Some? && !IsCurrent(d.turns, g)
    ensures !IsCurrent(Run(Advance, d, events).turns, g)
  {
    SupersededIsRetired(d.turns, g);
    forall x, e | RetiredOf(g)(x) ensures RetiredOf(g)(Advance(x, e)) { RetiredStep(x, e, g); }
    Kept(Advance, RetiredOf(g), d, events);
  }

  /** A draft whose chat call comes back is current for its session exactly when no newer turn
      has claimed that session, even if a newer draft has begun meanwhile. */
  lemma DraftHandoff(d: Desktop, g: nat, s: SessionId)
    requires TurnsOk(d.turns) && Enabled(d, ChatReturned(g, s)) && d.turns.owners[g].None?
    ensures IsCurrent(Advance(d, ChatReturned(g, s)).turns, g)
            <==> !(s in d.turns.bySession && d.turns.bySession[s] > g)
  {}

  // ---------- the composer ----------

  predicate ClaimOk(c: Composer) {
    c.draftEpoch.Some? ==> c.draftEpoch.value <= c.epoch
  }

  lemma ClaimStep(d: Desktop, e: Event)
    requires ClaimOk(d.composer)
    ensures ClaimOk(Advance(d, e).composer)
  {}

  lemma ClaimsNeverAhead(events: seq<Event>)
    ensures ClaimOk(Run(Advance, FRESH, events).composer)
  {
    var claimed := (d: Desktop) => ClaimOk(d.composer);
    forall d, e | claimed(d) ensures claimed(Advance(d, e)) { ClaimStep(d, e); }
    Kept(Advance, claimed, FRESH, events);
  }

  predicate StartsDraft(d: Desktop, e: Event) {
    e.StartTurn? && !e.continuing
  }

  /** No turn holds a claim of the present epoch. */
  predicate Unclaimed(d: Desktop) {
    ClaimOk(d.composer) && d.composer.draftEpoch != Some(d.composer.epoch)
  }

  lemma UnclaimedStep(d: Desktop, e: Event)
    requires Unclaimed(d) && !StartsDraft(d, e)
    ensures Unclaimed(Advance(d, e))
  {}

  /** The state after a reset, whatever happened before it. */
  function AfterReset(before: seq<Event>): (r: Desktop) {
    Advance(Run(Advance, FRESH, before), ResetComposer)
  }

  lemma ResetUnclaims(before: seq<Event>)
    ensures Unclaimed(AfterReset(before))
  {
    ClaimsNeverAhead(before);
  }

  /** After a composer reset and until a new draft turn starts, no session event and no
      finishing chat selects a session while the composer is empty, however turns, selections
      and list restores interleave. */
  lemma ResetIsABarrier(before: seq<Event>, after: seq<Event>, late: Event)
    requires !SomeStep(Advance, StartsDraft, AfterReset(before), after)
    requires late.SessionEvent? || late.ChatReturned?
    requires Run(Advance, AfterReset(before), after).composer.activeRef.None?
    ensures var d := Run(Advance, AfterReset(before), after);
            Advance(d, late).composer.active == d.composer.active
  {
    ResetUnclaims(before);
    forall d, e | Unclaimed(d) && !StartsDraft(d, e) ensures Unclaimed(Advance(d, e)) { UnclaimedStep(d, e); }
    KeptUntil(Advance, Unclaimed, StartsDraft, AfterReset(before), after);
  }

  /** What the user does to fill the composer: select a session or start a new draft turn. */
  predicate UserOpens(d: Desktop, e: Event) {
    e.SelectSession? || StartsDraft(d, e)
  }

  predicate IsEmpty(d: Desktop) {
    d.composer.active.None? && d.composer.activeRef.None?
  }

  /** Empty, unclaimed, and past the one restore of the start-up list. */
  predicate Guarded(d: Desktop) {
    Unclaimed(d) && IsEmpty(d) && d.composer.restored
  }

  lemma GuardedStep(d: Desktop, e: Event)
    requires Guarded(d) && !UserOpens(d, e)
    ensures Guarded(Advance(d, e))
  {}

  lemma GuardedStays(d: Desktop, after: seq<Event>)
    requires Guarded(d) && !SomeStep(Advance, UserOpens, d, after)
    ensures IsEmpty(Run(Advance, d, after))
  {
    forall x, e | Guarded(x) && !UserOpens(x, e) ensures Guarded(Advance(x, e)) { GuardedStep(x, e); }
    KeptUntil(Advance, Guarded, UserOpens, d, after);
  }

  /** Restoring the start-up list fills a composer emptied meanwhile. */
  lemma RestoreIgnoresReset(d: Desktop, s: SessionId)
    requires !d.composer.restored
    ensures !SomeStep(Advance, UserOpens, d, [AutoRestore(Some(s))])
    ensures Run(Advance, d, [AutoRestore(Some(s))]).composer.active == Some(s)
  {
    assert [AutoRestore(Some(s))][1..] == [];
    assert Run(Advance, Advance(d, AutoRestore(Some(s))), []) == Advance(d, AutoRestore(Some(s)));
  }

  /** After a reset the composer stays empty in every continuation in which the user neither
      selects a session nor starts a draft turn, exactly when the start-up list had been
      restored before the reset. */
  lemma EmptyUntilUserExactly(before: seq<Event>)
    ensures (forall after :: !SomeStep(Advance, UserOpens, AfterReset(before), after) ==>
               IsEmpty(Run(Advance, AfterReset(before), after)))
        <==> Run(Advance, FRESH, before).composer.restored
  {
    var d := AfterReset(before);
    ResetUnclaims(before);
    if d.composer.restored {
      forall after | !SomeStep(Advance, UserOpens, d, after) ensures IsEmpty(Run(Advance, d, after)) {
        GuardedStays(d, after);
      }
    } else {
      RestoreIgnoresReset(d, "");
    }
  }

  /** While the claim lasts it remembers the sessions that were there when it was made. */
  predicate Remembers(d: Desktop, snapshot: set<SessionId>) {
    d.composer.draftEpoch.Some? ==> d.composer.known == snapshot
  }

  function RemembersOf(snapshot: set<SessionId>): (r: Desktop -> bool) {
    d => Remembers(d, snapshot)
  }

  lemma RemembersStep(d: Desktop, e: Event, snapshot: set<SessionId>)
    requires Remembers(d, snapshot) && !StartsDraft(d, e)
    ensures Remembers(Advance(d, e), snapshot)
  {}

  lemma RemembersRun(d: Desktop, events: seq<Event>, snapshot: set<SessionId>)
    requires Remembers(d, snapshot) && !SomeStep(Advance, StartsDraft, d, events)
    ensures Remembers(Run(Advance, d, events), snapshot)
  {
    forall x, e | RemembersOf(snapshot)(x) && !StartsDraft(x, e)
      ensures RemembersOf(snapshot)(Advance(x, e))
    {
      RemembersStep(x, e, snapshot);
    }
    KeptUntil(Advance, RemembersOf(snapshot), StartsDraft, d, events);
  }

  /** A session that was known when the latest draft turn began is never adopted into the
      empty composer, neither by one of its events nor when its chat finishes. */
  lemma KnownSessionNeverAdopted(d: Desktop, start: Event, events: seq<Event>, late: Event)
    requires StartsDraft(d, start) && Enabled(d, start)
    requires !SomeStep(Advance, StartsDraft, Advance(d, start), events)
    requires (late.SessionEvent? || late.ChatReturned?) && late.session in d.composer.sessions
    requires Run(Advance, Advance(d, start), events).composer.activeRef.None?
    ensures var x := Run(Advance, Advance(d, start), events);
            Advance(x, late).composer.active == x.composer.active
  {
    RemembersRun(Advance(d, start), events, d.composer.sessions);
  }

  // ---------- the refs ----------

  class TurnRefs {
    var mono: nat
    var bySession: map<SessionId, nat>
    var draft: nat
    var owners: map<nat, Option<SessionId>>
    var returned: set<nat>

    ghost function View(): (t: Turns)
      reads this
    {
      Turns(mono, bySession, draft, owners, returned)
    }

    constructor ()
      ensures View() == FRESH.turns
    {
      mono, bySession, draft, owners, returned := 0, map[], 0, map[], {};
    }

    method Begin(target: Option<SessionId>) returns (generation: nat)
      modifies this
      ensures View() == BeginTurn(old(View()), target) && generation == mono
      ensures IsCurrent(View(), generation)
    {
      mono := mono + 1;
      generation := mono;
      owners := owners[generation := target];
      if target.Some? {
        bySession := bySession[target.value := generation];
      } else {
        draft := generation;
      }
    }

    method Adopt(generation: nat, session: SessionId)
      requires generation in owners
      modifies this
      ensures View() == AdoptSession(old(View()), generation, session)
    {
      returned := returned + {generation};
      var previousOwner := owners[generation];
      if previousOwner == Some(session) {
        assert owners[generation := Some(session)] == owners;
        return;
      }
      if previousOwner.None? {
        if session !in bySession || bySession[session] < generation {
          bySession := bySession[session := generation];
        }
      }
      owners := owners[generation := Some(session)];
    }

    method CheckCurrent(generation: nat) returns (current: bool)
      requires generation in owners
      ensures current <==> IsCurrent(View(), generation)
    {
      match owners[generation]
      case Some(s) => current := s in bySession && bySession[s] == generation;
      case None => current := draft == generation;
    }
  }

  class ComposerRefs {
    var active: Option<SessionId>
    var activeRef: Option<SessionId>
    var epoch: nat
    var draftEpoch: Option<nat>
    var known: set<SessionId>
    var draftInFlight: Option<nat>
    var sessions: set<SessionId>
    var restored: bool

    ghost function View(): (c: Composer)
      reads this
    {
      Composer(active, activeRef, epoch, draftEpoch, known, draftInFlight, sessions, restored)
    }

    constructor ()
      ensures View() == FRESH.composer
    {
      active, activeRef, epoch, draftEpoch := None, None, 0, None;
      known, draftInFlight, sessions, restored := {}, None, {}, false;
    }

    method ResetComposerSession()
      modifies this
      ensures View() == Reset(old(View()))
    {
      epoch := epoch + 1;
      activeRef := None;
      active := None;
    }

    method OnSessionEvent(session: SessionId)
      modifies this
      ensures View() == FocusOnEvent(old(View()), session)
    {
      if activeRef.None? && draftEpoch == Some(epoch) && session !in known {
        active := Some(session);
      }
    }

    method OnChatFinished(session: SessionId)
      modifies this
      ensures View() == FocusFinished(old(View()), session)
    {
      var mayAdoptEmptyComposer := draftEpoch == Some(epoch) && session !in known;
      if activeRef == Some(session) || (activeRef.None? && mayAdoptEmptyComposer) {
        active := Some(session);
      }
    }

    method ClaimForDraft()
      modifies this
      ensures View() == ClaimComposer(old(View()))
    {
      draftEpoch := Some(epoch);
      known := sessions;
      active := None;
    }

    method OnDraftEnded(generation: nat)
      modifies this
      ensures View() == ReleaseClaim(old(View()), generation)
    {
      if draftInFlight == Some(generation) {
        draftInFlight := None;
        draftEpoch := None;
        known := {};
      }
    }
  }
}
