/** The journal of a work item: what it looks like after any commands, and that it alone reconstructs the item. */
module WorkItemJournal {
  import opened Text
  import opened WorkItemModel

  /** What the journal is meant to remember. */
  datatype Tracked = Tracked(status: Status, due: Due, context: Option<Id>, archivedAt: Option<Instant>,
                             completedAt: Option<Instant>, cancelledAt: Option<Instant>, updatedAt: Instant, version: int)

  function Projection(x: Item): Tracked {
    Tracked(x.status, x.due, x.context, x.archivedAt, x.completedAt, x.cancelledAt, x.updatedAt, x.version)
  }

  /** An item together with every event it has emitted. */
  datatype Tracking = Tracking(item: Item, journal: seq<Event>)

  /** One call: who asks, what for, what the clock says, and whether the context it names is the owner's and active. */
  datatype Attempt = Attempt(owner: Id, command: Command, now: Instant, contextOk: bool)

  /** `mutate_owned` stores the outcome of `apply` unless it moves the item into a context that is missing or archived. */
  predicate TakesEffect(x: Item, a: Attempt)
    requires CommandOk(a.command)
  {
    var r := Apply(x, a.owner, a.command, a.now);
    r.Changed? && (r.item.context == x.context || r.item.context.None? || a.contextOk)
  }

  function Perform(t: Tracking, a: Attempt): Tracking
    requires CommandOk(a.command)
  {
    if !TakesEffect(t.item, a) then t else
      var r := Apply(t.item, a.owner, a.command, a.now);
      Tracking(r.item, t.journal + r.events)
  }

  predicate Commands(attempts: seq<Attempt>) {
    forall i :: 0 <= i < |attempts| ==> CommandOk(attempts[i].command)
  }

  function Run(t: Tracking, attempts: seq<Attempt>): Tracking
    requires Commands(attempts)
    decreases |attempts|
  {
    if attempts == [] then t else Run(Perform(t, attempts[0]), attempts[1..])
  }

  /** The event every creation emits. */
  function CreatedEventOf(x: Item): Event {
    Event(x.id, x.owner, x.owner, CreatedEvent, x.updatedAt, x.version, 0, x.context, CreatedMetadata(x.due, x.origin))
  }

  /** A just created item and its journal. */
  predicate Fresh(t: Tracking) {
    && Valid(t.item) && t.item.status == Open && t.item.version == 1 && t.item.archivedAt.None?
    && t.item.updatedAt == t.item.createdAt && t.journal == [CreatedEventOf(t.item)]
  }

  // ----- folding the journal -----

  /** What one event says about the item, given what the earlier ones said. */
  function Fold(was: Tracked, e: Event): Tracked {
    var now := was.(updatedAt := e.at, version := e.version);
    match e.metadata
    case CreatedMetadata(due, _) => Tracked(Open, due, e.context, None, None, None, e.at, e.version)
    case EditedMetadata(_, _, newDue) => if newDue.Some? then now.(due := newDue.value) else now
    case StatusMetadata(_, status) =>
      now.(status := status, completedAt := if status == Completed then Some(e.at) else None,
           cancelledAt := if status == Cancelled then Some(e.at) else None)
    case ContextMetadata(_, to) => now.(context := to)
    case EmptyMetadata => now.(archivedAt := if e.kind == ArchivedEvent then Some(e.at) else None)
  }

  const UNKNOWN := Tracked(Open, NoDue, None, None, None, None, 0, 0)

  /** Fold the whole journal, starting from nothing. */
  function Replay(was: Tracked, journal: seq<Event>): Tracked {
    if journal == [] then was else Fold(Replay(was, journal[..|journal| - 1]), journal[|journal| - 1])
  }

  lemma {:induction false} ReplayAppends(was: Tracked, a: seq<Event>, b: seq<Event>)
    ensures Replay(was, a + b) == Replay(Replay(was, a), b)
  {
    if b == [] {
      assert a + b == a;
    } else {
      var n := |a + b| - 1;
      assert (a + b)[..n] == a + b[..|b| - 1];
      ReplayAppends(was, a, b[..|b| - 1]);
    }
  }

  lemma ReplayOne(was: Tracked, e: Event)
    ensures Replay(was, [e]) == Fold(was, e)
  {
  }

  lemma ReplayUpToThree(was: Tracked, es: seq<Event>)
    requires 1 <= |es| <= 3
    ensures |es| == 1 ==> Replay(was, es) == Fold(was, es[0])
    ensures |es| == 2 ==> Replay(was, es) == Fold(Fold(was, es[0]), es[1])
    ensures |es| == 3 ==> Replay(was, es) == Fold(Fold(Fold(was, es[0]), es[1]), es[2])
  {
  }

  lemma OneEventCarriesTheChange(x: Item, next: Item, ch: Changes, d: Draft)
    requires Valid(x) && next == Updated(x, ch, next.updatedAt)
    requires ch == NOTHING.(status := ch.status, archived := ch.archived)
    requires if ch.status.Some? then ch.archived.None? && d.metadata == StatusMetadata(x.status, ch.status.value)
             else ch.archived.Some? && d.metadata == EmptyMetadata && (d.kind == ArchivedEvent <==> ch.archived.value)
    ensures Fold(Projection(x), MakeEvent(next, 0, d)) == Projection(next)
  {
  }

  /** The events of one effective command carry the item from its old tracked state to its new one. */
  lemma EventsCarryTheChange(x: Item, owner: Id, c: Command, now: Instant)
    requires Valid(x) && CommandOk(c) && Apply(x, owner, c, now).Changed?
    ensures var r := Apply(x, owner, c, now); Replay(Projection(x), r.events) == Projection(r.item)
  {
    var r := Apply(x, owner, c, now);
    ChangedIsThePlan(x, owner, c, now);
    if c.operation == EditFields {
      EditsCarryTheChange(x, c.edit.value, r.item);
    } else {
      var plan := Decide(x, owner, c);
      assert |plan.drafts| == 1;
      OneEventCarriesTheChange(x, r.item, plan.changes, plan.drafts[0]);
      assert r.events == [MakeEvent(r.item, 0, plan.drafts[0])];
      ReplayOne(Projection(x), r.events[0]);
    }
  }

  /** What the detail event and each half of a move do to the tracked state. */
  lemma EditFolds(was: Tracked, x: Item, ch: Changes, next: Item, i: nat)
    ensures var at := was.(updatedAt := next.updatedAt, version := next.version);
      var drafts := EditDrafts(x, ch);
      i < |drafts| ==>
        Fold(was, MakeEvents(next, drafts)[i]) ==
          if i == 0 && Details(ch) != [] then at.(due := if ch.due.Some? then ch.due.value else was.due)
          else at.(context := if ch.context.Some? then ch.context.value else was.context)
  {
  }

  lemma EditsCarryTheChange(x: Item, p: Edit, next: Item)
    requires Valid(x) && EditOk(p) && EditChanges(x, p) != NOTHING
    requires next == Updated(x, EditChanges(x, p), next.updatedAt)
    ensures var es := MakeEvents(next, EditDrafts(x, EditChanges(x, p)));
      1 <= |es| <= 3 && Replay(Projection(x), es) == Projection(next)
  {
    var ch := EditChanges(x, p);
    EditDraftsAreWellFormed(x, p);
    var es := MakeEvents(next, EditDrafts(x, ch));
    ReplayUpToThree(Projection(x), es);
    var one := Fold(Projection(x), es[0]);
    EditFolds(Projection(x), x, ch, next, 0);
    if |es| > 1 {
      EditFolds(one, x, ch, next, 1);
      EditFolds(Fold(one, es[1]), x, ch, next, 2);
    }
  }

  // ----- the shape of the journal -----

  predicate Group(events: seq<Event>, version: int) {
    1 <= |events| <= 3 && forall i :: 0 <= i < |events| ==> events[i].version == version && events[i].ordinal == i
  }

  /** One group per version 1..v, in order, and nothing else. */
  ghost predicate Grouped(journal: seq<Event>, v: nat) {
    if v == 0 then journal == []
    else exists k :: 0 <= k <= |journal| && Group(journal[k..], v) && Grouped(journal[..k], v - 1)
  }

  predicate Before(d: Event, e: Event) {
    d.version < e.version || (d.version == e.version && d.ordinal < e.ordinal)
  }

  /** Grouped journals are strictly ordered by (version, ordinal) and mention exactly the versions 1..v. */
  lemma {:induction false} GroupsAreOrdered(journal: seq<Event>, v: nat)
    requires Grouped(journal, v)
    ensures forall i, j :: 0 <= i < j < |journal| ==> Before(journal[i], journal[j])
    ensures forall i :: 0 <= i < |journal| ==> 1 <= journal[i].version <= v
    ensures v <= |journal| <= 3 * v
    decreases v
  {
    if v > 0 {
      var k :| 0 <= k <= |journal| && Group(journal[k..], v) && Grouped(journal[..k], v - 1);
      var head, tail := journal[..k], journal[k..];
      GroupsAreOrdered(head, v - 1);
      forall i | 0 <= i < |journal|
        ensures i < k ==> journal[i] == head[i]
        ensures i >= k ==> journal[i] == tail[i - k] && journal[i].version == v && journal[i].ordinal == i - k
      {
      }
    }
  }

  predicate OwnEvent(id: Id, owner: Id, e: Event) {
    EventOk(e) && e.item == id && e.owner == owner
  }

  predicate Owned(x: Item, journal: seq<Event>) {
    forall i :: 0 <= i < |journal| ==> OwnEvent(x.id, x.owner, journal[i])
  }

  lemma OwnedAppends(x: Item, next: Item, journal: seq<Event>, events: seq<Event>)
    requires Owned(x, journal) && Owned(next, events) && x.id == next.id && x.owner == next.owner
    ensures Owned(next, journal + events)
  {
  }

  ghost predicate Sound(t: Tracking) {
    && Valid(t.item) && Owned(t.item, t.journal)
    && t.journal != [] && t.journal[0].kind == CreatedEvent
    && Grouped(t.journal, t.item.version)
    && Replay(UNKNOWN, t.journal) == Projection(t.item)
  }

  lemma FreshIsSound(t: Tracking)
    requires Fresh(t)
    ensures Sound(t)
  {
    ReplayOne(UNKNOWN, t.journal[0]);
    MetadataFits(t.journal[0].metadata);
    assert t.journal[0..] == t.journal && Group(t.journal[0..], 1);
    assert Grouped(t.journal[..0], 0);
  }

  predicate SameIdentity(x: Item, y: Item) {
    && x.id == y.id && x.owner == y.owner && x.kind == y.kind && x.createdAt == y.createdAt && x.origin == y.origin
    && x.confirmedBy == y.confirmedBy && x.confirmedAt == y.confirmedAt && x.key == y.key && x.hash == y.hash
    && x.candidateKey == y.candidateKey
  }

  lemma AppendGroup(journal: seq<Event>, v: nat, events: seq<Event>)
    requires Grouped(journal, v) && Group(events, v + 1)
    ensures Grouped(journal + events, v + 1)
  {
    var k := |journal|;
    assert (journal + events)[k..] == events && (journal + events)[..k] == journal;
  }

  lemma ChangedKeepsIdentity(x: Item, owner: Id, c: Command, now: Instant)
    requires Valid(x) && CommandOk(c) && Apply(x, owner, c, now).Changed?
    ensures var r := Apply(x, owner, c, now);
      && SameIdentity(x, r.item) && r.item.version == x.version + 1
      && Owned(r.item, r.events) && Group(r.events, r.item.version)
  {
    ChangedIsThePlan(x, owner, c, now);
  }

  lemma ReplayAdvances(journal: seq<Event>, x: Item, events: seq<Event>, next: Item)
    requires Replay(UNKNOWN, journal) == Projection(x) && Replay(Projection(x), events) == Projection(next)
    ensures Replay(UNKNOWN, journal + events) == Projection(next)
  {
    ReplayAppends(UNKNOWN, journal, events);
  }

  lemma AdvanceKeepsSound(t: Tracking, next: Item, events: seq<Event>)
    requires Sound(t) && Valid(next) && SameIdentity(t.item, next) && next.version == t.item.version + 1
    requires Owned(next, events) && Group(events, next.version)
    requires Replay(Projection(t.item), events) == Projection(next)
    ensures Sound(Tracking(next, t.journal + events))
  {
    ReplayAdvances(t.journal, t.item, events, next);
    AppendGroup(t.journal, t.item.version, events);
    OwnedAppends(t.item, next, t.journal, events);
  }

  lemma PerformKeepsSound(t: Tracking, a: Attempt)
    requires Sound(t) && CommandOk(a.command)
    ensures Sound(Perform(t, a)) && SameIdentity(t.item, Perform(t, a).item) && t.journal <= Perform(t, a).journal
    ensures Perform(t, a).item.version
         == t.item.version + if TakesEffect(t.item, a) then 1 else 0
  {
    var r := Apply(t.item, a.owner, a.command, a.now);
    if TakesEffect(t.item, a) {
      ChangedIsThePlan(t.item, a.owner, a.command, a.now);
      ChangedKeepsIdentity(t.item, a.owner, a.command, a.now);
      EventsCarryTheChange(t.item, a.owner, a.command, a.now);
      AdvanceKeepsSound(t, r.item, r.events);
    }
  }

  lemma {:induction false} RunKeepsSound(t: Tracking, attempts: seq<Attempt>)
    requires Sound(t) && Commands(attempts)
    ensures Sound(Run(t, attempts)) && SameIdentity(t.item, Run(t, attempts).item) && t.journal <= Run(t, attempts).journal
    ensures Run(t, attempts).item.version >= t.item.version
    decreases |attempts|
  {
    if attempts != [] {
      PerformKeepsSound(t, attempts[0]);
      RunKeepsSound(Perform(t, attempts[0]), attempts[1..]);
    }
  }

  // ----- main results -----

  /**
   For every sequence of commands from creation on, the emitted journal alone reconstructs the item's status, due value,
   context, timestamps and version, and the item never changes its identity.
   */
  lemma JournalReconstructsTheItem(t: Tracking, attempts: seq<Attempt>)
    requires Fresh(t) && Commands(attempts)
    ensures var u := Run(t, attempts);
      Replay(UNKNOWN, u.journal) == Projection(u.item) && Valid(u.item) && SameIdentity(t.item, u.item)
  {
    FreshIsSound(t);
    RunKeepsSound(t, attempts);
  }

  /** One group of one to three events per version, strictly ordered, every event valid; nothing is ever removed. */
  lemma JournalShape(t: Tracking, attempts: seq<Attempt>)
    requires Fresh(t) && Commands(attempts)
    ensures var u := Run(t, attempts);
      && Valid(u.item) && Grouped(u.journal, u.item.version)
      && (forall i, j :: 0 <= i < j < |u.journal| ==> Before(u.journal[i], u.journal[j]))
      && u.item.version <= |u.journal| <= 3 * u.item.version
      && Owned(u.item, u.journal) && t.journal <= u.journal
  {
    FreshIsSound(t);
    RunKeepsSound(t, attempts);
    GroupsAreOrdered(Run(t, attempts).journal, Run(t, attempts).item.version);
  }

  /** How many of the calls change the item. */
  function EffectiveCount(t: Tracking, attempts: seq<Attempt>): nat
    requires Commands(attempts)
    decreases |attempts|
  {
    if attempts == [] then 0 else
      (if TakesEffect(t.item, attempts[0]) then 1 else 0)
      + EffectiveCount(Perform(t, attempts[0]), attempts[1..])
  }

  lemma {:induction false} VersionCountsEffectiveCommands(t: Tracking, attempts: seq<Attempt>)
    requires Sound(t) && Commands(attempts)
    ensures Run(t, attempts).item.version == t.item.version + EffectiveCount(t, attempts)
    decreases |attempts|
  {
    if attempts != [] {
      PerformKeepsSound(t, attempts[0]);
      VersionCountsEffectiveCommands(Perform(t, attempts[0]), attempts[1..]);
    }
  }

  lemma {:induction false} RunSplits(t: Tracking, attempts: seq<Attempt>, k: nat)
    requires k <= |attempts| && Commands(attempts)
    ensures Commands(attempts[..k]) && Commands(attempts[k..])
    ensures Run(t, attempts) == Run(Run(t, attempts[..k]), attempts[k..])
    decreases k
  {
    if k == 0 {
      assert attempts[k..] == attempts;
    } else {
      assert attempts[..k][1..] == attempts[1..][..k - 1] && attempts[1..][k - 1..] == attempts[k..];
      RunSplits(Perform(t, attempts[0]), attempts[1..], k - 1);
    }
  }

  ghost predicate EffectiveAt(t: Tracking, attempts: seq<Attempt>, i: nat)
    requires i < |attempts| && Commands(attempts)
  {
    TakesEffect(Run(t, attempts[..i]).item, attempts[i])
  }

  lemma EffectiveMeansExpectedVersion(x: Item, owner: Id, c: Command, now: Instant)
    requires CommandOk(c) && Apply(x, owner, c, now).Changed?
    ensures c.expected == x.version && owner == x.owner
  {
  }

  /** Among the calls carrying one expected version at most one takes effect: effective calls expect ever larger versions. */
  lemma OneWinnerPerVersion(t: Tracking, attempts: seq<Attempt>, i: nat, j: nat)
    requires Fresh(t) && Commands(attempts) && i < j < |attempts|
    requires EffectiveAt(t, attempts, i) && EffectiveAt(t, attempts, j)
    ensures attempts[i].command.expected < attempts[j].command.expected
  {
    FreshIsSound(t);
    var ai, aj := attempts[i], attempts[j];
    var before := Run(t, attempts[..i]);
    RunSplits(t, attempts[..j], i);
    assert attempts[..j][..i] == attempts[..i];
    var rest := attempts[..j][i..];
    assert rest[0] == ai;
    RunKeepsSound(t, attempts[..i]);
    PerformKeepsSound(before, ai);
    RunKeepsSound(Perform(before, ai), rest[1..]);
    EffectiveMeansExpectedVersion(before.item, ai.owner, ai.command, ai.now);
    EffectiveMeansExpectedVersion(Run(t, attempts[..j]).item, aj.owner, aj.command, aj.now);
  }

  /** The command moves its item into context `to`, which was found to be the owner's own and active. */
  predicate ConfirmedMove(a: Attempt, to: Option<Id>) {
    a.contextOk && a.command.operation == EditFields && a.command.edit.Some? && a.command.edit.value.context == Some(to)
  }

  /** An item is only ever in its first context, in none, or in one that was confirmed when it was moved there. */
  lemma {:induction false} ContextsWereConfirmed(t: Tracking, attempts: seq<Attempt>)
    requires Sound(t) && Commands(attempts)
    ensures var context := Run(t, attempts).item.context;
      context == t.item.context || context.None? || exists k :: 0 <= k < |attempts| && ConfirmedMove(attempts[k], context)
    decreases |attempts|
  {
    if attempts != [] {
      var a, rest := attempts[0], attempts[1..];
      PerformKeepsSound(t, a);
      ContextsWereConfirmed(Perform(t, a), rest);
      MovesAreConfirmed(t, a);
      var context := Run(t, attempts).item.context;
      if k :| 0 <= k < |rest| && ConfirmedMove(rest[k], context) {
        assert attempts[k + 1] == rest[k];
      }
    }
  }

  lemma MovesAreConfirmed(t: Tracking, a: Attempt)
    requires Sound(t) && CommandOk(a.command)
    ensures var context := Perform(t, a).item.context;
      context == t.item.context || context.None? || ConfirmedMove(a, context)
  {
    if TakesEffect(t.item, a) { ChangedIsThePlan(t.item, a.owner, a.command, a.now); }
  }

  /** Nobody but the owner ever changes the item or its journal. */
  lemma StrangersChangeNothing(t: Tracking, a: Attempt)
    requires CommandOk(a.command) && a.owner != t.item.owner
    ensures Perform(t, a) == t && Apply(t.item, a.owner, a.command, a.now) == NotFound
  {
  }

  /** Moving an item between contexts leaves one departure and one arrival, in this order, under one version. */
  lemma ContextMoveIsTwoEvents(x: Item, c: Command, now: Instant, from: Id, to: Id)
    requires Valid(x) && CommandOk(c) && c.operation == EditFields && c.edit.value == Edit(None, None, None, Some(Some(to)))
    requires x.context == Some(from) && from != to && now >= x.createdAt
    requires c.expected == x.version && x.archivedAt.None? && Active(x.status)
    ensures var r := Apply(x, x.owner, c, now);
      && r.Changed? && |r.events| == 2 && r.item.context == Some(to)
      && r.events[0].kind == ContextDisassociated && r.events[0].context == Some(from)
      && r.events[1].kind == ContextAssociated && r.events[1].context == Some(to)
      && r.events[0].version == r.events[1].version == x.version + 1
  {
    ApplyIsClosed(x, x.owner, c, now);
    UpdateKeepsTexts(x, x.owner, c, now);
  }
}
