/** The tracked work item: its validators, the events it may emit, and `apply`. */
module WorkItemModel {
  import opened Collections
  import opened Text

  type Id = int
  type Instant = int

  datatype Kind = ActionKind | ObligationKind
  datatype Status = Open | InProgress | Completed | Cancelled
  datatype Origin = Manual | AiConfirmed

  /** `at` is the UTC instant; together with the confirmed zone it determines the wall time. */
  datatype Due = NoDue | DateDue(date: int, zone: string) | TimedDue(at: Instant, zone: string)

  datatype Item = Item(
    id: Id, owner: Id, kind: Kind, title: string, description: Option<string>, context: Option<Id>, due: Due,
    status: Status, version: int, completedAt: Option<Instant>, cancelledAt: Option<Instant>, archivedAt: Option<Instant>,
    createdAt: Instant, updatedAt: Instant, origin: Origin, confirmedBy: Option<Id>, confirmedAt: Option<Instant>,
    key: string, hash: string, candidateKey: Option<string>)

  // ----- field validators -----

  /** `title_text`. */
  function TitleText(raw: string): Option<string> {
    var v := Strip(raw);
    if 1 <= |v| <= 200 && '\0' !in v then Some(v) else None
  }

  /** `description_text`: a blank description is stored as none at all. */
  function DescriptionText(raw: Option<string>): Option<Option<string>> {
    if raw.None? then Some(None) else
      var v := Strip(raw.value);
      if |v| > 4000 || '\0' in v then None else if v == [] then Some(None) else Some(Some(v))
  }

  predicate TitleOk(t: string) {
    Trimmed(t) && 1 <= |t| <= 200 && '\0' !in t
  }

  predicate DescriptionOk(d: Option<string>) {
    d.Some? ==> Trimmed(d.value) && 1 <= |d.value| <= 4000 && '\0' !in d.value
  }

  predicate StartsWith(s: string, prefix: string) {
    |prefix| <= |s| && s[..|prefix|] == prefix
  }

  /** The part of `confirmed_zone` that does not ask the time zone database. */
  predicate ZoneName(z: string) {
    && 1 <= |z| <= 64 && z != "localtime" && z != "posixrules" && '\0' !in z
    && !StartsWith(z, "posix/") && !StartsWith(z, "right/")
  }

  predicate DueOk(d: Due) {
    d.NoDue? || ZoneName(d.zone)
  }

  predicate KeyOk(k: string) {
    && 1 <= |k| <= 128
    && forall i :: 0 <= i < |k| ==> 'A' <= k[i] <= 'Z' || 'a' <= k[i] <= 'z' || '0' <= k[i] <= '9' || k[i] in "._~-"
  }

  predicate DigestOk(d: string) {
    |d| == 64 && forall i :: 0 <= i < 64 ==> '0' <= d[i] <= '9' || 'a' <= d[i] <= 'f'
  }

  predicate NotBefore(t: Option<Instant>, created: Instant) {
    t.Some? ==> created <= t.value
  }

  /** `BusinessWorkItem.invariants` with the field constraints that normalise nothing. */
  predicate Invariants(x: Item) {
    && DueOk(x.due) && x.version >= 1 && KeyOk(x.key) && DigestOk(x.hash)
    && (x.status == Completed <==> x.completedAt.Some?) && (x.status == Cancelled <==> x.cancelledAt.Some?)
    && x.createdAt <= x.updatedAt && NotBefore(x.completedAt, x.createdAt) && NotBefore(x.cancelledAt, x.createdAt)
    && NotBefore(x.archivedAt, x.createdAt) && NotBefore(x.confirmedAt, x.createdAt)
    && (x.origin == Manual ==> x.confirmedBy.None? && x.confirmedAt.None? && x.candidateKey.None?)
    && (x.origin == AiConfirmed ==> x.confirmedBy == Some(x.owner) && x.confirmedAt.Some? && x.candidateKey.Some?)
    && (x.candidateKey.Some? ==> DigestOk(x.candidateKey.value))
  }

  predicate Valid(x: Item) {
    TitleOk(x.title) && DescriptionOk(x.description) && Invariants(x)
  }

  /** `BusinessWorkItem.model_validate`: normalise the texts, then check; None is a validation error. */
  function Validate(x: Item): Option<Item> {
    var title, description := TitleText(x.title), DescriptionText(x.description);
    if title.None? || description.None? then None else
      var y := x.(title := title.value, description := description.value);
      if Invariants(y) then Some(y) else None
  }

  lemma TitleTextNormalises(raw: string)
    ensures TitleText(raw).Some? ==> TitleOk(TitleText(raw).value) && TitleText(raw).value == Strip(raw)
    ensures TitleOk(raw) <==> TitleText(raw) == Some(raw)
    ensures TitleText(raw).None? <==> Blank(raw) || |Strip(raw)| > 200 || '\0' in Strip(raw)
  {
    var i, j := StripCutsOnlyBlanks(raw);
    StripIdempotent(raw);
    RequireTextIsStable(raw);
  }

  lemma DescriptionTextNormalises(raw: Option<string>)
    ensures DescriptionText(raw).Some? ==> DescriptionOk(DescriptionText(raw).value)
    ensures DescriptionOk(raw) <==> DescriptionText(raw) == Some(raw)
    ensures DescriptionText(raw) == Some(None) <==> raw == None || Blank(raw.value)
    ensures DescriptionText(raw).None? <==> raw.Some? && (|Strip(raw.value)| > 4000 || '\0' in Strip(raw.value))
    ensures DescriptionText(raw).Some? && DescriptionText(raw).value.Some? ==> DescriptionText(raw).value.value == Strip(raw.value)
  {
    if raw.Some? {
      var i, j := StripCutsOnlyBlanks(raw.value);
      StripIdempotent(raw.value);
      RequireTextIsStable(raw.value);
    }
  }

  /** Valid items are exactly the fixed points of validation, and validation only ever yields valid items. */
  lemma ValidationFixesValidItems(x: Item)
    ensures Valid(x) <==> Validate(x) == Some(x)
    ensures Validate(x).Some? ==> Valid(Validate(x).value)
  {
    TitleTextNormalises(x.title);
    DescriptionTextNormalises(x.description);
  }

  // ----- events -----

  datatype EventType = CreatedEvent | EditedEvent | StatusChanged | ArchivedEvent | RestoredEvent | ContextAssociated | ContextDisassociated

  datatype Field = BusinessContextId | Description | DueField | Title

  datatype Metadata =
    | CreatedMetadata(due: Due, origin: Origin)
    | EditedMetadata(fields: seq<Field>, oldDue: Option<Due>, newDue: Option<Due>)
    | StatusMetadata(oldStatus: Status, newStatus: Status)
    | ContextMetadata(from: Option<Id>, to: Option<Id>)
    | EmptyMetadata

  datatype Event = Event(item: Id, owner: Id, actor: Id, kind: EventType, at: Instant, version: int, ordinal: int,
                         context: Option<Id>, metadata: Metadata)

  /** The payload model each event type is parsed with. */
  predicate Typed(kind: EventType, m: Metadata) {
    match kind
    case CreatedEvent => m.CreatedMetadata?
    case EditedEvent => m.EditedMetadata?
    case StatusChanged => m.StatusMetadata?
    case ArchivedEvent => m.EmptyMetadata?
    case RestoredEvent => m.EmptyMetadata?
    case ContextAssociated => m.ContextMetadata?
    case ContextDisassociated => m.ContextMetadata?
  }

  predicate MetadataOk(m: Metadata) {
    match m
    case EditedMetadata(fields, oldDue, newDue) =>
      && fields != [] && Distinct(fields) && BusinessContextId !in fields
      && (oldDue.Some? <==> DueField in fields) && (newDue.Some? <==> DueField in fields)
      && (oldDue.Some? ==> DueOk(oldDue.value)) && (newDue.Some? ==> DueOk(newDue.value))
    case ContextMetadata(from, to) => from != to
    case CreatedMetadata(due, _) => DueOk(due)
    case _ => true
  }

  /** UTF-8 bytes of one character inside a canonical JSON string. */
  function CharBytes(c: char): nat {
    var n := c as int;
    if c in "\"\\" then 2
    else if n == 8 || n == 9 || n == 10 || n == 12 || n == 13 then 2
    else if n < 0x20 then 6
    else if n < 0x80 then 1
    else if n < 0x800 then 2
    else if n < 0x10000 then 3
    else 4
  }

  function TextBytes(s: string): nat {
    if s == [] then 0 else CharBytes(s[0]) + TextBytes(s[1..])
  }

  /** An ISO instant with microseconds and an offset to the second. */
  const INSTANT_TEXT := 35

  /** The longest canonical JSON of a due value. In these templates a single quote stands for the double quote of JSON. */
  function DueBytes(d: Due): nat {
    match d
    case NoDue => |"{'kind':'none'}"|
    case DateDue(_, zone) => |"{'date':'YYYY-MM-DD','kind':'date','timezone':''}"| + TextBytes(zone)
    case TimedDue(_, zone) => |"{'at':'','kind':'datetime','timezone':''}"| + INSTANT_TEXT + TextBytes(zone)
  }

  function OptionalDueBytes(d: Option<Due>): nat {
    if d.None? then |"null"| else DueBytes(d.value)
  }

  function FieldBytes(f: Field): nat {
    match f
    case BusinessContextId => |"'business_context_id',"|
    case Description => |"'description',"|
    case DueField => |"'due',"|
    case Title => |"'title',"|
  }

  function FieldsBytes(fields: seq<Field>): nat {
    if fields == [] then 0 else FieldBytes(fields[0]) + FieldsBytes(fields[1..])
  }

  /** A UUID is 36 characters; enumerated values are at most twelve. */
  function MetadataBytes(m: Metadata): nat {
    match m
    case CreatedMetadata(due, _) => |"{'creation_origin':'ai_confirmed','due':,'status':'open'}"| + DueBytes(due)
    case EditedMetadata(fields, oldDue, newDue) =>
      |"{'changed_fields':[],'new_due':,'old_due':}"| + FieldsBytes(fields) + OptionalDueBytes(oldDue) + OptionalDueBytes(newDue)
    case StatusMetadata(_, _) => |"{'new_status':'in_progress','old_status':'in_progress'}"|
    case ContextMetadata(_, _) => |"{'from_context_id':'','to_context_id':''}"| + 2 * 36
    case EmptyMetadata => |"{}"|
  }

  const METADATA_LIMIT := 8192

  /** `WorkItemEvent`: typed payload, actor, size bound and the two context rules. */
  predicate EventOk(e: Event) {
    && e.actor == e.owner && e.version >= 1 && e.ordinal >= 0 && Typed(e.kind, e.metadata) && MetadataOk(e.metadata)
    && MetadataBytes(e.metadata) <= METADATA_LIMIT
    && (e.kind == ContextAssociated ==> e.context.Some? && e.context == e.metadata.to)
    && (e.kind == ContextDisassociated ==> e.context.Some? && e.context == e.metadata.from)
  }

  lemma {:induction false} TextBytesBound(s: string)
    ensures TextBytes(s) <= 6 * |s|
  {
    if s != [] { TextBytesBound(s[1..]); }
  }

  lemma DueBytesBound(d: Due)
    requires DueOk(d)
    ensures DueBytes(d) <= 500
  {
    if !d.NoDue? { TextBytesBound(d.zone); }
  }

  lemma DistinctDetailsAreFew(fields: seq<Field>)
    requires Distinct(fields) && BusinessContextId !in fields
    ensures |fields| <= 3
  {
    var names := {Description, DueField, Title};
    DistinctCount(fields);
    forall f | f in Elements(fields) ensures f in names {
      assert !f.BusinessContextId?;
    }
    SubsetCount(Elements(fields), names);
  }

  /** Distinct names of the three detail fields are at most three, so their list is short. */
  lemma FieldsBytesBound(fields: seq<Field>)
    requires Distinct(fields) && BusinessContextId !in fields
    ensures FieldsBytes(fields) <= 60
  {
    DistinctDetailsAreFew(fields);
    FieldsBytesByLength(fields);
  }

  lemma {:induction false} FieldsBytesByLength(fields: seq<Field>)
    requires BusinessContextId !in fields
    ensures FieldsBytes(fields) <= 20 * |fields|
  {
    if fields != [] {
      assert fields[0] in fields;
      FieldsBytesByLength(fields[1..]);
    }
  }

  /** No well-formed payload can reach the 8 KiB limit. */
  lemma MetadataFits(m: Metadata)
    requires MetadataOk(m)
    ensures MetadataBytes(m) <= METADATA_LIMIT
  {
    match m
    case CreatedMetadata(due, _) => DueBytesBound(due);
    case EditedMetadata(fields, oldDue, newDue) =>
      FieldsBytesBound(fields);
      if oldDue.Some? { DueBytesBound(oldDue.value); }
      if newDue.Some? { DueBytesBound(newDue.value); }
    case _ =>
  }

  // ----- commands -----

  /** A patch: None leaves the field alone; a given description or context may clear it. */
  datatype Edit = Edit(title: Option<string>, description: Option<Option<string>>, due: Option<Due>, context: Option<Option<Id>>)

  datatype Operation = EditFields | SetStatus | Archive | Restore

  datatype Command = Command(operation: Operation, expected: int, edit: Option<Edit>, status: Option<Status>, reopen: bool)

  predicate EditOk(p: Edit) {
    && (p.title.Some? ==> TitleOk(p.title.value)) && (p.description.Some? ==> DescriptionOk(p.description.value))
    && (p.due.Some? ==> DueOk(p.due.value))
  }

  /** `WorkItemCommand.shape`. */
  predicate CommandOk(c: Command) {
    && c.expected >= 1
    && (c.operation == EditFields <==> c.edit.Some?) && (c.operation == SetStatus <==> c.status.Some?)
    && (c.reopen ==> c.operation == SetStatus)
    && (c.edit.Some? ==> EditOk(c.edit.value))
  }

  // ----- apply -----

  datatype Reason = VersionConflict | NotEditable | InvalidTransition

  /** `Rejected`: a validator refused what apply built. */
  datatype Outcome = NotFound | Conflict(reason: Reason) | Rejected | Unchanged | Changed(item: Item, events: seq<Event>)

  predicate Active(s: Status) {
    s == Open || s == InProgress
  }

  datatype Changes = Changes(title: Option<string>, description: Option<Option<string>>, due: Option<Due>,
                             context: Option<Option<Id>>, status: Option<Status>, archived: Option<bool>)

  const NOTHING := Changes(None, None, None, None, None, None)

  datatype Draft = Draft(kind: EventType, context: Option<Id>, metadata: Metadata)

  datatype Decision = Refuse(outcome: Outcome) | Plan(changes: Changes, drafts: seq<Draft>)

  function Differing<T(==)>(given: Option<T>, current: T): Option<T> {
    if given.Some? && given.value != current then given else None
  }

  function EditChanges(x: Item, p: Edit): Changes {
    Changes(Differing(p.title, x.title), Differing(p.description, x.description), Differing(p.due, x.due),
            Differing(p.context, x.context), None, None)
  }

  /** The changed detail fields in the order title, description, due. */
  function Details(ch: Changes): seq<Field> {
    (if ch.title.Some? then [Title] else []) + (if ch.description.Some? then [Description] else [])
    + (if ch.due.Some? then [DueField] else [])
  }

  function EditDrafts(x: Item, ch: Changes): seq<Draft> {
    var details := Details(ch);
    var edited := if details == [] then [] else
      [Draft(EditedEvent, x.context, EditedMetadata(details, if ch.due.Some? then Some(x.due) else None, ch.due))];
    if ch.context.None? then edited else
      var move := ContextMetadata(x.context, ch.context.value);
      edited + (if x.context.Some? then [Draft(ContextDisassociated, x.context, move)] else [])
             + (if ch.context.value.Some? then [Draft(ContextAssociated, ch.context.value, move)] else [])
  }

  function DecideStatus(x: Item, target: Status, reopen: bool): Decision {
    var reopening := !Active(x.status) && target == Open;
    if reopen != reopening || (!Active(x.status) && target != x.status && !reopening) then Refuse(Conflict(InvalidTransition))
    else if target == x.status then Plan(NOTHING, [])
    else Plan(NOTHING.(status := Some(target)), [Draft(StatusChanged, x.context, StatusMetadata(x.status, target))])
  }

  function Decide(x: Item, owner: Id, c: Command): Decision
    requires CommandOk(c)
  {
    if owner != x.owner then Refuse(NotFound)
    else if c.expected != x.version then Refuse(Conflict(VersionConflict))
    else if x.archivedAt.Some? && c.operation != Restore && c.operation != Archive then Refuse(Conflict(NotEditable))
    else match c.operation
      case EditFields =>
        if !Active(x.status) then Refuse(Conflict(NotEditable))
        else Plan(EditChanges(x, c.edit.value), EditDrafts(x, EditChanges(x, c.edit.value)))
      case SetStatus => DecideStatus(x, c.status.value, c.reopen)
      case Archive =>
        if x.archivedAt.None? then Plan(NOTHING.(archived := Some(true)), [Draft(ArchivedEvent, x.context, EmptyMetadata)])
        else Plan(NOTHING, [])
      case Restore =>
        if x.archivedAt.Some? then Plan(NOTHING.(archived := Some(false)), [Draft(RestoredEvent, x.context, EmptyMetadata)])
        else Plan(NOTHING, [])
  }

  /** The next version of the item, before validation. */
  function Updated(x: Item, ch: Changes, now: Instant): Item {
    x.(title := if ch.title.Some? then ch.title.value else x.title,
       description := if ch.description.Some? then ch.description.value else x.description,
       due := if ch.due.Some? then ch.due.value else x.due,
       context := if ch.context.Some? then ch.context.value else x.context,
       status := if ch.status.Some? then ch.status.value else x.status,
       completedAt := if ch.status.None? then x.completedAt else if ch.status.value == Completed then Some(now) else None,
       cancelledAt := if ch.status.None? then x.cancelledAt else if ch.status.value == Cancelled then Some(now) else None,
       archivedAt := if ch.archived.None? then x.archivedAt else if ch.archived.value then Some(now) else None,
       updatedAt := now, version := x.version + 1)
  }

  function MakeEvent(x: Item, ordinal: int, d: Draft): Event {
    Event(x.id, x.owner, x.owner, d.kind, x.updatedAt, x.version, ordinal, d.context, d.metadata)
  }

  function MakeEvents(x: Item, drafts: seq<Draft>): seq<Event> {
    seq(|drafts|, i requires 0 <= i < |drafts| => MakeEvent(x, i, drafts[i]))
  }

  predicate EventsOk(events: seq<Event>) {
    forall i :: 0 <= i < |events| ==> EventOk(events[i])
  }

  function Apply(x: Item, owner: Id, c: Command, now: Instant): Outcome
    requires CommandOk(c)
  {
    match Decide(x, owner, c)
    case Refuse(outcome) => outcome
    case Plan(changes, drafts) =>
      if changes == NOTHING then Unchanged else
        match Validate(Updated(x, changes, now))
        case None => Rejected
        case Some(next) => if EventsOk(MakeEvents(next, drafts)) then Changed(next, MakeEvents(next, drafts)) else Rejected
  }

  /** The loop over the supplied fields of a patch, in their sorted order. */
  method CollectChanges(x: Item, p: Edit) returns (changes: Changes)
    ensures changes == EditChanges(x, p)
  {
    var fields := [BusinessContextId, Description, DueField, Title];
    changes := NOTHING;
    for i := 0 to |fields|
      invariant changes.context == (if i > 0 then Differing(p.context, x.context) else None)
      invariant changes.description == (if i > 1 then Differing(p.description, x.description) else None)
      invariant changes.due == (if i > 2 then Differing(p.due, x.due) else None)
      invariant changes.title == (if i > 3 then Differing(p.title, x.title) else None)
      invariant changes.status == None && changes.archived == None
    {
      match fields[i]
      case BusinessContextId => if p.context.Some? && p.context.value != x.context { changes := changes.(context := p.context); }
      case Description =>
        if p.description.Some? && p.description.value != x.description { changes := changes.(description := p.description); }
      case DueField => if p.due.Some? && p.due.value != x.due { changes := changes.(due := p.due); }
      case Title => if p.title.Some? && p.title.value != x.title { changes := changes.(title := p.title); }
    }
  }

  /** The event list an edit appends to: details first, then leaving the old context, then joining the new one. */
  method DraftEdit(x: Item, changes: Changes) returns (drafts: seq<Draft>)
    ensures drafts == EditDrafts(x, changes)
  {
    drafts := [];
    var details := Details(changes);
    if details != [] {
      drafts := [Draft(EditedEvent, x.context, EditedMetadata(details, if changes.due.Some? then Some(x.due) else None, changes.due))];
    }
    if changes.context.Some? {
      var target := changes.context.value;
      if x.context.Some? { drafts := drafts + [Draft(ContextDisassociated, x.context, ContextMetadata(x.context, target))]; }
      if target.Some? { drafts := drafts + [Draft(ContextAssociated, target, ContextMetadata(x.context, target))]; }
    }
  }

  /** Build and validate the events one by one; the first refused one aborts. */
  method BuildEvents(next: Item, drafts: seq<Draft>) returns (events: Option<seq<Event>>)
    ensures events == if EventsOk(MakeEvents(next, drafts)) then Some(MakeEvents(next, drafts)) else None
  {
    ghost var all := MakeEvents(next, drafts);
    var built: seq<Event> := [];
    for i := 0 to |drafts|
      invariant built == all[..i] && EventsOk(built)
    {
      var event := MakeEvent(next, i, drafts[i]);
      assert all[i] == event;
      if !EventOk(event) { return None; }
      built := built + [event];
    }
    assert all[..|drafts|] == all;
    events := Some(built);
  }

  /** `apply` as it runs: changes and drafts are collected first, then the next version and its events are built. */
  method ApplyCommand(x: Item, owner: Id, c: Command, now: Instant) returns (r: Outcome)
    requires CommandOk(c)
    ensures r == Apply(x, owner, c, now)
  {
    if owner != x.owner { return NotFound; }
    if c.expected != x.version { return Conflict(VersionConflict); }
    if x.archivedAt.Some? && c.operation != Restore && c.operation != Archive { return Conflict(NotEditable); }
    var changes, drafts := NOTHING, [];
    if c.operation == EditFields {
      if x.status != Open && x.status != InProgress { return Conflict(NotEditable); }
      changes := CollectChanges(x, c.edit.value);
      drafts := DraftEdit(x, changes);
    } else if c.operation == SetStatus {
      var target, terminal := c.status.value, x.status == Completed || x.status == Cancelled;
      var reopening := terminal && target == Open;
      if c.reopen != reopening || (terminal && target != x.status && !reopening) { return Conflict(InvalidTransition); }
      if target != x.status {
        changes := changes.(status := Some(target));
        drafts := [Draft(StatusChanged, x.context, StatusMetadata(x.status, target))];
      }
    } else if c.operation == Archive && x.archivedAt.None? {
      changes := changes.(archived := Some(true));
      drafts := [Draft(ArchivedEvent, x.context, EmptyMetadata)];
    } else if c.operation == Restore && x.archivedAt.Some? {
      changes := changes.(archived := Some(false));
      drafts := [Draft(RestoredEvent, x.context, EmptyMetadata)];
    }
    if changes == NOTHING { return Unchanged; }
    var next := Validate(Updated(x, changes, now));
    if next.None? { return Rejected; }
    var events := BuildEvents(next.value, drafts);
    r := if events.None? then Rejected else Changed(next.value, events.value);
  }

  // ----- what apply guarantees -----

  /** The command would change something. */
  predicate Effective(x: Item, owner: Id, c: Command)
    requires CommandOk(c)
  {
    Decide(x, owner, c).Plan? && Decide(x, owner, c).changes != NOTHING
  }

  predicate DraftOk(d: Draft) {
    && Typed(d.kind, d.metadata) && MetadataOk(d.metadata)
    && (d.kind == ContextAssociated ==> d.context.Some? && d.context == d.metadata.to)
    && (d.kind == ContextDisassociated ==> d.context.Some? && d.context == d.metadata.from)
  }

  lemma EditDraftsAreWellFormed(x: Item, p: Edit)
    requires Valid(x) && EditOk(p)
    ensures var ch := EditChanges(x, p);
      && |EditDrafts(x, ch)| <= 3 && (ch != NOTHING ==> EditDrafts(x, ch) != [])
      && forall i :: 0 <= i < |EditDrafts(x, ch)| ==> DraftOk(EditDrafts(x, ch)[i])
  {
    var ch := EditChanges(x, p);
    assert Details(ch) != [] ==> MetadataOk(EditedMetadata(Details(ch), if ch.due.Some? then Some(x.due) else None, ch.due));
  }

  lemma DraftsAreWellFormed(x: Item, owner: Id, c: Command, next: Item)
    requires Valid(x) && CommandOk(c) && Effective(x, owner, c)
    requires next.version >= 1
    ensures EventsOk(MakeEvents(next, Decide(x, owner, c).drafts)) && 1 <= |Decide(x, owner, c).drafts| <= 3
  {
    var plan := Decide(x, owner, c);
    if c.operation == EditFields { EditDraftsAreWellFormed(x, c.edit.value); }
    forall i | 0 <= i < |plan.drafts| ensures EventOk(MakeEvents(next, plan.drafts)[i]) {
      assert DraftOk(plan.drafts[i]);
      MetadataFits(plan.drafts[i].metadata);
    }
  }

  lemma UpdatedIsValid(x: Item, owner: Id, c: Command, now: Instant)
    requires Valid(x) && CommandOk(c) && Effective(x, owner, c)
    ensures Valid(Updated(x, Decide(x, owner, c).changes, now)) <==> now >= x.createdAt
  {
  }

  /**
   `apply` is closed on valid aggregates. It is refused by a validator exactly when an effective command meets a clock
   that is behind the item's creation; otherwise the next item and all its events are valid.
   */
  lemma ApplyIsClosed(x: Item, owner: Id, c: Command, now: Instant)
    requires Valid(x) && CommandOk(c)
    ensures var r := Apply(x, owner, c, now);
      && (r.Rejected? <==> Effective(x, owner, c) && now < x.createdAt)
      && (r.Changed? <==> Effective(x, owner, c) && now >= x.createdAt)
      && (r.Changed? ==> Valid(r.item) && EventsOk(r.events) && 1 <= |r.events| <= 3)
  {
    if Effective(x, owner, c) {
      var changes := Decide(x, owner, c).changes;
      var next := Updated(x, changes, now);
      UpdatedIsValid(x, owner, c, now);
      ValidationFixesValidItems(next);
      DraftsAreWellFormed(x, owner, c, next);
      UpdateKeepsTexts(x, owner, c, now);
    }
  }

  lemma UpdateKeepsTexts(x: Item, owner: Id, c: Command, now: Instant)
    requires Valid(x) && CommandOk(c) && Effective(x, owner, c)
    ensures var next := Updated(x, Decide(x, owner, c).changes, now);
      Validate(next) == if Invariants(next) then Some(next) else None
  {
    var next := Updated(x, Decide(x, owner, c).changes, now);
    TitleTextNormalises(next.title);
    DescriptionTextNormalises(next.description);
  }

  /** An effective command yields its planned update and the planned events, numbered in order under the new version. */
  lemma ChangedIsThePlan(x: Item, owner: Id, c: Command, now: Instant)
    requires Valid(x) && CommandOk(c) && Apply(x, owner, c, now).Changed?
    ensures Effective(x, owner, c) && now >= x.createdAt
    ensures var r := Apply(x, owner, c, now);
      && r.item == Updated(x, Decide(x, owner, c).changes, now) && Valid(r.item)
      && r.events == MakeEvents(r.item, Decide(x, owner, c).drafts) && EventsOk(r.events) && 1 <= |r.events| <= 3
  {
    ApplyIsClosed(x, owner, c, now);
    UpdateKeepsTexts(x, owner, c, now);
  }

  function Given<T>(given: Option<T>, current: T): T {
    if given.Some? then given.value else current
  }

  /** An edit that takes effect sets every supplied field and nothing else; one that does not finds them all equal. */
  lemma EditsTakeEffect(x: Item, owner: Id, c: Command, now: Instant)
    requires Valid(x) && CommandOk(c) && c.operation == EditFields && now >= x.createdAt
    ensures var r, p := Apply(x, owner, c, now), c.edit.value;
      var wanted := x.(title := Given(p.title, x.title), description := Given(p.description, x.description),
                       due := Given(p.due, x.due), context := Given(p.context, x.context));
      && (r.Changed? ==> r.item == wanted.(updatedAt := now, version := x.version + 1) && wanted != x)
      && (r.Unchanged? ==> wanted == x)
      && (r.Changed? || r.Unchanged? <==>
            owner == x.owner && c.expected == x.version && x.archivedAt.None? && Active(x.status))
  {
    ApplyIsClosed(x, owner, c, now);
    if Effective(x, owner, c) {
      UpdateKeepsTexts(x, owner, c, now);
    }
  }

  /** Any status may follow an active one; a terminal status is left only by an explicit reopening to OPEN. */
  lemma StatusLaw(x: Item, owner: Id, c: Command, now: Instant)
    requires Valid(x) && CommandOk(c) && c.operation == SetStatus && now >= x.createdAt
    requires owner == x.owner && c.expected == x.version && x.archivedAt.None?
    ensures var r, target := Apply(x, owner, c, now), c.status.value;
      && (r.Changed? <==> target != x.status && (if Active(x.status) then !c.reopen else c.reopen && target == Open))
      && (r.Unchanged? <==> target == x.status && !c.reopen)
      && (r.Changed? ==> r.item == x.(status := target, completedAt := if target == Completed then Some(now) else None,
                                      cancelledAt := if target == Cancelled then Some(now) else None,
                                      updatedAt := now, version := x.version + 1))
  {
    ApplyIsClosed(x, owner, c, now);
    if Effective(x, owner, c) {
      UpdateKeepsTexts(x, owner, c, now);
    }
  }

  /** Repeating a command against the version it produced changes nothing, except that a reopening must not be repeated. */
  lemma RepeatingIsIdempotent(x: Item, owner: Id, c: Command, now: Instant, later: Instant)
    requires Valid(x) && CommandOk(c) && Apply(x, owner, c, now).Changed?
    ensures var next := Apply(x, owner, c, now).item;
      Apply(next, owner, c.(expected := next.version), later)
      == if c.reopen then Conflict(InvalidTransition) else Unchanged
  {
    ApplyIsClosed(x, owner, c, now);
    UpdateKeepsTexts(x, owner, c, now);
  }

  /** Restoring undoes archiving: only the version and the update time remember it. */
  lemma RestoreUndoesArchive(x: Item, owner: Id, c: Command, d: Command, now: Instant, later: Instant)
    requires Valid(x) && CommandOk(c) && CommandOk(d) && c.operation == Archive && d.operation == Restore
    requires Apply(x, owner, c, now).Changed? && d.expected == x.version + 1 && later >= x.createdAt
    ensures Apply(Apply(x, owner, c, now).item, owner, d, later).Changed?
    ensures Apply(Apply(x, owner, c, now).item, owner, d, later).item == x.(updatedAt := later, version := x.version + 2)
  {
    ApplyIsClosed(x, owner, c, now);
    UpdateKeepsTexts(x, owner, c, now);
    var y := Apply(x, owner, c, now).item;
    ApplyIsClosed(y, owner, d, later);
    UpdateKeepsTexts(y, owner, d, later);
  }
}
