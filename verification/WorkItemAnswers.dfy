/** What every command answers and which events it emits, in terms of the item before and after it. */
module WorkItemAnswers {
  import opened Collections
  import opened Text
  import opened WorkItemModel

  // ----- the answer -----

  predicate IsTerminal(s: Status) {
    s == Completed || s == Cancelled
  }

  /** The supplied fields of a patch, put into the item. */
  function Patched(x: Item, p: Edit): Item {
    x.(title := Given(p.title, x.title), description := Given(p.description, x.description), due := Given(p.due, x.due),
       context := Given(p.context, x.context))
  }

  /** A status set on the item at an instant; the two times follow the status. */
  function WithStatus(x: Item, status: Status, now: Instant): Item {
    x.(status := status, completedAt := if status == Completed then Some(now) else None,
       cancelledAt := if status == Cancelled then Some(now) else None)
  }

  /** The command does not fit the item: archived items only move between archive and restore, terminal ones only reopen. */
  function Misfit(x: Item, c: Command): Option<Reason>
    requires CommandOk(c)
  {
    if c.operation == Archive || c.operation == Restore then None
    else if x.archivedAt.Some? then Some(NotEditable)
    else if c.operation == EditFields then if IsTerminal(x.status) then Some(NotEditable) else None
    else
      var target := c.status.value;
      if c.reopen && !(IsTerminal(x.status) && target == Open) then Some(InvalidTransition)
      else if IsTerminal(x.status) && target != x.status && !c.reopen then Some(InvalidTransition)
      else None
  }

  /** What the command asks the item to be, times and version aside. */
  function Wanted(x: Item, c: Command, now: Instant): Item
    requires CommandOk(c)
  {
    match c.operation
    case EditFields => Patched(x, c.edit.value)
    case SetStatus => if c.status.value == x.status then x else WithStatus(x, c.status.value, now)
    case Archive => if x.archivedAt.Some? then x else x.(archivedAt := Some(now))
    case Restore => x.(archivedAt := None)
  }

  /**
   Every answer of `apply` on a valid item: not found, version conflict, not editable, invalid transition, no change,
   a clock behind the creation, or the wanted item under the next version.
   */
  lemma ApplyAnswers(x: Item, owner: Id, c: Command, now: Instant)
    requires Valid(x) && CommandOk(c)
    ensures var r, wanted := Apply(x, owner, c, now), Wanted(x, c, now);
      if owner != x.owner then r == NotFound
      else if c.expected != x.version then r == Conflict(VersionConflict)
      else if Misfit(x, c).Some? then r == Conflict(Misfit(x, c).value)
      else if wanted == x then r == Unchanged
      else if now < x.createdAt then r == Rejected
      else r.Changed? && r.item == wanted.(updatedAt := now, version := x.version + 1)
  {
    ApplyIsClosed(x, owner, c, now);
    if Effective(x, owner, c) { UpdateKeepsTexts(x, owner, c, now); }
  }

  // ----- the events -----

  /** The detail fields in which two versions of an item differ. */
  function Differences(x: Item, next: Item): seq<Field> {
    (if next.title != x.title then [Title] else []) + (if next.description != x.description then [Description] else [])
    + (if next.due != x.due then [DueField] else [])
  }

  /** What there is to tell about the step from one version to the next: kind, context at the event, and payload. */
  function Told(x: Item, next: Item): seq<(EventType, Option<Id>, Metadata)> {
    var fields, dueChanged := Differences(x, next), next.due != x.due;
    var move := ContextMetadata(x.context, next.context);
    (if fields == [] then []
     else [(EditedEvent, x.context,
             EditedMetadata(fields, if dueChanged then Some(x.due) else None, if dueChanged then Some(next.due) else None))])
    + (if next.context != x.context && x.context.Some? then [(ContextDisassociated, x.context, move)] else [])
    + (if next.context != x.context && next.context.Some? then [(ContextAssociated, next.context, move)] else [])
    + (if next.status != x.status then [(StatusChanged, x.context, StatusMetadata(x.status, next.status))] else [])
    + (if next.archivedAt.Some? && x.archivedAt.None? then [(ArchivedEvent, x.context, EmptyMetadata)] else [])
    + (if next.archivedAt.None? && x.archivedAt.Some? then [(RestoredEvent, x.context, EmptyMetadata)] else [])
  }

  /** An event of the owner about the next version. */
  predicate IsEvent(e: Event, next: Item, ordinal: int, told: (EventType, Option<Id>, Metadata)) {
    e == Event(next.id, next.owner, next.owner, told.0, next.updatedAt, next.version, ordinal, told.1, told.2)
  }

  predicate AreEvents(events: seq<Event>, next: Item, told: seq<(EventType, Option<Id>, Metadata)>) {
    |events| == |told| && forall i :: 0 <= i < |told| ==> IsEvent(events[i], next, i, told[i])
  }

  predicate SameDrafts(drafts: seq<Draft>, told: seq<(EventType, Option<Id>, Metadata)>) {
    |drafts| == |told| && forall i :: 0 <= i < |told| ==> (drafts[i].kind, drafts[i].context, drafts[i].metadata) == told[i]
  }

  lemma EditsTellTheDifference(x: Item, p: Edit, next: Item)
    requires next == Updated(x, EditChanges(x, p), next.updatedAt)
    ensures SameDrafts(EditDrafts(x, EditChanges(x, p)), Told(x, next))
  {
    var ch := EditChanges(x, p);
    assert Details(ch) == Differences(x, next);
    assert next.status == x.status && next.archivedAt == x.archivedAt;
  }

  lemma OthersTellTheDifference(x: Item, owner: Id, c: Command, next: Item)
    requires Valid(x) && CommandOk(c) && Effective(x, owner, c) && c.operation != EditFields
    requires next == Updated(x, Decide(x, owner, c).changes, next.updatedAt)
    ensures SameDrafts(Decide(x, owner, c).drafts, Told(x, next))
  {
    assert Differences(x, next) == [];
    assert next.context == x.context;
  }

  /** The events of a command tell exactly the difference between the item before and after it, in order. */
  lemma EventsTellTheDifference(x: Item, owner: Id, c: Command, now: Instant)
    requires Valid(x) && CommandOk(c) && Apply(x, owner, c, now).Changed?
    ensures var r := Apply(x, owner, c, now); AreEvents(r.events, r.item, Told(x, r.item))
  {
    var r := Apply(x, owner, c, now);
    ChangedIsThePlan(x, owner, c, now);
    if c.operation == EditFields {
      EditsTellTheDifference(x, c.edit.value, r.item);
    } else {
      OthersTellTheDifference(x, owner, c, r.item);
    }
    NumberedDrafts(r.item, Decide(x, owner, c).drafts, Told(x, r.item));
  }

  lemma NumberedDrafts(next: Item, drafts: seq<Draft>, told: seq<(EventType, Option<Id>, Metadata)>)
    requires SameDrafts(drafts, told)
    ensures AreEvents(MakeEvents(next, drafts), next, told)
  {
    forall i | 0 <= i < |told| ensures IsEvent(MakeEvents(next, drafts)[i], next, i, told[i]) {
      assert (drafts[i].kind, drafts[i].context, drafts[i].metadata) == told[i];
    }
  }

  // ----- valid items -----

  /** The unreserved characters of section 2.3 of RFC 3986. */
  predicate Unreserved(c: char) {
    var n := c as int;
    0x41 <= n <= 0x5A || 0x61 <= n <= 0x7A || 0x30 <= n <= 0x39 || c == '-' || c == '.' || c == '_' || c == '~'
  }

  function HexDigit(n: nat): char
    requires n < 16
  {
    "0123456789abcdef"[n]
  }

  function HexPair(b: nat): string
    requires b < 256
  {
    [HexDigit(b / 16), HexDigit(b % 16)]
  }

  /** The lower-case hexadecimal text of some bytes. */
  function Hex(bytes: seq<nat>): string
    requires forall i :: 0 <= i < |bytes| ==> bytes[i] < 256
  {
    if bytes == [] then "" else HexPair(bytes[0]) + Hex(bytes[1..])
  }

  predicate IsHexOf(d: string, bytes: seq<nat>) {
    (forall i :: 0 <= i < |bytes| ==> bytes[i] < 256) && d == Hex(bytes)
  }

  predicate IsHexDigit(c: char) {
    '0' <= c <= '9' || 'a' <= c <= 'f'
  }

  function DigitValue(c: char): (n: nat)
    requires IsHexDigit(c)
    ensures n < 16 && HexDigit(n) == c
  {
    if '0' <= c <= '9' then (c - '0') as int else (c - 'a') as int + 10
  }

  lemma {:induction false} HexIsDigits(bytes: seq<nat>)
    requires forall i :: 0 <= i < |bytes| ==> bytes[i] < 256
    ensures |Hex(bytes)| == 2 * |bytes| && forall i :: 0 <= i < |Hex(bytes)| ==> IsHexDigit(Hex(bytes)[i])
  {
    if bytes != [] {
      HexIsDigits(bytes[1..]);
      assert forall n: nat :: n < 16 ==> IsHexDigit(HexDigit(n));
    }
  }

  lemma NibblesDivide(high: nat, low: nat)
    requires high < 16 && low < 16
    ensures (high * 16 + low) / 16 == high && (high * 16 + low) % 16 == low
  {
  }

  lemma PairOfNibbles(b: nat, high: nat, low: nat)
    requires b < 256 && b / 16 == high && b % 16 == low
    ensures HexPair(b) == [HexDigit(high), HexDigit(low)]
  {
  }

  lemma HexOfOneMore(b: nat, rest: seq<nat>)
    requires b < 256 && forall i :: 0 <= i < |rest| ==> rest[i] < 256
    ensures IsHexOf(HexPair(b) + Hex(rest), [b] + rest)
  {
    var all := [b] + rest;
    assert all[1..] == rest;
    assert forall i :: 0 <= i < |all| ==> all[i] < 256;
  }

  lemma {:induction false} DigitsAreHex(d: string, n: nat) returns (bytes: seq<nat>)
    requires |d| == 2 * n && forall i :: 0 <= i < |d| ==> IsHexDigit(d[i])
    ensures |bytes| == n && IsHexOf(d, bytes)
    decreases n
  {
    if n == 0 {
      bytes := [];
    } else {
      var rest := DigitsAreHex(d[2..], n - 1);
      var high, low := DigitValue(d[0]), DigitValue(d[1]);
      bytes := [high * 16 + low] + rest;
      NibblesDivide(high, low);
      PairOfNibbles(high * 16 + low, high, low);
      HexOfOneMore(high * 16 + low, rest);
      assert d == [d[0], d[1]] + d[2..];
    }
  }

  /** A digest is the hexadecimal text of exactly 32 bytes. */
  lemma DigestsAreHex(d: string)
    ensures DigestOk(d) <==> exists bytes :: |bytes| == 32 && IsHexOf(d, bytes)
  {
    if DigestOk(d) {
      var bytes := DigitsAreHex(d, 32);
    }
    if bytes :| |bytes| == 32 && IsHexOf(d, bytes) {
      HexIsDigits(bytes);
      assert forall i :: 0 <= i < 64 ==> IsHexDigit(d[i]);
    }
  }

  /** Every time an item carries besides its creation. */
  /** Reserved names and the two shadow trees of a time zone database are not names of zones. */
  predicate IsZoneText(z: string) {
    && 0 < |z| < 65 && '\0' !in z && !(z in {"localtime", "posixrules"})
    && (|z| >= 6 ==> z[..6] != "posix/" && z[..6] != "right/")
  }

  function Times(x: Item): set<Instant> {
    {x.updatedAt} + OptionalTime(x.completedAt) + OptionalTime(x.cancelledAt) + OptionalTime(x.archivedAt) + OptionalTime(x.confirmedAt)
  }

  function OptionalTime(t: Option<Instant>): set<Instant> {
    if t.Some? then {t.value} else {}
  }

  /**
   What validity means: trimmed bounded texts without NUL, an unreserved key, a 32-byte digest, no time before the creation, the
   completion and cancellation times exactly with their status, and a confirmation exactly of AI origin and by the owner.
   */
  lemma ValidItemsAreWellFormed(x: Item)
    ensures Valid(x) <==>
      && Normal(x.title) && |x.title| <= 200 && '\0' !in x.title
      && (x.description.Some? ==> Normal(x.description.value) && |x.description.value| <= 4000 && '\0' !in x.description.value)
      && IsDue(x.due) && x.version > 0
      && 0 < |x.key| <= 128 && (forall i :: 0 <= i < |x.key| ==> Unreserved(x.key[i])) && DigestOk(x.hash)
      && (forall t :: t in Times(x) ==> t >= x.createdAt)
      && x.completedAt.Some? == (x.status == Completed) && x.cancelledAt.Some? == (x.status == Cancelled)
      && (match x.origin
          case Manual => x.confirmedBy == None && x.confirmedAt == None && x.candidateKey == None
          case AiConfirmed =>
            x.confirmedBy == Some(x.owner) && x.confirmedAt.Some? && x.candidateKey.Some? && DigestOk(x.candidateKey.value))
  {
    assert forall i :: 0 <= i < |x.key| ==>
      (Unreserved(x.key[i]) <==> 'A' <= x.key[i] <= 'Z' || 'a' <= x.key[i] <= 'z' || '0' <= x.key[i] <= '9' || x.key[i] in "._~-");
    if Valid(x) {
      assert forall t :: t in Times(x) ==> t >= x.createdAt;
    } else if forall t :: t in Times(x) ==> t >= x.createdAt {
      assert x.updatedAt in Times(x);
      assert x.completedAt.Some? ==> x.completedAt.value in Times(x);
      assert x.cancelledAt.Some? ==> x.cancelledAt.value in Times(x);
      assert x.archivedAt.Some? ==> x.archivedAt.value in Times(x);
      assert x.confirmedAt.Some? ==> x.confirmedAt.value in Times(x);
    }
  }

  // ----- valid events -----

  predicate IsDue(due: Due) {
    due.DateDue? || due.TimedDue? ==> IsZoneText(due.zone)
  }

  /** Some of the three detail fields, none twice, and both due values exactly when the due field is one of them. */
  predicate IsEdit(fields: seq<Field>, oldDue: Option<Due>, newDue: Option<Due>) {
    && |fields| > 0 && (forall i :: 0 <= i < |fields| ==> IsDetail(fields[i]))
    && (forall i, j :: 0 <= i < j < |fields| ==> fields[i] != fields[j])
    && (if DueField in fields then oldDue.Some? && newDue.Some? && IsDue(oldDue.value) && IsDue(newDue.value)
        else oldDue == None && newDue == None)
  }

  predicate IsDetail(f: Field) {
    f == Title || f == Description || f == DueField
  }

  lemma EditsAreDetails(fields: seq<Field>, oldDue: Option<Due>, newDue: Option<Due>)
    ensures MetadataOk(EditedMetadata(fields, oldDue, newDue)) <==> IsEdit(fields, oldDue, newDue)
  {
    if forall i :: 0 <= i < |fields| ==> IsDetail(fields[i]) {
      assert BusinessContextId !in fields;
    } else {
      var i :| 0 <= i < |fields| && !IsDetail(fields[i]);
      assert fields[i] == BusinessContextId;
    }
  }

  /** The payload is the one of the event's kind, and tells a real change. */
  predicate FitsKind(e: Event) {
    match e.kind
    case CreatedEvent => e.metadata.CreatedMetadata? && IsDue(e.metadata.due)
    case EditedEvent => e.metadata.EditedMetadata? && IsEdit(e.metadata.fields, e.metadata.oldDue, e.metadata.newDue)
    case StatusChanged => e.metadata.StatusMetadata?
    case ArchivedEvent => e.metadata == EmptyMetadata
    case RestoredEvent => e.metadata == EmptyMetadata
    case ContextAssociated =>
      e.metadata.ContextMetadata? && e.context.Some? && e.metadata.to == e.context && e.metadata.from != e.context
    case ContextDisassociated =>
      e.metadata.ContextMetadata? && e.context.Some? && e.metadata.from == e.context && e.metadata.to != e.context
  }

  /** Events are accepted by their actor, numbers and payload alone: the size bound never refuses one that fits its kind. */
  lemma AcceptedEventsFitTheirKind(e: Event)
    ensures EventOk(e) <==> e.actor == e.owner && e.version > 0 && e.ordinal >= 0 && FitsKind(e)
  {
    if e.metadata.EditedMetadata? { EditsAreDetails(e.metadata.fields, e.metadata.oldDue, e.metadata.newDue); }
    if MetadataOk(e.metadata) { MetadataFits(e.metadata); }
  }
}
