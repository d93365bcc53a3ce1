/** What changed between two scans (backend/app/exporters/diff.py). */
module Diff {
  import opened Wrappers
  import Enums
  import opened Artefacts
  import opened Deduplication
  import opened Ordering
  import opened RiskModel

  /** Field values as they appear in a report; `Absent` is Python's None. */
  datatype Value =
    | Absent
    | Text(text: string)
    | Vulnerability(vulnerability: Enums.QuantumVulnerability)
    | Level(level: string)
    | PrimitiveKind(primitive: Enums.Primitive)
    | Score(score: real)
    | Band(priority: Enums.Priority)
    | Flag(flag: bool)

  datatype Field =
    | Name | Algorithm | QuantumVulnerability | NistSecurityLevel | Primitive | RiskScore | Priority | MoscaUrgent

  type Fields = map<Field, Value>

  type Changes = map<Field, (Value, Value)>

  type Inventory = map<Id, CryptoArtefact>

  type Assessments = map<Id, RiskAssessment>

  datatype ArtefactChange = ArtefactChange(artefactId: Id, name: string, changes: Changes)

  datatype PostureDelta = PostureDelta(
    totalBefore: nat, totalAfter: nat, vulnerableBefore: nat, vulnerableAfter: nat,
    addedCount: nat, removedCount: nat, changedCount: nat)

  datatype DiffReport = DiffReport(
    added: seq<CryptoArtefact>,
    removed: seq<CryptoArtefact>,
    changed: seq<ArtefactChange>,
    unchangedCount: nat,
    posture: PostureDelta)

  // ----- what is compared -----

  function OptionalText(t: Option<string>): Value {
    if t.Some? then Text(t.value) else Absent
  }

  function OptionalPrimitive(p: Option<Enums.Primitive>): Value {
    if p.Some? then PrimitiveKind(p.value) else Absent
  }

  function OptionalScore(s: Option<real>): Value {
    if s.Some? then Score(s.value) else Absent
  }

  function OptionalFlag(f: Option<bool>): Value {
    if f.Some? then Flag(f.value) else Absent
  }

  /** The tracked core fields of an artefact. */
  function CoreFields(a: CryptoArtefact): Fields {
    map[
      Name := Text(a.name),
      Algorithm := OptionalText(a.algorithm),
      QuantumVulnerability := Vulnerability(a.vulnerability),
      NistSecurityLevel := Level(a.nistSecurityLevel),
      Primitive := OptionalPrimitive(a.primitive)]
  }

  function ScoreOf(a: Option<RiskAssessment>): Value {
    if a.Some? then OptionalScore(a.value.finalScore) else Absent
  }

  function WithAssessment(core: Fields, a: RiskAssessment): Fields {
    core[RiskScore := OptionalScore(a.finalScore)]
        [Priority := Band(a.priority)]
        [MoscaUrgent := OptionalFlag(a.mosca.isUrgent)]
  }

  /**
   One side of a comparison: the core fields, all three assessment fields if both sides are assessed, and only the
   score if one is.
   */
  function View(a: CryptoArtefact, own: Option<RiskAssessment>, other: Option<RiskAssessment>): Fields {
    if own.Some? && other.Some? then WithAssessment(CoreFields(a), own.value)
    else if own.Some? || other.Some? then CoreFields(a)[RiskScore := ScoreOf(own)]
    else CoreFields(a)
  }

  /** The fields whose values differ, old value first. */
  function Delta(before: Fields, after: Fields): Changes {
    map k | k in before && k in after && before[k] != after[k] :: (before[k], after[k])
  }

  // ----- comparing one artefact -----

  /** `changes` holds exactly the fields on which the two sides differ. */
  ghost predicate IsDelta(changes: Changes, before: Fields, after: Fields) {
    && changes.Keys <= before.Keys == after.Keys
    && (forall k {:trigger changes[k]} :: k in changes ==> changes[k] == (before[k], after[k]))
    && (forall k {:trigger k in changes} :: k in before ==> (k in changes <==> before[k] != after[k]))
  }

  /** The dictionary that collects changes, with the fields compared so far on either side. */
  class ChangeSet {
    var changes: Changes
    ghost var before: Fields
    ghost var after: Fields

    ghost predicate Valid()
      reads this
    {
      IsDelta(changes, before, after)
    }

    constructor ()
      ensures Valid() && before == map[] && after == map[]
    {
      changes, before, after := map[], map[], map[];
    }

    method DiffField(field: Field, was: Value, now: Value)
      requires Valid() && field !in before
      modifies this
      ensures Valid() && before == old(before)[field := was] && after == old(after)[field := now]
    {
      if was != now {
        changes := changes[field := (was, now)];
      }
      before, after := before[field := was], after[field := now];
    }
  }

  method CompareCore(found: ChangeSet, o: CryptoArtefact, n: CryptoArtefact)
    requires found.Valid() && found.before == map[] && found.after == map[]
    modifies found
    ensures found.Valid() && found.before == CoreFields(o) && found.after == CoreFields(n)
  {
    found.DiffField(Name, Text(o.name), Text(n.name));
    found.DiffField(Algorithm, OptionalText(o.algorithm), OptionalText(n.algorithm));
    found.DiffField(QuantumVulnerability, Vulnerability(o.vulnerability), Vulnerability(n.vulnerability));
    found.DiffField(NistSecurityLevel, Level(o.nistSecurityLevel), Level(n.nistSecurityLevel));
    found.DiffField(Primitive, OptionalPrimitive(o.primitive), OptionalPrimitive(n.primitive));
  }

  method CompareAssessments(found: ChangeSet, was: RiskAssessment, now: RiskAssessment)
    requires found.Valid() && found.before.Keys == CORE
    modifies found
    ensures found.Valid()
    ensures found.before == WithAssessment(old(found.before), was) && found.after == WithAssessment(old(found.after), now)
  {
    found.DiffField(RiskScore, OptionalScore(was.finalScore), OptionalScore(now.finalScore));
    found.DiffField(Priority, Band(was.priority), Band(now.priority));
    found.DiffField(MoscaUrgent, OptionalFlag(was.mosca.isUrgent), OptionalFlag(now.mosca.isUrgent));
  }

  method CompareArtefact(o: CryptoArtefact, n: CryptoArtefact, was: Option<RiskAssessment>, now: Option<RiskAssessment>)
    returns (changes: Changes)
    ensures changes == Delta(View(o, was, now), View(n, now, was))
  {
    var found := new ChangeSet();
    CompareCore(found, o, n);
    CoreFieldNames(o);
    if was.Some? && now.Some? {
      CompareAssessments(found, was.value, now.value);
    } else if was.Some? || now.Some? {
      found.DiffField(RiskScore, ScoreOf(was), ScoreOf(now));
    }
    changes := found.changes;
    DeltaIsExact(changes, found.before, found.after);
  }

  lemma DeltaIsExact(changes: Changes, before: Fields, after: Fields)
    requires IsDelta(changes, before, after)
    ensures changes == Delta(before, after)
  {}

  const CORE := {Name, Algorithm, QuantumVulnerability, NistSecurityLevel, Primitive}

  lemma CoreFieldNames(a: CryptoArtefact)
    ensures CoreFields(a).Keys == CORE
  {}

  /** Both sides of a comparison show the same fields, and the core fields among them. */
  lemma ViewFieldNames(o: CryptoArtefact, n: CryptoArtefact, was: Option<RiskAssessment>, now: Option<RiskAssessment>)
    ensures View(o, was, now).Keys == View(n, now, was).Keys >= CORE
    ensures forall k :: k in CORE ==> View(o, was, now)[k] == CoreFields(o)[k]
  {
    CoreFieldNames(o);
    CoreFieldNames(n);
  }

  // ----- inventories -----

  function InventoryOf(xs: seq<CryptoArtefact>): Inventory {
    map id | id in IdsOf(xs) :: Combined(xs, id)
  }

  ghost predicate IsKeyedById(inventory: Inventory) {
    forall id :: id in inventory ==> inventory[id].artefactId == id
  }

  lemma InventoryIsKeyedById(xs: seq<CryptoArtefact>)
    ensures IsKeyedById(InventoryOf(xs))
  {
    forall id | id in InventoryOf(xs) ensures InventoryOf(xs)[id].artefactId == id {
      CombinedKeepsId(xs, id);
    }
  }

  /** Assessments by artefact; the last one for an id wins. */
  function AssessmentsOf(xs: seq<RiskAssessment>): Assessments {
    if xs == [] then map[]
    else AssessmentsOf(xs[..|xs| - 1])[xs[|xs| - 1].artefactId := xs[|xs| - 1]]
  }

  function AssessmentFor(assessed: Assessments, id: Id): Option<RiskAssessment> {
    if id in assessed then Some(assessed[id]) else None
  }

  predicate IsQuantumVulnerable(a: CryptoArtefact) {
    a.vulnerability == Enums.ShorBroken || a.vulnerability == Enums.GroverWeakened
  }

  function VulnerableIds(inventory: Inventory): set<Id> {
    set id | id in inventory && IsQuantumVulnerable(inventory[id])
  }

  // ----- the report -----

  /** The two sides of a comparison. */
  datatype Side = Side(inventory: Inventory, assessed: Assessments)

  function DeltaOf(before: Side, after: Side, id: Id): Changes
    requires id in before.inventory && id in after.inventory
  {
    var o, n := AssessmentFor(before.assessed, id), AssessmentFor(after.assessed, id);
    Delta(View(before.inventory[id], o, n), View(after.inventory[id], n, o))
  }

  function ChangedIds(before: Side, after: Side): set<Id> {
    set id | id in before.inventory && id in after.inventory && DeltaOf(before, after, id) != map[]
  }

  ghost predicate IsListingOf(xs: seq<CryptoArtefact>, inventory: Inventory, ids: set<Id>) {
    && IsSortedListing(IdsOf(xs), ids)
    && forall i :: 0 <= i < |xs| ==> xs[i].artefactId in inventory && xs[i] == inventory[xs[i].artefactId]
  }

  function ChangeIds(changed: seq<ArtefactChange>): (ids: seq<Id>)
    ensures |ids| == |changed|
    ensures forall i :: 0 <= i < |changed| ==> ids[i] == changed[i].artefactId
  {
    seq(|changed|, i requires 0 <= i < |changed| => changed[i].artefactId)
  }

  /** A change names the artefact as the current scan does. */
  ghost predicate IsChange(c: ArtefactChange, before: Side, after: Side) {
    && c.artefactId in before.inventory && c.artefactId in after.inventory
    && c.name == after.inventory[c.artefactId].name
    && c.changes == DeltaOf(before, after, c.artefactId)
  }

  /** The artefacts with some change, in id order. */
  ghost predicate IsChangeList(changed: seq<ArtefactChange>, before: Side, after: Side) {
    && IsSortedListing(ChangeIds(changed), ChangedIds(before, after))
    && forall i :: 0 <= i < |changed| ==> IsChange(changed[i], before, after)
  }

  ghost predicate IsDiff(before: Side, after: Side, r: DiffReport) {
    && IsListingOf(r.added, after.inventory, after.inventory.Keys - before.inventory.Keys)
    && IsListingOf(r.removed, before.inventory, before.inventory.Keys - after.inventory.Keys)
    && IsChangeList(r.changed, before, after)
    && r.unchangedCount == |before.inventory.Keys * after.inventory.Keys - ChangedIds(before, after)|
    && r.posture == PostureDelta(
         |before.inventory|, |after.inventory|,
         |VulnerableIds(before.inventory)|, |VulnerableIds(after.inventory)|,
         |r.added|, |r.removed|, |r.changed|)
  }

  // ----- computing the report -----

  /** `{a.artefact_id: a for a in xs}` */
  function Keyed(xs: seq<CryptoArtefact>): Inventory {
    if xs == [] then map[] else Keyed(xs[..|xs| - 1])[xs[|xs| - 1].artefactId := xs[|xs| - 1]]
  }

  lemma {:induction false} KeyedOfUnique(xs: seq<CryptoArtefact>)
    requires Ordering.Distinct(IdsOf(xs))
    ensures forall id :: id in Keyed(xs) <==> id in IdsOf(xs)
    ensures forall i :: 0 <= i < |xs| ==> xs[i].artefactId in Keyed(xs) && Keyed(xs)[xs[i].artefactId] == xs[i]
  {
    if xs != [] {
      var init, last := xs[..|xs| - 1], xs[|xs| - 1];
      assert xs == init + [last];
      IdsConcat(init, [last]);
      assert IdsOf([last]) == [last.artefactId];
      DistinctAppend(IdsOf(init), last.artefactId);
      KeyedOfUnique(init);
      forall i | 0 <= i < |xs| ensures xs[i].artefactId in Keyed(xs) && Keyed(xs)[xs[i].artefactId] == xs[i] {
        if i < |init| {
          assert IdsOf(init)[i] in IdsOf(init);
          assert init[i] == xs[i];
        }
      }
    }
  }

  lemma KeyedOfDeduplicated(xs: seq<CryptoArtefact>)
    ensures Keyed(Deduplicated(xs)) == InventoryOf(xs)
  {
    var unique := Deduplicated(xs);
    OutputIdsAreTheFirstIds(xs);
    FirstIdsOccur(xs);
    KeyedOfUnique(unique);
    forall id | id in IdsOf(xs) ensures id in Keyed(unique) && Keyed(unique)[id] == Combined(xs, id) {
      var i :| 0 <= i < |IdsOf(unique)| && IdsOf(unique)[i] == id;
      assert unique[i] == Combined(xs, FirstIds(xs)[i]);
    }
  }

  lemma KeyedStep(xs: seq<CryptoArtefact>, i: nat)
    requires i < |xs|
    ensures Keyed(xs[..i + 1]) == Keyed(xs[..i])[xs[i].artefactId := xs[i]]
    ensures Ordering.Distinct(IdsOf(xs)) ==> xs[i].artefactId !in Keyed(xs[..i])
  {
    assert xs[..i + 1][..i] == xs[..i];
    if Ordering.Distinct(IdsOf(xs)) {
      var seen := xs[..i];
      assert forall k :: 0 <= k < i ==> IdsOf(seen)[k] == IdsOf(xs)[k] != IdsOf(xs)[i];
      KeyedOfUnique(seen);
    }
  }

  method BuildInventory(xs: seq<CryptoArtefact>) returns (inventory: Inventory, unique: seq<CryptoArtefact>)
    ensures unique == Deduplicated(xs) && inventory == InventoryOf(xs)
  {
    unique := Deduplicate(xs);
    inventory := map[];
    for i := 0 to |unique|
      invariant inventory == Keyed(unique[..i])
    {
      KeyedStep(unique, i);
      inventory := inventory[unique[i].artefactId := unique[i]];
    }
    assert unique[..|unique|] == unique;
    KeyedOfDeduplicated(xs);
  }

  lemma VulnerableStep(inventory: Inventory, x: CryptoArtefact)
    requires x.artefactId !in inventory
    ensures |VulnerableIds(inventory[x.artefactId := x])| ==
            |VulnerableIds(inventory)| + if IsQuantumVulnerable(x) then 1 else 0
  {
    var was, now := VulnerableIds(inventory), VulnerableIds(inventory[x.artefactId := x]);
    if IsQuantumVulnerable(x) {
      assert now == was + {x.artefactId};
    } else {
      assert now == was;
    }
  }

  /** `sum(1 for a in inventory.values() if a.is_quantum_vulnerable)` */
  method CountVulnerable(xs: seq<CryptoArtefact>) returns (count: nat)
    requires Ordering.Distinct(IdsOf(xs))
    ensures count == |VulnerableIds(Keyed(xs))|
  {
    count := 0;
    for i := 0 to |xs|
      invariant count == |VulnerableIds(Keyed(xs[..i]))|
    {
      KeyedStep(xs, i);
      VulnerableStep(Keyed(xs[..i]), xs[i]);
      if IsQuantumVulnerable(xs[i]) {
        count := count + 1;
      }
    }
    assert xs[..|xs|] == xs;
  }

  method BuildAssessments(xs: seq<RiskAssessment>) returns (assessed: Assessments)
    ensures assessed == AssessmentsOf(xs)
  {
    assessed := map[];
    for i := 0 to |xs|
      invariant assessed == AssessmentsOf(xs[..i])
    {
      assert xs[..i + 1][..i] == xs[..i];
      assessed := assessed[xs[i].artefactId := xs[i]];
    }
    assert xs[..|xs|] == xs;
  }

  /** `[inventory[id] for id in sorted(ids)]` */
  method ListArtefacts(inventory: Inventory, ids: set<Id>) returns (listed: seq<CryptoArtefact>)
    requires IsKeyedById(inventory) && ids <= inventory.Keys
    ensures IsListingOf(listed, inventory, ids)
  {
    var order := SortedListing(ids);
    assert forall i :: 0 <= i < |order| ==> order[i] in order && order[i] in ids;
    listed := seq(|order|, i requires 0 <= i < |order| => inventory[order[i]]);
    assert IdsOf(listed) == order;
  }

  lemma AppendChange(changed: seq<ArtefactChange>, c: ArtefactChange, before: Side, after: Side)
    requires forall i :: 0 <= i < |changed| ==> IsChange(changed[i], before, after)
    requires IsChange(c, before, after)
    ensures forall i :: 0 <= i < |changed + [c]| ==> IsChange((changed + [c])[i], before, after)
    ensures ChangeIds(changed + [c]) == ChangeIds(changed) + [c.artefactId]
  {}

  lemma UnchangedCount(before: Side, after: Side, common: set<Id>, order: seq<Id>, changed: seq<ArtefactChange>)
    requires common == before.inventory.Keys * after.inventory.Keys
    requires IsSortedListing(order, common)
    requires ChangeIds(changed) == Filter(ChangedIds(before, after), order, |order|)
    ensures IsSortedListing(ChangeIds(changed), ChangedIds(before, after))
    ensures |order| - |changed| == |common - ChangedIds(before, after)|
  {
    var moved := ChangedIds(before, after);
    FilterOfListing(moved, order, common);
    assert common * moved == moved;
    SortedListingLength(ChangeIds(changed), moved);
    SortedListingLength(order, common);
    assert common == moved + (common - moved);
  }

  /** The body of the loop over common ids. */
  method CompareOne(before: Side, after: Side, id: Id) returns (change: Option<ArtefactChange>)
    requires id in before.inventory && id in after.inventory
    ensures change.None? <==> DeltaOf(before, after, id) == map[]
    ensures change.Some? ==> change.value.artefactId == id && IsChange(change.value, before, after)
  {
    var o, n := before.inventory[id], after.inventory[id];
    var changes := CompareArtefact(o, n, AssessmentFor(before.assessed, id), AssessmentFor(after.assessed, id));
    return if changes != map[] then Some(ArtefactChange(id, n.name, changes)) else None;
  }

  /** `changed` lists the changed artefacts among the first `n` of `order`. */
  ghost predicate ListsChanges(changed: seq<ArtefactChange>, before: Side, after: Side, order: seq<Id>, n: nat)
    requires n <= |order|
  {
    && ChangeIds(changed) == Filter(ChangedIds(before, after), order, n)
    && forall k :: 0 <= k < |changed| ==> IsChange(changed[k], before, after)
  }

  lemma ListOneMore(changed: seq<ArtefactChange>, before: Side, after: Side, order: seq<Id>, i: nat, c: Option<ArtefactChange>)
    requires i < |order| && order[i] in before.inventory && order[i] in after.inventory
    requires ListsChanges(changed, before, after, order, i)
    requires c.None? <==> DeltaOf(before, after, order[i]) == map[]
    requires c.Some? ==> c.value.artefactId == order[i] && IsChange(c.value, before, after)
    ensures ListsChanges(if c.Some? then changed + [c.value] else changed, before, after, order, i + 1)
  {
    if c.Some? {
      AppendChange(changed, c.value, before, after);
    }
  }

  method CompareListed(before: Side, after: Side, order: seq<Id>)
    returns (changed: seq<ArtefactChange>, unchangedCount: nat)
    requires forall i :: 0 <= i < |order| ==> order[i] in before.inventory && order[i] in after.inventory
    ensures ListsChanges(changed, before, after, order, |order|)
    ensures unchangedCount == |order| - |changed|
  {
    changed, unchangedCount := [], 0;
    for i := 0 to |order|
      invariant ListsChanges(changed, before, after, order, i)
      invariant unchangedCount == i - |changed|
    {
      var change := CompareOne(before, after, order[i]);
      ListOneMore(changed, before, after, order, i, change);
      if change.Some? {
        changed := changed + [change.value];
      } else {
        unchangedCount := unchangedCount + 1;
      }
    }
  }

  method CompareCommon(before: Side, after: Side) returns (changed: seq<ArtefactChange>, unchangedCount: nat)
    ensures IsChangeList(changed, before, after)
    ensures unchangedCount == |before.inventory.Keys * after.inventory.Keys - ChangedIds(before, after)|
  {
    var common := before.inventory.Keys * after.inventory.Keys;
    var order := SortedListing(common);
    assert forall i :: 0 <= i < |order| ==> order[i] in order && order[i] in common;
    changed, unchangedCount := CompareListed(before, after, order);
    UnchangedCount(before, after, common, order, changed);
  }

  method ComputeDiff(baseline: seq<CryptoArtefact>, current: seq<CryptoArtefact>,
                     assessedBefore: seq<RiskAssessment>, assessedAfter: seq<RiskAssessment>)
    returns (r: DiffReport)
    ensures IsDiff(Side(InventoryOf(baseline), AssessmentsOf(assessedBefore)),
                   Side(InventoryOf(current), AssessmentsOf(assessedAfter)), r)
  {
    InventoryIsKeyedById(baseline);
    InventoryIsKeyedById(current);
    var before, uniqueBefore := BuildInventory(baseline);
    var after, uniqueAfter := BuildInventory(current);
    var scoredBefore := BuildAssessments(assessedBefore);
    var scoredAfter := BuildAssessments(assessedAfter);
    var added := ListArtefacts(after, after.Keys - before.Keys);
    var removed := ListArtefacts(before, before.Keys - after.Keys);
    var changed, unchangedCount := CompareCommon(Side(before, scoredBefore), Side(after, scoredAfter));
    OutputIdsAreTheFirstIds(baseline);
    OutputIdsAreTheFirstIds(current);
    KeyedOfDeduplicated(baseline);
    KeyedOfDeduplicated(current);
    var vulnerableBefore := CountVulnerable(uniqueBefore);
    var vulnerableAfter := CountVulnerable(uniqueAfter);
    var posture := PostureDelta(|before|, |after|, vulnerableBefore, vulnerableAfter, |added|, |removed|, |changed|);
    return DiffReport(added, removed, changed, unchangedCount, posture);
  }

  // ----- a diff is a lossless patch -----

  /** The new value of every changed field, the old value of the others. */
  function Patch(fields: Fields, changes: Changes): Fields {
    map k | k in fields :: if k in changes then changes[k].1 else fields[k]
  }

  /** The same changes, read backwards. */
  function Inverse(changes: Changes): Changes {
    map k | k in changes :: (changes[k].1, changes[k].0)
  }

  lemma PatchAppliesDelta(before: Fields, after: Fields)
    requires before.Keys == after.Keys
    ensures Patch(before, Delta(before, after)) == after
    ensures Patch(after, Inverse(Delta(before, after))) == before
    ensures Delta(after, before) == Inverse(Delta(before, after))
    ensures Delta(before, after) == map[] <==> before == after
  {
    if Delta(before, after) == map[] {
      forall k | k in before ensures before[k] == after[k] {
        assert k !in Delta(before, after);
      }
    }
  }

  /** The tracked core fields of every artefact of an inventory. */
  function Tracked(inventory: Inventory): map<Id, Fields> {
    map id | id in inventory :: CoreFields(inventory[id])
  }

  ghost function ChangesIn(changed: seq<ArtefactChange>, id: Id): Changes
    requires id in ChangeIds(changed)
  {
    var i :| 0 <= i < |changed| && changed[i].artefactId == id;
    changed[i].changes
  }

  ghost function AddedIn(added: seq<CryptoArtefact>, id: Id): CryptoArtefact
    requires id in IdsOf(added)
  {
    var i :| 0 <= i < |added| && added[i].artefactId == id;
    added[i]
  }

  ghost function PatchedFields(tracked: map<Id, Fields>, r: DiffReport, id: Id): Fields
    requires id in tracked || id in IdsOf(r.added)
  {
    if id in IdsOf(r.added) then CoreFields(AddedIn(r.added, id))
    else if id in ChangeIds(r.changed) then Patch(tracked[id], ChangesIn(r.changed, id))
    else tracked[id]
  }

  /** Drop what was removed, rewrite what changed, add what appeared. */
  ghost function ApplyDiff(tracked: map<Id, Fields>, r: DiffReport): map<Id, Fields> {
    map id | id in tracked.Keys - (set x | x in IdsOf(r.removed)) + (set x | x in IdsOf(r.added)) ::
      PatchedFields(tracked, r, id)
  }

  lemma ChangeFound(changed: seq<ArtefactChange>, before: Side, after: Side, id: Id)
    requires IsChangeList(changed, before, after)
    requires id in before.inventory && id in after.inventory
    ensures id in ChangeIds(changed) <==> DeltaOf(before, after, id) != map[]
    ensures id in ChangeIds(changed) ==> ChangesIn(changed, id) == DeltaOf(before, after, id)
  {
    assert id in ChangeIds(changed) <==> id in ChangedIds(before, after);
    if id in ChangeIds(changed) {
      var i :| 0 <= i < |changed| && changed[i].artefactId == id && changed[i].changes == ChangesIn(changed, id);
      assert IsChange(changed[i], before, after);
    }
  }

  /** A patch computed from more fields than it is applied to. */
  lemma PatchOfFewer(fewer: Fields, wanted: Fields, before: Fields, after: Fields)
    requires fewer.Keys == wanted.Keys <= before.Keys == after.Keys
    requires forall k :: k in fewer ==> before[k] == fewer[k] && after[k] == wanted[k]
    ensures Patch(fewer, Delta(before, after)) == wanted
    ensures Delta(before, after) == map[] ==> fewer == wanted
  {
    PatchAppliesDelta(before, after);
  }

  /** Assessment fields do not disturb the patch of the core fields. */
  lemma CorePatched(before: Side, after: Side, id: Id)
    requires id in before.inventory && id in after.inventory
    ensures Patch(CoreFields(before.inventory[id]), DeltaOf(before, after, id)) == CoreFields(after.inventory[id])
    ensures DeltaOf(before, after, id) == map[] ==> CoreFields(before.inventory[id]) == CoreFields(after.inventory[id])
  {
    var was, now := AssessmentFor(before.assessed, id), AssessmentFor(after.assessed, id);
    var o, n := before.inventory[id], after.inventory[id];
    CoreFieldNames(o);
    CoreFieldNames(n);
    ViewFieldNames(o, n, was, now);
    ViewFieldNames(n, o, now, was);
    PatchOfFewer(CoreFields(o), CoreFields(n), View(o, was, now), View(n, now, was));
  }

  lemma AddedFound(before: Side, after: Side, r: DiffReport, id: Id)
    requires IsListingOf(r.added, after.inventory, after.inventory.Keys - before.inventory.Keys)
    requires id in after.inventory && id !in before.inventory
    ensures id in IdsOf(r.added) && AddedIn(r.added, id) == after.inventory[id]
  {
    assert id in IdsOf(r.added);
    var i :| 0 <= i < |r.added| && r.added[i].artefactId == id && r.added[i] == AddedIn(r.added, id);
  }

  lemma PatchedIds(before: Side, after: Side, r: DiffReport)
    requires IsListingOf(r.added, after.inventory, after.inventory.Keys - before.inventory.Keys)
    requires IsListingOf(r.removed, before.inventory, before.inventory.Keys - after.inventory.Keys)
    ensures ApplyDiff(Tracked(before.inventory), r).Keys == after.inventory.Keys
  {
    var b, a := before.inventory.Keys, after.inventory.Keys;
    assert (set x | x in IdsOf(r.removed)) == b - a;
    assert (set x | x in IdsOf(r.added)) == a - b;
    assert b - (b - a) + (a - b) == a;
  }

  lemma PatchedIsCurrent(before: Side, after: Side, r: DiffReport, id: Id)
    requires IsListingOf(r.added, after.inventory, after.inventory.Keys - before.inventory.Keys)
    requires IsChangeList(r.changed, before, after)
    requires id in after.inventory
    ensures id in before.inventory || id in IdsOf(r.added)
    ensures PatchedFields(Tracked(before.inventory), r, id) == CoreFields(after.inventory[id])
  {
    assert id in IdsOf(r.added) <==> id in after.inventory.Keys - before.inventory.Keys;
    if id in before.inventory {
      ChangeFound(r.changed, before, after, id);
      CorePatched(before, after, id);
    } else {
      AddedFound(before, after, r, id);
    }
  }

  lemma AllPatched(before: Side, after: Side, r: DiffReport)
    requires ApplyDiff(Tracked(before.inventory), r).Keys == after.inventory.Keys
    requires forall id :: id in after.inventory ==>
               && (id in before.inventory || id in IdsOf(r.added))
               && PatchedFields(Tracked(before.inventory), r, id) == CoreFields(after.inventory[id])
    ensures ApplyDiff(Tracked(before.inventory), r) == Tracked(after.inventory)
  {}

  /** Applying a diff to the baseline's tracked fields gives the current ones. */
  lemma PatchingGivesCurrent(before: Side, after: Side, r: DiffReport)
    requires IsDiff(before, after, r)
    ensures ApplyDiff(Tracked(before.inventory), r) == Tracked(after.inventory)
  {
    PatchedIds(before, after, r);
    forall id | id in after.inventory
      ensures id in before.inventory || id in IdsOf(r.added)
      ensures PatchedFields(Tracked(before.inventory), r, id) == CoreFields(after.inventory[id])
    {
      PatchedIsCurrent(before, after, r, id);
    }
    AllPatched(before, after, r);
  }

  // ----- counting -----

  lemma ListedCount(xs: seq<CryptoArtefact>, inventory: Inventory, ids: set<Id>)
    requires IsListingOf(xs, inventory, ids)
    ensures |xs| == |ids|
  {
    SortedListingLength(IdsOf(xs), ids);
  }

  lemma PartCount(whole: set<Id>, part: set<Id>)
    requires part <= whole
    ensures |whole - part| + |part| == |whole|
  {
    assert whole == (whole - part) + part;
  }

  lemma SplitCount(before: set<Id>, after: set<Id>, moved: set<Id>)
    requires moved <= before * after
    ensures |after - before| + |moved| + |before * after - moved| == |after|
  {
    PartCount(before * after, moved);
    PartCount(after, before * after);
    assert after - before * after == after - before;
  }

  /** Every artefact of either scan is counted exactly once. */
  lemma CountsAddUp(before: Side, after: Side, r: DiffReport)
    requires IsDiff(before, after, r)
    ensures |r.added| + |r.changed| + r.unchangedCount == |after.inventory|
    ensures |r.removed| + |r.changed| + r.unchangedCount == |before.inventory|
  {
    var b, a, moved := before.inventory.Keys, after.inventory.Keys, ChangedIds(before, after);
    ListedCount(r.added, after.inventory, a - b);
    ListedCount(r.removed, before.inventory, b - a);
    SortedListingLength(ChangeIds(r.changed), moved);
    SplitCount(b, a, moved);
    SplitCount(a, b, moved);
    assert b * a == a * b;
  }

  // ----- symmetry -----

  /** A report read backwards: added and removed swap, and every change runs the other way. */
  function ReversedChange(c: ArtefactChange): ArtefactChange {
    var oldName := if Name in c.changes && c.changes[Name].0.Text? then c.changes[Name].0.text else c.name;
    ArtefactChange(c.artefactId, oldName, Inverse(c.changes))
  }

  function ReversedChanges(changed: seq<ArtefactChange>): (r: seq<ArtefactChange>)
    ensures |r| == |changed|
    ensures forall i :: 0 <= i < |changed| ==> r[i] == ReversedChange(changed[i])
  {
    seq(|changed|, i requires 0 <= i < |changed| => ReversedChange(changed[i]))
  }

  function Reversed(r: DiffReport): DiffReport {
    DiffReport(
      r.removed, r.added, ReversedChanges(r.changed), r.unchangedCount,
      PostureDelta(r.posture.totalAfter, r.posture.totalBefore, r.posture.vulnerableAfter, r.posture.vulnerableBefore,
                   r.posture.removedCount, r.posture.addedCount, r.posture.changedCount))
  }

  lemma DeltaReversed(before: Side, after: Side, id: Id)
    requires id in before.inventory && id in after.inventory
    ensures DeltaOf(after, before, id) == Inverse(DeltaOf(before, after, id))
    ensures DeltaOf(after, before, id) == map[] <==> DeltaOf(before, after, id) == map[]
  {
    var o, n := AssessmentFor(before.assessed, id), AssessmentFor(after.assessed, id);
    var b, a := View(before.inventory[id], o, n), View(after.inventory[id], n, o);
    ViewFieldNames(before.inventory[id], after.inventory[id], o, n);
    PatchAppliesDelta(b, a);
    PatchAppliesDelta(a, b);
  }

  lemma ChangeReversed(c: ArtefactChange, before: Side, after: Side)
    requires IsChange(c, before, after)
    ensures IsChange(ReversedChange(c), after, before)
  {
    var id := c.artefactId;
    DeltaReversed(before, after, id);
    var o, n := AssessmentFor(before.assessed, id), AssessmentFor(after.assessed, id);
    assert View(before.inventory[id], o, n)[Name] == Text(before.inventory[id].name);
    assert View(after.inventory[id], n, o)[Name] == Text(after.inventory[id].name);
  }

  /** Diffing in the other direction gives the report read backwards. */
  lemma SwappingReverses(before: Side, after: Side, r: DiffReport)
    requires IsDiff(before, after, r)
    ensures IsDiff(after, before, Reversed(r))
  {
    var changed := ReversedChanges(r.changed);
    assert ChangeIds(changed) == ChangeIds(r.changed);
    forall id ensures id in ChangedIds(before, after) <==> id in ChangedIds(after, before) {
      if id in before.inventory && id in after.inventory {
        DeltaReversed(before, after, id);
      }
    }
    assert ChangedIds(before, after) == ChangedIds(after, before);
    forall i | 0 <= i < |changed| ensures IsChange(changed[i], after, before) {
      ChangeReversed(r.changed[i], before, after);
    }
    assert before.inventory.Keys * after.inventory.Keys == after.inventory.Keys * before.inventory.Keys;
  }

  /** The report is determined by the two sides. */
  lemma DiffIsUnique(before: Side, after: Side, r: DiffReport, q: DiffReport)
    requires IsDiff(before, after, r) && IsDiff(before, after, q)
    ensures r == q
  {
    var b, a := before.inventory.Keys, after.inventory.Keys;
    ListingIsUnique(IdsOf(r.added), IdsOf(q.added), a - b);
    ListingIsUnique(IdsOf(r.removed), IdsOf(q.removed), b - a);
    ListingIsUnique(ChangeIds(r.changed), ChangeIds(q.changed), ChangedIds(before, after));
    SameListing(r.added, q.added, after.inventory, a - b);
    SameListing(r.removed, q.removed, before.inventory, b - a);
    forall i | 0 <= i < |r.changed| ensures r.changed[i] == q.changed[i] {
      assert IsChange(r.changed[i], before, after) && IsChange(q.changed[i], before, after);
      assert ChangeIds(r.changed)[i] == ChangeIds(q.changed)[i];
    }
    assert r.changed == q.changed;
  }

  lemma SameListing(xs: seq<CryptoArtefact>, ys: seq<CryptoArtefact>, inventory: Inventory, ids: set<Id>)
    requires IsListingOf(xs, inventory, ids) && IsListingOf(ys, inventory, ids)
    requires IdsOf(xs) == IdsOf(ys)
    ensures xs == ys
  {
    forall i | 0 <= i < |xs| ensures xs[i] == ys[i] {
      assert IdsOf(xs)[i] == IdsOf(ys)[i];
    }
  }

  /** Diffing a scan with itself reports nothing. */
  lemma SelfDiffIsEmpty(side: Side, r: DiffReport)
    requires IsDiff(side, side, r)
    ensures r.added == [] && r.removed == [] && r.changed == []
    ensures r.unchangedCount == |side.inventory|
  {
    CountsAddUp(side, side, r);
    ListedCount(r.added, side.inventory, side.inventory.Keys - side.inventory.Keys);
    assert side.inventory.Keys - side.inventory.Keys == {};
    forall id | id in side.inventory ensures DeltaOf(side, side, id) == map[] {
      var s := AssessmentFor(side.assessed, id);
      PatchAppliesDelta(View(side.inventory[id], s, s), View(side.inventory[id], s, s));
    }
    SortedListingLength(ChangeIds(r.changed), ChangedIds(side, side));
    assert ChangedIds(side, side) == {};
  }
}
