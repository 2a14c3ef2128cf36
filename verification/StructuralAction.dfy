/** Structural Action rules of services/knowledge/app/action_structural.py: link and object
    edits applied to four tables with an undo log, and the revert that replays the log.
    Rows of one tenant; set-by metadata and the materialization marker are not kept. */
module StructuralAction {
  import opened Wrappers

  // ---------------------------------------------------------------- tables

  /** A JSON value: null, a string, or any other value by its printed text. */
  datatype Json = Null | Text(text: string) | Printed(text: string)

  datatype ObjectKey = ObjectKey(objectType: string, id: string)
  datatype EditKey = EditKey(on: ObjectKey, property: string)
  datatype OverlayKey = OverlayKey(relationUrn: string, source: string, target: string)

  datatype OverlayOp = Add | Remove
  datatype Overlay = Overlay(op: OverlayOp, midId: Option<string>)
  datatype Instance = Instance(data: map<string, Json>, snapshotId: int)

  /** Property edits and link overlays: what link rules write. */
  datatype LinkTables = LinkTables(edits: map<EditKey, Json>, overlays: map<OverlayKey, Overlay>)

  /** Object rows and tombstones (with the data found at deletion): what object rules write. */
  datatype ObjectTables = ObjectTables(instances: map<ObjectKey, Instance>, tombstones: map<ObjectKey, Option<map<string, Json>>>)

  datatype Tables = Tables(links: LinkTables, objects: ObjectTables)

  const STRUCTURAL_SNAPSHOT := -1

  // ---------------------------------------------------------------- edits and their resolution

  datatype Storage = ForeignKey | JoinDataset | ObjectBacked | Unsupported

  datatype Relation = Relation(storage: Storage, sourceType: string, sourceProperty: string, urn: string)

  datatype End = TargetInstance | Parameter(name: string) | Literal(value: Json)

  /** `generate_uuid` is the id it generated. */
  datatype PrimaryKey = Generated(uuid: string) | LiteralKey(value: Json) | ParameterKey(name: string)

  datatype Mapping = FromParameter(property: string, name: string) | FromLiteral(property: string, value: Json)

  datatype Edit =
    | ModifyProperty
    | CreateLink(relation: string, source: End, target: End)
    | DeleteLink(relation: string, source: End, target: End)
    | CreateObject(objectType: string, key: PrimaryKey, properties: seq<Mapping>)
    | DeleteObject
    | DeleteObjectBy(otherType: Option<string>, name: string)

  /** What an action runs against: its target, its parameters and the relation types. */
  datatype Context = Context(target: ObjectKey, parameters: map<string, Json>, relations: map<string, Relation>)

  /** `str(value)` of a value that is not null. */
  function Printable(value: Json): string {
    match value
    case Null => "None"
    case Text(text) => text
    case Printed(text) => text
  }

  function ParameterOf(c: Context, name: string): Json {
    if name in c.parameters then c.parameters[name] else Null
  }

  /** A parameter that is missing or null is an error. */
  function RequiredParameter(c: Context, name: string): Option<string> {
    if ParameterOf(c, name) == Null then None else Some(Printable(ParameterOf(c, name)))
  }

  function ResolveEnd(c: Context, end: End): Option<string> {
    match end
    case TargetInstance => Some(c.target.id)
    case Parameter(name) => RequiredParameter(c, name)
    case Literal(value) => Some(Printable(value))
  }

  /** One table write. */
  datatype Op =
    | SetEdit(edit: EditKey, value: Json)
    | SetOverlay(overlay: OverlayKey, link: Overlay)
    | Create(subject: ObjectKey, data: map<string, Json>)
    | Delete(subject: ObjectKey)

  function ResolveLink(c: Context, relation: string, source: End, target: End, unlink: bool): Option<Op> {
    if relation !in c.relations then None
    else
      var r := c.relations[relation];
      match (ResolveEnd(c, source), ResolveEnd(c, target))
      case (Some(sourceId), Some(neighborId)) =>
        (match r.storage
         case ForeignKey =>
           Some(SetEdit(EditKey(ObjectKey(r.sourceType, sourceId), r.sourceProperty), if unlink then Null else Text(neighborId)))
         case Unsupported => None
         case _ =>
           var mid := if r.storage.ObjectBacked? then Some("overlay:" + sourceId + ":" + neighborId) else None;
           Some(SetOverlay(OverlayKey(r.urn, sourceId, neighborId), Overlay(if unlink then Remove else Add, mid))))
      case _ => None
  }

  function PropertyData(c: Context, id: string, properties: seq<Mapping>): map<string, Json> {
    if properties == [] then map["id" := Text(id)]
    else
      var before, last := PropertyData(c, id, properties[..|properties| - 1]), properties[|properties| - 1];
      match last
      case FromParameter(property, name) => before[property := ParameterOf(c, name)]
      case FromLiteral(property, value) => before[property := value]
  }

  /** The write an edit stands for: none for a property edit, an error when it cannot be resolved. */
  datatype Resolution = Skip | Write(op: Op) | Fail

  function Resolve(c: Context, edit: Edit): Resolution {
    match edit
    case ModifyProperty => Skip
    case CreateLink(relation, source, target) =>
      (match ResolveLink(c, relation, source, target, false) case Some(op) => Write(op) case None => Fail)
    case DeleteLink(relation, source, target) =>
      (match ResolveLink(c, relation, source, target, true) case Some(op) => Write(op) case None => Fail)
    case CreateObject(objectType, key, properties) =>
      var id := match key
                case Generated(uuid) => Some(uuid)
                case LiteralKey(value) => Some(Printable(value))
                case ParameterKey(name) => RequiredParameter(c, name);
      if id.None? then Fail else Write(Create(ObjectKey(objectType, id.value), PropertyData(c, id.value, properties)))
    case DeleteObject => Write(Delete(c.target))
    case DeleteObjectBy(objectType, name) =>
      var id := RequiredParameter(c, name);
      if id.None? then Fail
      else Write(Delete(ObjectKey(if objectType.Some? && objectType.value != "" then objectType.value else c.target.objectType, id.value)))
  }

  /** The writes of a list of edits, up to the first that fails. */
  datatype Plan = Plan(ops: seq<Op>, ok: bool)

  function PlanOf(c: Context, edits: seq<Edit>): Plan {
    if edits == [] then Plan([], true)
    else
      var before := PlanOf(c, edits[..|edits| - 1]);
      if !before.ok then before
      else
        match Resolve(c, edits[|edits| - 1])
        case Skip => before
        case Write(op) => Plan(before.ops + [op], true)
        case Fail => Plan(before.ops, false)
  }

  // ---------------------------------------------------------------- apply and revert

  datatype LinkUndo = UndoEdit(edit: EditKey, value: Option<Json>) | UndoOverlay(overlay: OverlayKey, link: Option<Overlay>)

  datatype ObjectUndo = Created(subject: ObjectKey, data: map<string, Json>) | Deleted(subject: ObjectKey, prior: Option<map<string, Json>>)

  datatype Applied = Applied(tables: Tables, links: seq<LinkUndo>, objects: seq<ObjectUndo>)

  function Lookup<K, V>(m: map<K, V>, k: K): Option<V> {
    if k in m then Some(m[k]) else None
  }

  /** Write the value back, or delete the row when there was none. */
  function Restore<K, V>(m: map<K, V>, k: K, prior: Option<V>): map<K, V> {
    if prior.Some? then m[k := prior.value] else m - {k}
  }

  function TombstoneData(t: ObjectTables, k: ObjectKey): Option<map<string, Json>> {
    if k in t.instances then Some(t.instances[k].data)
    else if k in t.tombstones then t.tombstones[k]
    else None
  }

  function Exec(a: Applied, op: Op): Applied {
    var links, objects := a.tables.links, a.tables.objects;
    match op
    case SetEdit(k, value) =>
      Applied(Tables(links.(edits := links.edits[k := value]), objects), a.links + [UndoEdit(k, Lookup(links.edits, k))], a.objects)
    case SetOverlay(k, link) =>
      Applied(Tables(links.(overlays := links.overlays[k := link]), objects),
              a.links + [UndoOverlay(k, Lookup(links.overlays, k))], a.objects)
    case Create(k, data) =>
      Applied(Tables(links, ObjectTables(objects.instances[k := Instance(data, STRUCTURAL_SNAPSHOT)], objects.tombstones - {k})),
              a.links, a.objects + [Created(k, data)])
    case Delete(k) =>
      var found := if k in objects.instances then Some(objects.instances[k].data) else None;
      Applied(Tables(links, objects.(tombstones := objects.tombstones[k := TombstoneData(objects, k)])),
              a.links, a.objects + [Deleted(k, found)])
  }

  function ExecAll(t: Tables, ops: seq<Op>): Applied {
    if ops == [] then Applied(t, [], []) else Exec(ExecAll(t, ops[..|ops| - 1]), ops[|ops| - 1])
  }

  function UndoLink(t: LinkTables, u: LinkUndo): LinkTables {
    match u
    case UndoEdit(k, prior) => t.(edits := Restore(t.edits, k, prior))
    case UndoOverlay(k, prior) => t.(overlays := Restore(t.overlays, k, prior))
  }

  function UndoObject(t: Tables, u: ObjectUndo): Tables {
    match u
    case Created(k, _) =>
      var instances := t.objects.instances;
      Tables(t.links.(edits := WithoutObjects(t.links.edits, {k})),
             t.objects.(instances := if k in instances && instances[k].snapshotId == STRUCTURAL_SNAPSHOT
                                     then instances - {k} else instances))
    case Deleted(k, _) => t.(objects := t.objects.(tombstones := t.objects.tombstones - {k}))
  }

  function WithoutObjects(edits: map<EditKey, Json>, objects: set<ObjectKey>): map<EditKey, Json> {
    map k | k in edits && k.on !in objects :: edits[k]
  }

  function UndoLinks(t: LinkTables, log: seq<LinkUndo>): LinkTables
    decreases |log|
  {
    if log == [] then t else UndoLinks(UndoLink(t, log[|log| - 1]), log[..|log| - 1])
  }

  function UndoObjects(t: Tables, log: seq<ObjectUndo>): Tables
    decreases |log|
  {
    if log == [] then t else UndoObjects(UndoObject(t, log[|log| - 1]), log[..|log| - 1])
  }

  /** Links in reverse order, then objects in reverse order. */
  function Revert(t: Tables, links: seq<LinkUndo>, objects: seq<ObjectUndo>): Tables {
    UndoObjects(t.(links := UndoLinks(t.links, links)), objects)
  }

  // ---------------------------------------------------------------- what an action promises of its tables

  predicate HasParameter(c: Context, name: string) {
    name in c.parameters && c.parameters[name] != Null
  }

  /** The parameter is there and reads `text`. */
  predicate ParameterReads(c: Context, name: string, text: string) {
    HasParameter(c, name) && text == Printable(c.parameters[name])
  }

  /** `id` is the instance at this end of a link. */
  predicate EndIs(c: Context, end: End, id: string) {
    || (end.TargetInstance? && id == c.target.id)
    || (end.Parameter? && ParameterReads(c, end.name, id))
    || (end.Literal? && id == Printable(end.value))
  }

  predicate IsLink(e: Edit) {
    e.CreateLink? || e.DeleteLink?
  }

  predicate NamesOverlay(c: Context, e: Edit, k: OverlayKey) {
    && IsLink(e) && e.relation in c.relations
    && c.relations[e.relation].storage in {JoinDataset, ObjectBacked}
    && k.relationUrn == c.relations[e.relation].urn && EndIs(c, e.source, k.source) && EndIs(c, e.target, k.target)
  }

  /** The link from the source end to the target end, added or removed. */
  predicate PutsOverlay(c: Context, e: Edit, k: OverlayKey, link: Overlay) {
    && NamesOverlay(c, e, k)
    && (link.op == Add <==> e.CreateLink?)
    && link.midId == if c.relations[e.relation].storage == ObjectBacked then Some("overlay:" + k.source + ":" + k.target) else None
  }

  predicate NamesEdit(c: Context, e: Edit, k: EditKey) {
    && IsLink(e) && e.relation in c.relations && c.relations[e.relation].storage == ForeignKey
    && k.on.objectType == c.relations[e.relation].sourceType && k.property == c.relations[e.relation].sourceProperty
    && EndIs(c, e.source, k.on.id)
  }

  /** The property of the source object that refers to the target, or to nothing. */
  predicate PutsEdit(c: Context, e: Edit, k: EditKey, value: Json) {
    NamesEdit(c, e, k) && if e.CreateLink? then value.Text? && EndIs(c, e.target, value.text) else value == Null
  }

  predicate Creates(c: Context, e: Edit, k: ObjectKey) {
    && e.CreateObject? && k.objectType == e.objectType
    && match e.key
       case Generated(uuid) => k.id == uuid
       case LiteralKey(value) => k.id == Printable(value)
       case ParameterKey(name) => ParameterReads(c, name, k.id)
  }

  predicate Deletes(c: Context, e: Edit, k: ObjectKey) {
    || (e.DeleteObject? && k == c.target)
    || (&& e.DeleteObjectBy? && ParameterReads(c, e.name, k.id)
        && k.objectType == if e.otherType.None? || e.otherType == Some("") then c.target.objectType else e.otherType.value)
  }

  predicate MapsTo(c: Context, m: Mapping, value: Json) {
    match m
    case FromLiteral(_, literal) => value == literal
    case FromParameter(_, name) => if name in c.parameters then value == c.parameters[name] else value == Null
  }

  /** What the last mapping of the property gives it, else its id. */
  ghost predicate DataAt(c: Context, properties: seq<Mapping>, id: string, property: string, value: Option<Json>) {
    if properties == [] then value == if property == "id" then Some(Text(id)) else None
    else
      var last := properties[|properties| - 1];
      if last.property == property then value.Some? && MapsTo(c, last, value.value)
      else DataAt(c, properties[..|properties| - 1], id, property, value)
  }

  /** The id and the mapped properties and nothing else. */
  ghost predicate IsData(c: Context, properties: seq<Mapping>, id: string, data: map<string, Json>) {
    forall p :: DataAt(c, properties, id, p, Lookup(data, p))
  }

  /** The edit can be carried out. */
  predicate Feasible(c: Context, e: Edit) {
    && (IsLink(e) ==>
          && e.relation in c.relations && c.relations[e.relation].storage != Unsupported
          && (e.source.Parameter? ==> HasParameter(c, e.source.name)) && (e.target.Parameter? ==> HasParameter(c, e.target.name)))
    && (e.CreateObject? && e.key.ParameterKey? ==> HasParameter(c, e.key.name))
    && (e.DeleteObjectBy? ==> HasParameter(c, e.name))
  }

  /** How many edits come before the first that cannot be carried out. */
  function Reached(c: Context, list: seq<Edit>): (n: nat)
    ensures n <= |list| && (forall i | 0 <= i < n :: Feasible(c, list[i])) && (n < |list| ==> !Feasible(c, list[n]))
  {
    if list == [] || !Feasible(c, list[0]) then 0 else 1 + Reached(c, list[1..])
  }

  /** The last edit of the list that does this. */
  ghost function Last(list: seq<Edit>, does: Edit -> bool): Option<Edit> {
    if list == [] then None
    else if does(list[|list| - 1]) then Some(list[|list| - 1])
    else Last(list[..|list| - 1], does)
  }

  ghost predicate OverlayEffect(c: Context, list: seq<Edit>, t: LinkTables, t': LinkTables, k: OverlayKey) {
    match Last(list, e => NamesOverlay(c, e, k))
    case None => Lookup(t'.overlays, k) == Lookup(t.overlays, k)
    case Some(e) => k in t'.overlays && PutsOverlay(c, e, k, t'.overlays[k])
  }

  ghost predicate EditEffect(c: Context, list: seq<Edit>, t: LinkTables, t': LinkTables, k: EditKey) {
    match Last(list, e => NamesEdit(c, e, k))
    case None => Lookup(t'.edits, k) == Lookup(t.edits, k)
    case Some(e) => k in t'.edits && PutsEdit(c, e, k, t'.edits[k])
  }

  ghost predicate InstanceEffect(c: Context, list: seq<Edit>, t: ObjectTables, t': ObjectTables, k: ObjectKey) {
    match Last(list, e => Creates(c, e, k))
    case None => Lookup(t'.instances, k) == Lookup(t.instances, k)
    case Some(e) =>
      k in t'.instances && t'.instances[k].snapshotId == STRUCTURAL_SNAPSHOT && e.CreateObject? && IsData(c, e.properties, k.id, t'.instances[k].data)
  }

  /** A deleted object has a tombstone with the data found: its row, or what an older
      tombstone kept. */
  ghost predicate TombstoneEffect(c: Context, list: seq<Edit>, t: ObjectTables, t': ObjectTables, k: ObjectKey) {
    match Last(list, e => Creates(c, e, k) || Deletes(c, e, k))
    case None => Lookup(t'.tombstones, k) == Lookup(t.tombstones, k)
    case Some(e) =>
      if Creates(c, e, k) then k !in t'.tombstones
      else k in t'.tombstones
           && t'.tombstones[k] == if k in t'.instances then Some(t'.instances[k].data) else if k in t.tombstones then t.tombstones[k] else None
  }

  /** The row of `k` after the list: that of its last creation, or the one it had. */
  ghost predicate RowIs(c: Context, list: seq<Edit>, t: ObjectTables, k: ObjectKey, row: Option<map<string, Json>>) {
    match Last(list, e => Creates(c, e, k))
    case None => row == if k in t.instances then Some(t.instances[k].data) else None
    case Some(e) => row.Some? && e.CreateObject? && IsData(c, e.properties, k.id, row.value)
  }

  /** The log names the created objects with their data and the deleted ones with the row
      they had, in the order of the edits. */
  ghost predicate LogIs(c: Context, list: seq<Edit>, t: ObjectTables, log: seq<ObjectUndo>)
    decreases |list|
  {
    if list == [] then log == []
    else
      var front, e := list[..|list| - 1], list[|list| - 1];
      if e.CreateObject? || e.DeleteObject? || e.DeleteObjectBy? then
        && log != [] && LogIs(c, front, t, log[..|log| - 1])
        && match log[|log| - 1]
           case Created(k, data) => Creates(c, e, k) && IsData(c, e.properties, k.id, data)
           case Deleted(k, prior) => Deletes(c, e, k) && RowIs(c, front, t, k, prior)
      else LogIs(c, front, t, log)
  }

  /** Every key of every table holds the effect of the last edit that names it, and what it
      held before if none does. */
  ghost predicate HasEffects(c: Context, list: seq<Edit>, t: Tables, t': Tables) {
    && (forall k :: OverlayEffect(c, list, t.links, t'.links, k))
    && (forall k :: EditEffect(c, list, t.links, t'.links, k))
    && (forall k :: InstanceEffect(c, list, t.objects, t'.objects, k))
    && (forall k :: TombstoneEffect(c, list, t.objects, t'.objects, k))
  }

  /** What a list of edits leaves, with its object log. */
  ghost predicate Leaves(c: Context, list: seq<Edit>, t: Tables, a: Applied) {
    HasEffects(c, list, t, a.tables) && LogIs(c, list, t.objects, a.objects)
  }

  // ---------------------------------------------------------------- the code over its tables

  class Ontology {
    var edits: map<EditKey, Json>
    var overlays: map<OverlayKey, Overlay>
    var instances: map<ObjectKey, Instance>
    var tombstones: map<ObjectKey, Option<map<string, Json>>>

    function View(): Tables
      reads this
    {
      Tables(LinkTables(edits, overlays), ObjectTables(instances, tombstones))
    }

    constructor (t: Tables)
      ensures View() == t
    {
      edits, overlays := t.links.edits, t.links.overlays;
      instances, tombstones := t.objects.instances, t.objects.tombstones;
    }

    method ApplyStructuralEdits(c: Context, list: seq<Edit>)
      returns (ok: bool, links: seq<LinkUndo>, objects: seq<ObjectUndo>)
      modifies this
      ensures ok <==> PlanOf(c, list).ok
      ensures Applied(View(), links, objects) == ExecAll(old(View()), PlanOf(c, list).ops)
      ensures ok <==> forall e | e in list :: Feasible(c, e)
      ensures Leaves(c, list[..Reached(c, list)], old(View()), Applied(View(), links, objects))
    {
      PlanLeaves(c, list, View());
      links, objects := [], [];
      for n := 0 to |list|
        invariant PlanOf(c, list[..n]).ok
        invariant Applied(View(), links, objects) == ExecAll(old(View()), PlanOf(c, list[..n]).ops)
      {
        assert list[..n + 1][..n] == list[..n];
        var resolved := Resolve(c, list[n]);
        if resolved.Skip? {
          continue;
        }
        if resolved.Fail? {
          FailureStands(c, list, n + 1);
          return false, links, objects;
        }
        links, objects := Perform(resolved.op, links, objects);
      }
      assert list[..|list|] == list;
      ok := true;
    }

    /** One write and the entry that undoes it. */
    method Perform(op: Op, links: seq<LinkUndo>, objects: seq<ObjectUndo>)
      returns (links': seq<LinkUndo>, objects': seq<ObjectUndo>)
      modifies this
      ensures Applied(View(), links', objects') == Exec(Applied(old(View()), links, objects), op)
    {
      links', objects' := links, objects;
      match op {
        case SetEdit(k, value) =>
          links' := links + [UndoEdit(k, Lookup(edits, k))];
          edits := edits[k := value];
        case SetOverlay(k, link) =>
          links' := links + [UndoOverlay(k, Lookup(overlays, k))];
          overlays := overlays[k := link];
        case Create(k, data) =>
          tombstones := tombstones - {k};
          instances := instances[k := Instance(data, STRUCTURAL_SNAPSHOT)];
          objects' := objects + [Created(k, data)];
        case Delete(k) =>
          var prior := if k in instances then Some(instances[k].data) else None;
          var kept := if prior.Some? then prior else if k in tombstones then tombstones[k] else None;
          tombstones := tombstones[k := kept];
          objects' := objects + [Deleted(k, prior)];
      }
    }

    method RevertStructural(links: seq<LinkUndo>, objects: seq<ObjectUndo>)
      modifies this
      ensures View() == Revert(old(View()), links, objects)
    {
      var n := |links|;
      assert links[..n] == links;
      while n > 0
        invariant 0 <= n <= |links|
        invariant View().objects == old(View()).objects
        invariant UndoLinks(View().links, links[..n]) == UndoLinks(old(View()).links, links)
      {
        n := n - 1;
        assert links[..n + 1][..n] == links[..n];
        match links[n] {
          case UndoEdit(k, prior) => edits := Restore(edits, k, prior);
          case UndoOverlay(k, prior) => overlays := Restore(overlays, k, prior);
        }
      }
      ghost var middle := View();
      n := |objects|;
      assert objects[..n] == objects;
      while n > 0
        invariant 0 <= n <= |objects|
        invariant UndoObjects(View(), objects[..n]) == UndoObjects(middle, objects)
      {
        n := n - 1;
        assert objects[..n + 1][..n] == objects[..n];
        match objects[n] {
          case Created(k, _) =>
            if k in instances && instances[k].snapshotId == STRUCTURAL_SNAPSHOT {
              instances := instances - {k};
            }
            edits := WithoutObjects(edits, {k});
          case Deleted(k, _) => tombstones := tombstones - {k};
        }
      }
    }
  }

  lemma {:induction false} FailureStands(c: Context, list: seq<Edit>, n: nat)
    requires n <= |list| && !PlanOf(c, list[..n]).ok
    ensures PlanOf(c, list) == PlanOf(c, list[..n])
    decreases |list|
  {
    if n == |list| {
      assert list[..n] == list;
    } else {
      assert list[..|list| - 1][..n] == list[..n];
      FailureStands(c, list[..|list| - 1], n);
    }
  }

  // ---------------------------------------------------------------- what apply leaves

  /** What one write does to the tables. */
  ghost predicate Carries(c: Context, e: Edit, op: Op) {
    match op
    case SetEdit(k, value) => PutsEdit(c, e, k, value) && (forall x :: NamesEdit(c, e, x) <==> x == k)
    case SetOverlay(k, link) => PutsOverlay(c, e, k, link) && (forall x :: NamesOverlay(c, e, x) <==> x == k)
    case Create(k, data) => Creates(c, e, k) && IsData(c, e.properties, k.id, data) && (forall x :: Creates(c, e, x) <==> x == k)
    case Delete(k) => Deletes(c, e, k) && (forall x :: Deletes(c, e, x) <==> x == k)
  }

  lemma {:induction false} DataIs(c: Context, id: string, properties: seq<Mapping>)
    ensures IsData(c, properties, id, PropertyData(c, id, properties))
  {
    if properties != [] {
      var front := properties[..|properties| - 1];
      DataIs(c, id, front);
      forall p ensures DataAt(c, properties, id, p, Lookup(PropertyData(c, id, properties), p)) {
        assert DataAt(c, front, id, p, Lookup(PropertyData(c, id, front), p));
      }
    }
  }

  /** An edit that can be carried out resolves to the write it stands for, and no other does. */
  lemma ResolvedIs(c: Context, e: Edit)
    ensures Resolve(c, e).Fail? <==> !Feasible(c, e)
    ensures Resolve(c, e).Write? ==> Carries(c, e, Resolve(c, e).op)
    ensures Resolve(c, e).Skip? <==> e.ModifyProperty?
  {
    if e.CreateObject? && Resolve(c, e).Write? {
      DataIs(c, Resolve(c, e).op.subject.id, e.properties);
    }
  }

  /** After one more edit. */
  function After(c: Context, a: Applied, e: Edit): Applied {
    if Resolve(c, e).Write? then Exec(a, Resolve(c, e).op) else a
  }

  lemma NextLinkEffects(c: Context, list: seq<Edit>, t: Tables, a: Applied)
    requires list != [] && HasEffects(c, list[..|list| - 1], t, a.tables) && Feasible(c, list[|list| - 1])
    ensures var t' := After(c, a, list[|list| - 1]).tables;
            && (forall k :: OverlayEffect(c, list, t.links, t'.links, k))
            && (forall k :: EditEffect(c, list, t.links, t'.links, k))
  {
    var front, e, t' := list[..|list| - 1], list[|list| - 1], After(c, a, list[|list| - 1]).tables;
    ResolvedIs(c, e);
    forall k ensures OverlayEffect(c, list, t.links, t'.links, k) {
      assert OverlayEffect(c, front, t.links, a.tables.links, k);
    }
    forall k ensures EditEffect(c, list, t.links, t'.links, k) {
      assert EditEffect(c, front, t.links, a.tables.links, k);
    }
  }

  lemma NextObjectEffects(c: Context, list: seq<Edit>, t: Tables, a: Applied)
    requires list != [] && HasEffects(c, list[..|list| - 1], t, a.tables) && Feasible(c, list[|list| - 1])
    ensures var t' := After(c, a, list[|list| - 1]).tables;
            && (forall k :: InstanceEffect(c, list, t.objects, t'.objects, k))
            && (forall k :: TombstoneEffect(c, list, t.objects, t'.objects, k))
  {
    var front, e, t' := list[..|list| - 1], list[|list| - 1], After(c, a, list[|list| - 1]).tables;
    ResolvedIs(c, e);
    forall k ensures InstanceEffect(c, list, t.objects, t'.objects, k) {
      assert InstanceEffect(c, front, t.objects, a.tables.objects, k);
    }
    forall k ensures TombstoneEffect(c, list, t.objects, t'.objects, k) {
      assert TombstoneEffect(c, front, t.objects, a.tables.objects, k);
      assert InstanceEffect(c, front, t.objects, a.tables.objects, k);
      CreatedLast(c, front, k);
    }
  }

  lemma NextLog(c: Context, list: seq<Edit>, t: Tables, a: Applied)
    requires list != [] && HasEffects(c, list[..|list| - 1], t, a.tables) && Feasible(c, list[|list| - 1])
    requires LogIs(c, list[..|list| - 1], t.objects, a.objects)
    ensures LogIs(c, list, t.objects, After(c, a, list[|list| - 1]).objects)
  {
    var front, e, r := list[..|list| - 1], list[|list| - 1], Resolve(c, list[|list| - 1]);
    ResolvedIs(c, e);
    if r.Write? {
      var log := Exec(a, r.op).objects;
      if r.op.Create? || r.op.Delete? {
        assert log[..|log| - 1] == a.objects;
        assert InstanceEffect(c, front, t.objects, a.tables.objects, r.op.subject);
      }
    }
  }

  /** What was created and not deleted since, or was created at all, has a row. */
  lemma {:induction false} CreatedLast(c: Context, list: seq<Edit>, k: ObjectKey)
    ensures var named := Last(list, e => Creates(c, e, k) || Deletes(c, e, k));
            named.Some? && Creates(c, named.value, k) ==> Last(list, e => Creates(c, e, k)).Some?
  {
    if list != [] {
      CreatedLast(c, list[..|list| - 1], k);
    }
  }

  lemma NothingLeft(c: Context, t: Tables)
    ensures Leaves(c, [], t, ExecAll(t, []))
  {
  }

  lemma LeavesNext(c: Context, list: seq<Edit>, t: Tables, a: Applied)
    requires list != [] && Leaves(c, list[..|list| - 1], t, a) && Feasible(c, list[|list| - 1])
    ensures Leaves(c, list, t, After(c, a, list[|list| - 1]))
  {
    NextLinkEffects(c, list, t, a);
    NextObjectEffects(c, list, t, a);
    NextLog(c, list, t, a);
  }

  lemma ResolvedLast(c: Context, list: seq<Edit>, t: Tables)
    requires list != [] && PlanOf(c, list[..|list| - 1]).ok && !Resolve(c, list[|list| - 1]).Fail?
    ensures PlanOf(c, list).ok
    ensures ExecAll(t, PlanOf(c, list).ops) == After(c, ExecAll(t, PlanOf(c, list[..|list| - 1]).ops), list[|list| - 1])
  {
    var ops, r := PlanOf(c, list[..|list| - 1]).ops, Resolve(c, list[|list| - 1]);
    if r.Write? {
      assert (ops + [r.op])[..|ops|] == ops;
    }
  }

  lemma {:induction false} FeasibleLeaves(c: Context, list: seq<Edit>, t: Tables)
    requires forall i | 0 <= i < |list| :: Feasible(c, list[i])
    ensures PlanOf(c, list).ok && Leaves(c, list, t, ExecAll(t, PlanOf(c, list).ops))
  {
    if list == [] {
      NothingLeft(c, t);
    } else {
      var front, last := list[..|list| - 1], list[|list| - 1];
      FeasibleLeaves(c, front, t);
      ResolvedIs(c, last);
      ResolvedLast(c, list, t);
      LeavesNext(c, list, t, ExecAll(t, PlanOf(c, front).ops));
    }
  }

  lemma PlanLeaves(c: Context, list: seq<Edit>, t: Tables)
    ensures PlanOf(c, list).ok <==> forall e | e in list :: Feasible(c, e)
    ensures Leaves(c, list[..Reached(c, list)], t, ExecAll(t, PlanOf(c, list).ops))
  {
    var n := Reached(c, list);
    FeasibleLeaves(c, list[..n], t);
    if n < |list| {
      assert list[..n + 1][..n] == list[..n];
      ResolvedIs(c, list[n]);
      FailureStands(c, list, n + 1);
      assert list[n] in list;
    } else {
      assert list[..n] == list;
    }
  }

  // ---------------------------------------------------------------- what revert restores

  function CreatedIn(ops: seq<Op>): set<ObjectKey> {
    set i | 0 <= i < |ops| && ops[i].Create? :: ops[i].subject
  }

  function DeletedIn(ops: seq<Op>): set<ObjectKey> {
    set i | 0 <= i < |ops| && ops[i].Delete? :: ops[i].subject
  }

  lemma TouchedSnoc(ops: seq<Op>, op: Op)
    ensures CreatedIn(ops + [op]) == CreatedIn(ops) + (if op.Create? then {op.subject} else {})
    ensures DeletedIn(ops + [op]) == DeletedIn(ops) + (if op.Delete? then {op.subject} else {})
  {
    var all := ops + [op];
    assert forall i | 0 <= i < |ops| :: all[i] == ops[i];
    assert all[|ops|] == op;
  }

  /** Undoing the link log backwards restores edits and overlays whatever the object rules
      did, because those never write these two tables while the action is applied. */
  lemma {:induction false} LinksUndone(t: Tables, ops: seq<Op>)
    ensures var a := ExecAll(t, ops); UndoLinks(a.tables.links, a.links) == t.links
  {
    if ops != [] {
      var front, op := ops[..|ops| - 1], ops[|ops| - 1];
      LinksUndone(t, front);
      var before, after := ExecAll(t, front), ExecAll(t, ops);
      if op.SetEdit? || op.SetOverlay? {
        assert after.links[..|before.links|] == before.links;
        LinkUndone(before, op);
      }
    }
  }

  lemma LinkUndone(a: Applied, op: Op)
    requires op.SetEdit? || op.SetOverlay?
    ensures UndoLink(Exec(a, op).tables.links, Exec(a, op).links[|a.links|]) == a.tables.links
  {
    var links := a.tables.links;
    match op
    case SetEdit(k, value) => assert Restore(links.edits[k := value], k, Lookup(links.edits, k)) == links.edits;
    case SetOverlay(k, link) => assert Restore(links.overlays[k := link], k, Lookup(links.overlays, k)) == links.overlays;
  }

  /** The object log names exactly what was created and deleted. */
  lemma {:induction false} ObjectsLogged(t: Tables, ops: seq<Op>)
    ensures LoggedCreated(ExecAll(t, ops).objects) == CreatedIn(ops)
    ensures LoggedDeleted(ExecAll(t, ops).objects) == DeletedIn(ops)
  {
    if ops != [] {
      var front, op := ops[..|ops| - 1], ops[|ops| - 1];
      ObjectsLogged(t, front);
      TouchedSnoc(front, op);
      assert ops == front + [op];
      var before, after := ExecAll(t, front), ExecAll(t, ops);
      if op.Create? || op.Delete? {
        LoggedSnoc(before.objects, after.objects[|before.objects|]);
      }
    }
  }

  /** Created rows carry the structural snapshot id; every other row is as before. */
  lemma {:induction false} InstancesApplied(t: Tables, ops: seq<Op>)
    ensures var now, c := ExecAll(t, ops).tables.objects.instances, CreatedIn(ops);
            && (forall k | k in c :: k in now && now[k].snapshotId == STRUCTURAL_SNAPSHOT)
            && now - c == t.objects.instances - c
  {
    if ops != [] {
      var front, op := ops[..|ops| - 1], ops[|ops| - 1];
      InstancesApplied(t, front);
      TouchedSnoc(front, op);
      assert ops == front + [op];
      if op.Create? {
        var k, c, was := op.subject, CreatedIn(front), ExecAll(t, front).tables.objects.instances;
        assert ExecAll(t, ops).tables.objects.instances - (c + {k}) == (was - c) - {k};
        assert t.objects.instances - (c + {k}) == (t.objects.instances - c) - {k};
      } else {
        assert CreatedIn(ops) == CreatedIn(front);
      }
    }
  }

  /** Away from deleted objects, only the tombstones of created objects are gone. */
  lemma {:induction false} TombstonesApplied(t: Tables, ops: seq<Op>)
    ensures ExecAll(t, ops).tables.objects.tombstones - DeletedIn(ops)
            == t.objects.tombstones - (CreatedIn(ops) + DeletedIn(ops))
  {
    if ops != [] {
      var front, op := ops[..|ops| - 1], ops[|ops| - 1];
      TombstonesApplied(t, front);
      TouchedSnoc(front, op);
      assert ops == front + [op];
      var c, d, was := CreatedIn(front), DeletedIn(front), ExecAll(t, front).tables.objects.tombstones;
      var now, start := ExecAll(t, ops).tables.objects.tombstones, t.objects.tombstones;
      if op.Create? {
        assert CreatedIn(ops) == c + {op.subject} && DeletedIn(ops) == d;
        assert now - d == (was - d) - {op.subject};
        assert start - (c + {op.subject} + d) == (start - (c + d)) - {op.subject};
      } else if op.Delete? {
        assert CreatedIn(ops) == c && DeletedIn(ops) == d + {op.subject};
        assert now - (d + {op.subject}) == (was - d) - {op.subject};
        assert start - (c + (d + {op.subject})) == (start - (c + d)) - {op.subject};
      } else {
        assert CreatedIn(ops) == c && DeletedIn(ops) == d;
      }
    }
  }

  function LoggedCreated(log: seq<ObjectUndo>): set<ObjectKey> {
    set i | 0 <= i < |log| && log[i].Created? :: log[i].subject
  }

  function LoggedDeleted(log: seq<ObjectUndo>): set<ObjectKey> {
    set i | 0 <= i < |log| && log[i].Deleted? :: log[i].subject
  }

  lemma LoggedSnoc(log: seq<ObjectUndo>, u: ObjectUndo)
    ensures LoggedCreated(log + [u]) == LoggedCreated(log) + (if u.Created? then {u.subject} else {})
    ensures LoggedDeleted(log + [u]) == LoggedDeleted(log) + (if u.Deleted? then {u.subject} else {})
  {
    var all := log + [u];
    assert forall i | 0 <= i < |log| :: all[i] == log[i];
    assert all[|log|] == u;
  }

  lemma {:induction false} ObjectsUndone(t: Tables, log: seq<ObjectUndo>)
    requires forall k | k in LoggedCreated(log) && k in t.objects.instances :: t.objects.instances[k].snapshotId == STRUCTURAL_SNAPSHOT
    ensures UndoObjects(t, log)
            == Tables(LinkTables(WithoutObjects(t.links.edits, LoggedCreated(log)), t.links.overlays),
                      ObjectTables(t.objects.instances - LoggedCreated(log), t.objects.tombstones - LoggedDeleted(log)))
    decreases |log|
  {
    if log == [] {
      assert WithoutObjects(t.links.edits, {}) == t.links.edits;
      assert t.objects.instances - {} == t.objects.instances && t.objects.tombstones - {} == t.objects.tombstones;
    } else {
      var front, u := log[..|log| - 1], log[|log| - 1];
      LoggedSnoc(front, u);
      assert log == front + [u];
      var t' := UndoObject(t, u);
      ObjectsUndone(t', front);
      var c, d := LoggedCreated(front), LoggedDeleted(front);
      match u
      case Created(k, _) =>
        assert WithoutObjects(t'.links.edits, c) == WithoutObjects(t.links.edits, c + {k});
        assert t'.objects.instances - c == t.objects.instances - (c + {k});
      case Deleted(k, _) =>
        assert t'.objects.tombstones - d == t.objects.tombstones - (d + {k});
    }
  }

  /** What revert leaves after apply, for every list of edits: the tables as they were,
      less the edits and rows of every created object and the tombstones of every
      created or deleted one. */
  lemma RevertAfterApply(t: Tables, ops: seq<Op>)
    ensures var a, c, d := ExecAll(t, ops), CreatedIn(ops), DeletedIn(ops);
            Revert(a.tables, a.links, a.objects)
            == Tables(LinkTables(WithoutObjects(t.links.edits, c), t.links.overlays),
                      ObjectTables(t.objects.instances - c, t.objects.tombstones - (c + d)))
  {
    var a := ExecAll(t, ops);
    LinksUndone(t, ops);
    ObjectsLogged(t, ops);
    InstancesApplied(t, ops);
    TombstonesApplied(t, ops);
    ObjectsUndone(a.tables.(links := t.links), a.objects);
  }

  /** Checkable before the call: created ids had no row, tombstone or property edit, and
      deleted ids had no tombstone. */
  ghost predicate Clean(t: Tables, ops: seq<Op>) {
    && (forall k | k in CreatedIn(ops) :: k !in t.objects.instances && k !in t.objects.tombstones)
    && (forall e | e in t.links.edits :: e.on !in CreatedIn(ops))
    && (forall k | k in DeletedIn(ops) :: k !in t.objects.tombstones)
  }

  /** Revert undoes apply exactly on clean targets. */
  lemma RevertUndoesApplyIff(t: Tables, c: Context, edits: seq<Edit>)
    ensures var ops := PlanOf(c, edits).ops;
            var a := ExecAll(t, ops);
            Revert(a.tables, a.links, a.objects) == t <==> Clean(t, ops)
  {
    var ops := PlanOf(c, edits).ops;
    var created, deleted := CreatedIn(ops), DeletedIn(ops);
    RevertAfterApply(t, ops);
    var left := WithoutObjects(t.links.edits, created);
    if Clean(t, ops) {
      assert left == t.links.edits;
      assert t.objects.instances - created == t.objects.instances;
      assert t.objects.tombstones - (created + deleted) == t.objects.tombstones;
    } else {
      if e :| e in t.links.edits && e.on in created {
        assert e !in left;
      } else if k :| k in created && k in t.objects.instances {
        assert k !in t.objects.instances - created;
      } else {
        var k :| k in created + deleted && k in t.objects.tombstones;
        assert k !in t.objects.tombstones - (created + deleted);
      }
    }
  }

  /** Recreating a deleted object clears its tombstone, and revert does not put it back. */
  lemma RecreateThenRevertLosesTombstone(t: Tables, k: ObjectKey, data: map<string, Json>)
    requires k in t.objects.tombstones
    ensures var a := ExecAll(t, [Create(k, data)]);
            k !in Revert(a.tables, a.links, a.objects).objects.tombstones
  {
    RevertAfterApply(t, [Create(k, data)]);
    TouchedSnoc([], Create(k, data));
    assert [] + [Create(k, data)] == [Create(k, data)];
  }
}
