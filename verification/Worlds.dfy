/**
 * The content database of a Cyberia host and the closure of one world in it: what an instance
 * names, what its export selects and what its drop purges.
 */
module Worlds {
  import D = Dialogues
  import E = EntityDefaults

  /** A document with its `_id`, in a collection keyed by its unique business key. */
  datatype Stored<T> = Stored(id: string, doc: T)
  type Coll<T> = map<string, Stored<T>>

  datatype Portal = Portal(sourceMapCode: string, targetMapCode: string)

  /** A missing reference is the empty string. */
  datatype Instance = Instance(
    thumbnail: string, preview: string, mapCodes: seq<string>, portals: seq<Portal>, conf: string, rest: string)

  datatype Conf = Conf(entityDefaults: seq<string>, rest: string)

  /** `entities`: the item ids of each placed entity. */
  datatype MapDoc = MapDoc(thumbnail: string, preview: string, entities: seq<seq<string>>, rest: string)

  datatype AudioConf = AudioConf(defaultMusic: string, events: seq<string>, rest: string)
  datatype Audio = Audio(fileId: string, rest: string)

  /** `itemIds`: what the objectives and rewards name. `undeclared`: fields the schema no longer holds. */
  datatype Quest = Quest(sourceMapCode: string, itemIds: seq<string>, rest: string, undeclared: string)

  /** `itemIds`: what the catalogs trade. */
  datatype Action = Action(
    sourceMapCode: string, dialogCode: string, questDialogueCodes: seq<string>, itemIds: seq<string>, rest: string,
    undeclared: string)

  datatype Skill = Skill(summons: seq<string>, rest: string)

  /**
   * Instances by code, confs by instance code, maps by code, audio confs by map code, audio assets,
   * quests and actions by code, skills by trigger item; defaults, dialogues and files by `_id`;
   * `layers`: the item label of each object-layer definition, by its cid; `bindings`: the definition each item runs.
   */
  datatype World = World(
    instances: Coll<Instance>,
    confs: Coll<Conf>,
    maps: Coll<MapDoc>,
    audioConfs: Coll<AudioConf>,
    audio: Coll<Audio>,
    quests: Coll<Quest>,
    actions: Coll<Action>,
    skills: Coll<Skill>,
    defaults: E.Store,
    dialogues: D.Store,
    files: map<string, string>,
    layers: map<string, string>,
    bindings: map<string, string>)

  /**
   * What a drop finds outside the database: the definitions the item ledger registers, and the atlas render Files
   * that go with purged definitions or that no atlas holds any more.
   */
  datatype Host = Host(registered: set<string>, renders: set<string>)

  ghost predicate UniqueIds<T(!new)>(m: Coll<T>) {
    forall a, b :: a in m && b in m && m[a].id == m[b].id ==> a == b
  }

  /** The unique `_id` indexes hold, and so do the fields the schemas require. */
  ghost predicate Valid(w: World) {
    && UniqueIds(w.instances) && UniqueIds(w.confs) && UniqueIds(w.maps) && UniqueIds(w.audioConfs)
    && UniqueIds(w.audio) && UniqueIds(w.quests) && UniqueIds(w.actions) && UniqueIds(w.skills)
    && (forall id :: id in w.dialogues ==> w.dialogues[id].code != "")
    && (forall id :: id in w.defaults ==> id != "" && w.defaults[id].key.entityType != "")
  }

  // ----- the closure of one world ------------------------------------------------------------

  /** The map codes of an instance: its own, and both ends of its portals. */
  function ClosureCodes(inst: Instance): set<string> {
    (set c | c in inst.mapCodes)
    + (set p | p in inst.portals && p.sourceMapCode != "" :: p.sourceMapCode)
    + (set p | p in inst.portals && p.targetMapCode != "" :: p.targetMapCode)
  }

  function Within<T>(m: Coll<T>, codes: set<string>): Coll<T> {
    map k | k in m && k in codes :: m[k]
  }

  /** A `$` id is a placeholder the simulation resolves, never a document. */
  predicate Material(itemId: string) {
    itemId != "" && itemId[0] != '$'
  }

  /** Every item id the entities of some maps carry. */
  function Placed(maps: Coll<MapDoc>): set<string> {
    set c, e, i | c in maps && e in maps[c].doc.entities && i in e :: i
  }

  /** The entity-type defaults the conf of an instance references: its own conf, else the one it names. */
  function ConfRefs(confs: Coll<Conf>, code: string, inst: Instance): set<string> {
    if code in confs then set r | r in confs[code].doc.entityDefaults
    else set c, r | c in confs && inst.conf != "" && confs[c].id == inst.conf && r in confs[c].doc.entityDefaults :: r
  }

  predicate HasConf(confs: Coll<Conf>, code: string, inst: Instance) {
    code in confs || (inst.conf != "" && exists c :: c in confs && confs[c].id == inst.conf)
  }

  function DefaultItems(defaults: E.Store, refs: set<string>): set<string> {
    set r, i | r in refs && r in defaults && i in defaults[r].itemIds && Material(i) :: i
  }

  function QuestItems(quests: Coll<Quest>, codes: set<string>): set<string> {
    set q, i | q in quests && quests[q].doc.sourceMapCode in codes && i in quests[q].doc.itemIds && Material(i) :: i
  }

  function ActionItems(actions: Coll<Action>, codes: set<string>): set<string> {
    set a, i | a in actions && actions[a].doc.sourceMapCode in codes && i in actions[a].doc.itemIds && Material(i) :: i
  }

  /** The skills triggered by an owned item, by trigger. */
  function Selected(skills: Coll<Skill>, owned: set<string>): Coll<Skill> {
    map k | k in skills && k != "" && k in owned :: skills[k]
  }

  function Summoned(skills: Coll<Skill>): set<string> {
    set k, i | k in skills && i in skills[k].doc.summons && Material(i) :: i
  }

  // ----- what the export selects -------------------------------------------------------------

  /** Every item id the instance's own content names. */
  function NamedItems(w: World, code: string): set<string>
    requires code in w.instances
  {
    var inst := w.instances[code].doc;
    var codes := ClosureCodes(inst);
    (set i | i in Placed(Within(w.maps, codes)) && Material(i))
    + DefaultItems(w.defaults, ConfRefs(w.confs, code, inst))
    + ActionItems(w.actions, codes) + QuestItems(w.quests, codes)
  }

  /** The named items, and what the skills they trigger summon. */
  function ExportedItems(w: World, code: string): set<string>
    requires code in w.instances
  {
    WithSummoned(w.skills, NamedItems(w, code))
  }

  function DefaultCode(itemId: string): string {
    "default-" + itemId
  }

  /** The dialogue codes the actions of some maps reference. */
  function ActionDialogues(actions: Coll<Action>, codes: set<string>): set<string> {
    (set a | a in actions && actions[a].doc.sourceMapCode in codes && actions[a].doc.dialogCode != ""
        :: actions[a].doc.dialogCode)
    + (set a, d | a in actions && actions[a].doc.sourceMapCode in codes
               && d in actions[a].doc.questDialogueCodes && d != "" :: d)
  }

  function RequestedDialogues(w: World, code: string): set<string>
    requires code in w.instances
  {
    DefaultCodes(ExportedItems(w, code))
    + ActionDialogues(w.actions, ClosureCodes(w.instances[code].doc))
  }

  // ----- what the drop takes -----------------------------------------------------------------

  /** What the dropped world names: placed items as they are written, and what its defaults wire. */
  function DropBase(w: World, code: string): set<string>
    requires code in w.instances
  {
    var inst := w.instances[code].doc;
    BaseItems(w.maps, ClosureCodes(inst), DefaultItems(w.defaults, ConfRefs(w.confs, code, inst)))
  }

  function BaseItems(maps: Coll<MapDoc>, codes: set<string>, wired: set<string>): set<string> {
    wired + Placed(Within(maps, codes))
  }

  function DropItems(w: World, code: string): set<string>
    requires code in w.instances
  {
    WithSummoned(w.skills, DropBase(w, code))
  }

  function WithSummoned(skills: Coll<Skill>, items: set<string>): set<string> {
    items + Summoned(Selected(skills, items))
  }

  /** The items purged: no map outside the world places one. */
  function PurgedItems(w: World, code: string): set<string>
    requires code in w.instances
  {
    Unshared(DropItems(w, code), w.maps, ClosureCodes(w.instances[code].doc))
  }

  function Unshared(items: set<string>, maps: Coll<MapDoc>, codes: set<string>): set<string> {
    items - Placed(maps - codes)
  }

  function NonEmpty(ids: set<string>): set<string> {
    set f | f in ids && f != ""
  }

  function MapThumbs(maps: Coll<MapDoc>): set<string> {
    NonEmpty((set c | c in maps :: maps[c].doc.thumbnail) + (set c | c in maps :: maps[c].doc.preview))
  }

  function InstanceThumbs(instances: Coll<Instance>): set<string> {
    NonEmpty((set c | c in instances :: instances[c].doc.thumbnail)
             + (set c | c in instances :: instances[c].doc.preview))
  }

  /** The pictures of the dropped world. */
  function OwnThumbs(w: World, code: string): set<string>
    requires code in w.instances
  {
    var inst := w.instances[code].doc;
    NonEmpty({inst.thumbnail, inst.preview}) + MapThumbs(Within(w.maps, ClosureCodes(inst)))
  }

  /** The pictures of the other maps and the other instances. */
  function OtherThumbs(w: World, code: string): set<string>
    requires code in w.instances
  {
    MapThumbs(w.maps - ClosureCodes(w.instances[code].doc)) + InstanceThumbs(w.instances - {code})
  }

  function DroppedThumbs(w: World, code: string): set<string>
    requires code in w.instances
  {
    OwnThumbs(w, code) - OtherThumbs(w, code)
  }

  predicate IsDefaultCode(dialogCode: string) {
    "default-" <= dialogCode
  }

  /** The dialogue codes a drop before an import deletes with the actions. */
  function DroppedActionDialogues(actions: Coll<Action>, codes: set<string>): set<string> {
    set d | d in ActionDialogues(actions, codes) && !IsDefaultCode(d)
  }

  function DefaultCodes(itemIds: set<string>): set<string> {
    set i | i in itemIds :: DefaultCode(i)
  }

  function QuestsOutside(quests: Coll<Quest>, codes: set<string>): Coll<Quest> {
    map q | q in quests && quests[q].doc.sourceMapCode !in codes :: quests[q]
  }

  function ActionsOutside(actions: Coll<Action>, codes: set<string>): Coll<Action> {
    map a | a in actions && actions[a].doc.sourceMapCode !in codes :: actions[a]
  }

  function DialoguesOutside(dialogues: D.Store, codes: set<string>): D.Store {
    map id | id in dialogues && dialogues[id].code !in codes :: dialogues[id]
  }

  /** The definitions a purge of some items removes: by their label, those the item ledger does not register. */
  function PurgedLayers(layers: map<string, string>, purged: set<string>, registered: set<string>): set<string> {
    set cid | cid in layers && layers[cid] in purged && cid !in registered
  }

  /** The labels bound to a deleted definition go with it. */
  function BindingsWithout(bindings: map<string, string>, cids: set<string>): map<string, string> {
    map i | i in bindings && bindings[i] !in cids :: bindings[i]
  }

  /**
   * The drop of one world. `forImport`: the drop an import runs first, which takes the quests, the
   * actions, their dialogues and the skills too; the standalone drop leaves those.
   */
  function Drop(w: World, code: string, forImport: bool, host: Host): World {
    if code !in w.instances then w
    else
      DropSets(w, code, ClosureCodes(w.instances[code].doc), PurgedItems(w, code), DroppedThumbs(w, code),
               forImport, host)
  }

  function DropSets(w: World, code: string, codes: set<string>, purged: set<string>, thumbs: set<string>,
      forImport: bool, host: Host): World {
    var cids := PurgedLayers(w.layers, purged, host.registered);
    World(
      w.instances - {code},
      w.confs - {code},
      w.maps - codes,
      w.audioConfs - codes,
      w.audio,
      if forImport then QuestsOutside(w.quests, codes) else w.quests,
      if forImport then ActionsOutside(w.actions, codes) else w.actions,
      if forImport then w.skills - purged else w.skills,
      w.defaults,
      DialoguesOutside(w.dialogues,
        DefaultCodes(purged) + if forImport then DroppedActionDialogues(w.actions, codes) else {}),
      w.files - host.renders - thumbs,
      w.layers - cids,
      BindingsWithout(w.bindings, cids))
  }

  // ----- what a world uses, names and shows --------------------------------------------------

  /** A map of the world places the item. */
  ghost predicate PlacedBy(w: World, codes: set<string>, i: string) {
    exists c, e :: c in w.maps && c in codes && e in w.maps[c].doc.entities && i in e
  }

  ghost predicate PlacedOutside(w: World, codes: set<string>, i: string) {
    exists c, e :: c in w.maps && c !in codes && e in w.maps[c].doc.entities && i in e
  }

  /** An entity-type default the world references carries the item. */
  ghost predicate Wired(w: World, code: string, i: string)
    requires code in w.instances
  {
    Material(i)
    && exists r :: r in ConfRefs(w.confs, code, w.instances[code].doc) && r in w.defaults && i in w.defaults[r].itemIds
  }

  /** A quest or an action of the world asks for, pays out or trades the item. */
  ghost predicate Traded(w: World, codes: set<string>, i: string) {
    Material(i)
    && ((exists q :: q in w.quests && w.quests[q].doc.sourceMapCode in codes && i in w.quests[q].doc.itemIds)
        || (exists a :: a in w.actions && w.actions[a].doc.sourceMapCode in codes && i in w.actions[a].doc.itemIds))
  }

  /** The skill item `t` triggers summons item `i`. */
  ghost predicate Summons(w: World, t: string, i: string) {
    t in w.skills && t != "" && i in w.skills[t].doc.summons && Material(i)
  }

  /** What a drop starts from: placed by the world, placeholders included, or wired. */
  ghost predicate Uses(w: World, code: string, i: string)
    requires code in w.instances
  {
    PlacedBy(w, ClosureCodes(w.instances[code].doc), i) || Wired(w, code, i)
  }

  /** What an export starts from: documents' ids only, what quests and actions trade included. */
  ghost predicate Names(w: World, code: string, i: string)
    requires code in w.instances
  {
    var codes := ClosureCodes(w.instances[code].doc);
    Material(i) && (PlacedBy(w, codes, i) || Wired(w, code, i) || Traded(w, codes, i))
  }

  /** The world uses the item, or a skill it uses summons it, and no map of another world places it. */
  ghost predicate UsedAlone(w: World, code: string, i: string)
    requires code in w.instances
  {
    && !PlacedOutside(w, ClosureCodes(w.instances[code].doc), i)
    && (Uses(w, code, i) || exists t :: Uses(w, code, t) && Summons(w, t, i))
  }

  ghost predicate Carries(w: World, code: string, i: string)
    requires code in w.instances
  {
    Names(w, code, i) || exists t :: Names(w, code, t) && Summons(w, t, i)
  }

  lemma {:induction false} UsesExactly(w: World, code: string, i: string)
    requires code in w.instances
    ensures i in DropBase(w, code) <==> Uses(w, code, i)
  {
    var inst := w.instances[code].doc;
    var own := Within(w.maps, ClosureCodes(inst));
    if PlacedBy(w, ClosureCodes(inst), i) {
      var c, e :| c in w.maps && c in ClosureCodes(inst) && e in w.maps[c].doc.entities && i in e;
      assert c in own && e in own[c].doc.entities;
    }
    assert i in DefaultItems(w.defaults, ConfRefs(w.confs, code, inst)) <==> Wired(w, code, i);
  }

  lemma {:induction false} NamesExactly(w: World, code: string, i: string)
    requires code in w.instances
    ensures i in NamedItems(w, code) <==> Names(w, code, i)
  {
    var inst := w.instances[code].doc;
    var codes := ClosureCodes(inst);
    UsesExactly(w, code, i);
    assert i in DefaultItems(w.defaults, ConfRefs(w.confs, code, inst)) <==> Wired(w, code, i);
    assert i in QuestItems(w.quests, codes) + ActionItems(w.actions, codes) <==> Traded(w, codes, i);
    PlacedExactly(w, codes, i);
  }

  lemma {:induction false} PlacedExactly(w: World, codes: set<string>, i: string)
    ensures i in Placed(Within(w.maps, codes)) <==> PlacedBy(w, codes, i)
    ensures i in Placed(w.maps - codes) <==> PlacedOutside(w, codes, i)
  {
    var own, others := Within(w.maps, codes), w.maps - codes;
    forall c, e | c in w.maps && e in w.maps[c].doc.entities && i in e
      ensures i in if c in codes then Placed(own) else Placed(others)
    {
      if c in codes {
        assert c in own && e in own[c].doc.entities;
      } else {
        assert c in others && e in others[c].doc.entities;
      }
    }
  }

  lemma {:induction false} WithSummonedExactly(w: World, items: set<string>, i: string)
    ensures i in WithSummoned(w.skills, items) <==> i in items || exists t :: t in items && Summons(w, t, i)
  {
    var selected := Selected(w.skills, items);
    forall t | t in items && Summons(w, t, i) ensures i in Summoned(selected) {
      assert t in selected && i in selected[t].doc.summons;
    }
    if i in Summoned(selected) {
      var t :| t in selected && i in selected[t].doc.summons && Material(i);
      assert t in items && Summons(w, t, i);
    }
  }

  /** What a drop purges, in terms of the content: an item is purged if and only if only this world uses it. */
  lemma {:induction false} PurgedOnContent(w: World, code: string, i: string)
    requires code in w.instances
    ensures i in PurgedItems(w, code) <==> UsedAlone(w, code, i)
  {
    WithSummonedExactly(w, DropBase(w, code), i);
    forall t ensures t in DropBase(w, code) <==> Uses(w, code, t) { UsesExactly(w, code, t); }
    PlacedExactly(w, ClosureCodes(w.instances[code].doc), i);
  }

  /** What an export carries object layers and default dialogues of, in terms of the content. */
  lemma {:induction false} ExportedOnContent(w: World, code: string, i: string)
    requires code in w.instances
    ensures i in ExportedItems(w, code) <==> Carries(w, code, i)
  {
    WithSummonedExactly(w, NamedItems(w, code), i);
    forall t ensures t in NamedItems(w, code) <==> Names(w, code, t) { NamesExactly(w, code, t); }
  }

  /**
   * What a drop purges and the export before it does not carry: a placeholder, or an item that only placeholders
   * of the world summon; in both cases one no other world places.
   */
  ghost predicate Forgotten(w: World, code: string, i: string)
    requires code in w.instances
  {
    var codes := ClosureCodes(w.instances[code].doc);
    && !PlacedOutside(w, codes, i)
    && (if !Material(i) then PlacedBy(w, codes, i)
        else !Carries(w, code, i) && exists t :: !Material(t) && PlacedBy(w, codes, t) && Summons(w, t, i))
  }

  lemma {:induction false} ForgottenExactly(w: World, code: string, i: string)
    requires code in w.instances
    ensures i in PurgedItems(w, code) && i !in ExportedItems(w, code) <==> Forgotten(w, code, i)
  {
    PurgedOnContent(w, code, i);
    ExportedOnContent(w, code, i);
    assert forall t :: Uses(w, code, t) && Material(t) ==> Names(w, code, t);
    assert forall t :: Uses(w, code, t) && !Material(t) ==> PlacedBy(w, ClosureCodes(w.instances[code].doc), t);
  }

  // ----- drop protection ---------------------------------------------------------------------

  /**
   * A placed item of a surviving map keeps its object layers, and a surviving picture keeps its File, unless that is
   * a render of a purged definition. No other map and no other instance moves.
   */
  lemma {:induction false} DropHarmsNoSurvivor(w: World, code: string, forImport: bool, host: Host)
    requires code in w.instances
    ensures var after := Drop(w, code, forImport, host);
      && (forall cid :: cid in w.layers && w.layers[cid] in Placed(after.maps) ==>
            cid in after.layers && after.layers[cid] == w.layers[cid])
      && (forall f :: f in MapThumbs(after.maps) + InstanceThumbs(after.instances) && f in w.files ==>
            (f in after.files <==> f !in host.renders) && (f in after.files ==> after.files[f] == w.files[f]))
      && (forall k :: k in w.maps && k !in ClosureCodes(w.instances[code].doc) ==>
            k in after.maps && after.maps[k] == w.maps[k])
      && (forall k :: k in w.instances && k != code ==> k in after.instances && after.instances[k] == w.instances[k])
  {
  }

  /** An action of the dropped world names the dialogue code. */
  ghost predicate NamedByAction(w: World, codes: set<string>, d: string) {
    d != "" && exists a :: a in w.actions && w.actions[a].doc.sourceMapCode in codes
                           && (w.actions[a].doc.dialogCode == d || d in w.actions[a].doc.questDialogueCodes)
  }

  ghost predicate MapShows(maps: Coll<MapDoc>, c: string, f: string) {
    c in maps && (maps[c].doc.thumbnail == f || maps[c].doc.preview == f)
  }

  ghost predicate InstanceShows(instances: Coll<Instance>, k: string, f: string) {
    k in instances && (instances[k].doc.thumbnail == f || instances[k].doc.preview == f)
  }

  /** A document of the world has the File as its thumbnail or preview. */
  ghost predicate ShownBy(w: World, code: string, f: string)
    requires code in w.instances
  {
    var codes := ClosureCodes(w.instances[code].doc);
    f != "" && (InstanceShows(w.instances, code, f) || exists c :: c in codes && MapShows(w.maps, c, f))
  }

  /** A document of another world does. */
  ghost predicate ShownElsewhere(w: World, code: string, f: string)
    requires code in w.instances
  {
    var codes := ClosureCodes(w.instances[code].doc);
    (exists c :: c !in codes && MapShows(w.maps, c, f)) || (exists k :: k != code && InstanceShows(w.instances, k, f))
  }

  lemma {:induction false} MapThumbsExactly(maps: Coll<MapDoc>, codes: set<string>, f: string)
    ensures f in MapThumbs(Within(maps, codes)) <==> f != "" && exists c :: c in codes && MapShows(maps, c, f)
    ensures f in MapThumbs(maps - codes) <==> f != "" && exists c :: c !in codes && MapShows(maps, c, f)
  {
    var own, others := Within(maps, codes), maps - codes;
    forall c | MapShows(maps, c, f) && f != "" ensures f in if c in codes then MapThumbs(own) else MapThumbs(others) {
      if c in codes { assert c in own && own[c] == maps[c]; } else { assert c in others && others[c] == maps[c]; }
    }
    if f in MapThumbs(own) {
      var c :| c in own && (own[c].doc.thumbnail == f || own[c].doc.preview == f);
      assert c in codes && MapShows(maps, c, f);
    }
    if f in MapThumbs(others) {
      var c :| c in others && (others[c].doc.thumbnail == f || others[c].doc.preview == f);
      assert c !in codes && MapShows(maps, c, f);
    }
  }

  lemma {:induction false} InstanceThumbsExactly(instances: Coll<Instance>, code: string, f: string)
    ensures f in InstanceThumbs(instances - {code}) <==>
      f != "" && exists k :: k != code && InstanceShows(instances, k, f)
  {
    var others := instances - {code};
    forall k | k != code && InstanceShows(instances, k, f) && f != "" ensures f in InstanceThumbs(others) {
      assert k in others && others[k] == instances[k];
    }
    if f in InstanceThumbs(others) {
      var k :| k in others && (others[k].doc.thumbnail == f || others[k].doc.preview == f);
      assert k != code && InstanceShows(instances, k, f);
    }
  }

  lemma {:induction false} ThumbsExactly(w: World, code: string, f: string)
    requires code in w.instances
    ensures f in DroppedThumbs(w, code) <==> ShownBy(w, code, f) && !ShownElsewhere(w, code, f)
  {
    MapThumbsExactly(w.maps, ClosureCodes(w.instances[code].doc), f);
    InstanceThumbsExactly(w.instances, code, f);
  }

  /**
   * What a drop takes, read off the content. An object layer goes if and only if the item ledger does not register it
   * and only this world uses its item: it places or wires the item, or uses one whose skill summons it, and no map of
   * another world places it. A skill goes before an import under the same rule for its trigger. A File goes if it is
   * a render of a purged definition, or the world shows it and no other does.
   */
  lemma {:induction false} DropTakesExactly(w: World, code: string, forImport: bool, host: Host)
    requires code in w.instances
    ensures var after := Drop(w, code, forImport, host);
      && (forall cid :: cid in w.layers ==>
            (cid !in after.layers <==> cid !in host.registered && UsedAlone(w, code, w.layers[cid])))
      && (forall t :: t in w.skills ==> (t !in after.skills <==> forImport && UsedAlone(w, code, t)))
      && (forall f :: f in w.files ==>
            (f !in after.files <==> f in host.renders || (ShownBy(w, code, f) && !ShownElsewhere(w, code, f))))
  {
    forall i ensures i in PurgedItems(w, code) <==> UsedAlone(w, code, i) { PurgedOnContent(w, code, i); }
    forall f ensures f in DroppedThumbs(w, code) <==> ShownBy(w, code, f) && !ShownElsewhere(w, code, f) {
      ThumbsExactly(w, code, f);
    }
  }

  lemma {:induction false} ActionNamesExactly(w: World, codes: set<string>, d: string)
    ensures d in ActionDialogues(w.actions, codes) <==> NamedByAction(w, codes, d)
  {
  }

  lemma {:induction false} DefaultCodeInjective(i: string, j: string)
    requires DefaultCode(i) == DefaultCode(j)
    ensures i == j
  {
    assert DefaultCode(i)[8..] == i && DefaultCode(j)[8..] == j;
  }

  /** A dialogue goes if it is the default one of an item only this world uses, or its actions name it. */
  lemma {:induction false} DropTakesDialoguesExactly(w: World, code: string, forImport: bool, host: Host, id: string)
    requires code in w.instances && id in w.dialogues
    ensures var after, d := Drop(w, code, forImport, host), w.dialogues[id].code;
      id !in after.dialogues <==>
        || (exists i :: UsedAlone(w, code, i) && d == DefaultCode(i))
        || (forImport && !IsDefaultCode(d) && NamedByAction(w, ClosureCodes(w.instances[code].doc), d))
  {
    var d := w.dialogues[id].code;
    ActionNamesExactly(w, ClosureCodes(w.instances[code].doc), d);
    forall i ensures i in PurgedItems(w, code) <==> UsedAlone(w, code, i) { PurgedOnContent(w, code, i); }
    assert d in DefaultCodes(PurgedItems(w, code)) <==> exists i :: i in PurgedItems(w, code) && d == DefaultCode(i);
  }

  /**
   * Dialogues of actions are not protected: one that an action of another world names too is deleted, and that
   * action stays.
   */
  lemma {:induction false} SharedActionDialogueGoes(w: World, code: string, host: Host, id: string, other: string)
    requires code in w.instances && id in w.dialogues && other in w.actions
    requires var codes, d := ClosureCodes(w.instances[code].doc), w.dialogues[id].code;
      NamedByAction(w, codes, d) && !IsDefaultCode(d)
      && w.actions[other].doc.sourceMapCode !in codes && w.actions[other].doc.dialogCode == d
    ensures var after := Drop(w, code, true, host); other in after.actions && id !in after.dialogues
  {
    DropTakesDialoguesExactly(w, code, true, host, id);
  }

  /** Nothing is purged without a reason: a map or a default of the world names it, or one of its skills summons it. */
  lemma {:induction false} PurgedIsNamedOrSummoned(w: World, code: string, i: string)
    requires code in w.instances && i in PurgedItems(w, code)
    ensures var inst := w.instances[code].doc;
      || (exists c, e :: c in w.maps && c in ClosureCodes(inst) && e in w.maps[c].doc.entities && i in e)
      || (exists r :: r in ConfRefs(w.confs, code, inst) && r in w.defaults && i in w.defaults[r].itemIds)
      || (exists t :: t in w.skills && t in DropBase(w, code) && i in w.skills[t].doc.summons)
  {
  }

  lemma {:induction false} BothSetsTheSame(w: World, code: string, codes: set<string>, purged: set<string>,
      thumbs: set<string>, host: Host)
    ensures var a := DropSets(w, code, codes, purged, thumbs, true, host);
      var b := DropSets(w, code, codes, purged, thumbs, false, host);
      && a == b.(quests := a.quests, actions := a.actions, skills := a.skills, dialogues := a.dialogues)
      && a.dialogues.Keys <= b.dialogues.Keys && a.skills.Keys <= b.skills.Keys
  {
  }

  /**
   * Both copies of the drop take the same items and the same pictures: the object layers and the
   * Files they leave are equal, and everything the standalone one deletes the other deletes too.
   */
  lemma {:induction false} BothDropsSelectTheSame(w: World, code: string, host: Host)
    ensures var a, b := Drop(w, code, true, host), Drop(w, code, false, host);
      && a.layers == b.layers && a.bindings == b.bindings && a.files == b.files && a.maps == b.maps
      && a.audioConfs == b.audioConfs && a.instances == b.instances && a.confs == b.confs
      && a.dialogues.Keys <= b.dialogues.Keys && a.skills.Keys <= b.skills.Keys
  {
    if code in w.instances {
      BothSetsTheSame(w, code, ClosureCodes(w.instances[code].doc), PurgedItems(w, code), DroppedThumbs(w, code), host);
    }
  }

  /**
   * Only placed items protect. An item that another world's defaults wire, and that no map outside the
   * dropped world places, is purged with it.
   */
  lemma {:induction false} PurgedExactly(w: World, code: string, i: string)
    requires code in w.instances && i in DropItems(w, code)
    ensures i in PurgedItems(w, code) <==>
            forall c, e :: c in w.maps && e in w.maps[c].doc.entities && i in e ==>
              c in ClosureCodes(w.instances[code].doc)
  {
    PlacedExactly(w, ClosureCodes(w.instances[code].doc), i);
  }
}
