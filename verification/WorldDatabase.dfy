/**
 * The loops of the `instance` command over the content database: the drop in both its copies, the
 * export and the import, each against its function of the database.
 */
module WorldDatabase {
  import opened Wrappers
  import opened Worlds
  import opened WorldBackup
  import D = Dialogues
  import E = EntityDefaults

  // ----- the collecting loops ----------------------------------------------------------------

  method MapCodes(inst: Instance) returns (codes: set<string>)
    ensures codes == ClosureCodes(inst)
  {
    codes := set c | c in inst.mapCodes;
    for k := 0 to |inst.portals|
      invariant codes == ClosureCodes(inst.(portals := inst.portals[..k]))
    {
      var portal := inst.portals[k];
      ClosureSnoc(inst, k);
      if portal.sourceMapCode != "" { codes := codes + {portal.sourceMapCode}; }
      if portal.targetMapCode != "" { codes := codes + {portal.targetMapCode}; }
    }
    assert inst.portals[..|inst.portals|] == inst.portals;
  }

  lemma {:induction false} ClosureSnoc(inst: Instance, k: nat)
    requires k < |inst.portals|
    ensures var p := inst.portals[k];
      ClosureCodes(inst.(portals := inst.portals[..k + 1]))
        == ClosureCodes(inst.(portals := inst.portals[..k]))
           + (if p.sourceMapCode != "" then {p.sourceMapCode} else {})
           + (if p.targetMapCode != "" then {p.targetMapCode} else {})
  {
    assert inst.portals[..k + 1] == inst.portals[..k] + [inst.portals[k]];
  }

  function Carried(entities: seq<seq<string>>): set<string> {
    set e, i | e in entities && i in e :: i
  }

  lemma {:induction false} CarriedSnoc(entities: seq<seq<string>>, e: seq<string>)
    ensures Carried(entities + [e]) == Carried(entities) + set i | i in e
  {
    forall i | i in e ensures i in Carried(entities + [e]) { assert e in entities + [e]; }
    forall i | i in Carried(entities) ensures i in Carried(entities + [e]) {
      var x :| x in entities && i in x;
      assert x in entities + [e];
    }
  }

  method EntityItems(entities: seq<seq<string>>) returns (items: set<string>)
    ensures items == Carried(entities)
  {
    items := {};
    for k := 0 to |entities|
      invariant items == Carried(entities[..k])
    {
      ghost var before := items;
      assert entities[..k + 1] == entities[..k] + [entities[k]];
      CarriedSnoc(entities[..k], entities[k]);
      for n := 0 to |entities[k]|
        invariant items == before + set i | i in entities[k][..n]
      {
        assert entities[k][..n + 1] == entities[k][..n] + [entities[k][n]];
        items := items + {entities[k][n]};
      }
      assert entities[k][..|entities[k]|] == entities[k];
    }
    assert entities[..|entities|] == entities;
  }

  lemma {:induction false} PlacedWith(maps: Coll<MapDoc>, done: set<string>, c: string)
    requires c in maps
    ensures Placed(Within(maps, done + {c})) == Placed(Within(maps, done)) + Carried(maps[c].doc.entities)
  {
    var a, b := Within(maps, done), Within(maps, done + {c});
    forall i | i in Placed(b) ensures i in Placed(a) + Carried(maps[c].doc.entities) {
      var x, e :| x in b && e in b[x].doc.entities && i in e;
      if x != c { assert x in a && e in a[x].doc.entities; }
    }
    forall i | i in Placed(a) ensures i in Placed(b) {
      var x, e :| x in a && e in a[x].doc.entities && i in e;
      assert x in b && e in b[x].doc.entities;
    }
    forall i | i in Carried(maps[c].doc.entities) ensures i in Placed(b) {
      var e :| e in maps[c].doc.entities && i in e;
      assert c in b && e in b[c].doc.entities;
    }
  }

  method PlacedItems(maps: Coll<MapDoc>) returns (items: set<string>)
    ensures items == Placed(maps)
  {
    items := {};
    var todo := maps.Keys;
    while todo != {}
      invariant todo <= maps.Keys
      invariant items == Placed(Within(maps, maps.Keys - todo))
    {
      var c :| c in todo;
      var carried := EntityItems(maps[c].doc.entities);
      PlacedWith(maps, maps.Keys - todo, c);
      assert maps.Keys - (todo - {c}) == maps.Keys - todo + {c};
      items := items + carried;
      todo := todo - {c};
    }
    assert Within(maps, maps.Keys - todo) == maps;
  }

  lemma {:induction false} ThumbsWith(maps: Coll<MapDoc>, done: set<string>, c: string)
    requires c in maps
    ensures MapThumbs(Within(maps, done + {c}))
         == MapThumbs(Within(maps, done)) + NonEmpty({maps[c].doc.thumbnail, maps[c].doc.preview})
  {
    var a, b := Within(maps, done), Within(maps, done + {c});
    forall f | f in MapThumbs(a) ensures f in MapThumbs(b) {
      var x :| x in a && (a[x].doc.thumbnail == f || a[x].doc.preview == f);
      assert x in b && b[x] == a[x];
    }
    forall f | f in MapThumbs(b) ensures f in MapThumbs(a) + NonEmpty({maps[c].doc.thumbnail, maps[c].doc.preview}) {
      var x :| x in b && (b[x].doc.thumbnail == f || b[x].doc.preview == f);
      if x != c { assert x in a && a[x] == b[x]; }
    }
    assert c in b && b[c] == maps[c];
  }

  ghost function IdsIn(ids: seq<string>): set<string> {
    set f | f in ids
  }

  lemma {:induction false} IdsInSnoc(ids: seq<string>, f: string)
    ensures IdsIn(ids + [f]) == IdsIn(ids) + {f}
  {
  }

  method PushIfNamed(ids: seq<string>, f: string) returns (r: seq<string>)
    ensures IdsIn(r) == IdsIn(ids) + NonEmpty({f})
  {
    if f == "" { return ids; }
    IdsInSnoc(ids, f);
    return ids + [f];
  }

  /** `again`: the copy of the drop an import runs pushes the preview of a map twice. */
  method ThumbFileIds(inst: Instance, maps: Coll<MapDoc>, again: bool) returns (ids: seq<string>)
    ensures IdsIn(ids) == NonEmpty({inst.thumbnail, inst.preview}) + MapThumbs(maps)
  {
    ids := PushIfNamed([], inst.thumbnail);
    ids := PushIfNamed(ids, inst.preview);
    var todo := maps.Keys;
    while todo != {}
      invariant todo <= maps.Keys
      invariant IdsIn(ids) == NonEmpty({inst.thumbnail, inst.preview}) + MapThumbs(Within(maps, maps.Keys - todo))
    {
      var c :| c in todo;
      ghost var before := IdsIn(ids);
      ids := PushIfNamed(ids, maps[c].doc.thumbnail);
      ids := PushIfNamed(ids, maps[c].doc.preview);
      if again { ids := PushIfNamed(ids, maps[c].doc.preview); }
      assert IdsIn(ids) == before + NonEmpty({maps[c].doc.thumbnail, maps[c].doc.preview});
      ThumbsWith(maps, maps.Keys - todo, c);
      assert maps.Keys - (todo - {c}) == maps.Keys - todo + {c};
      todo := todo - {c};
    }
    assert Within(maps, maps.Keys - todo) == maps;
  }

  function KeepUnshared(ids: seq<string>, shared: set<string>): (r: seq<string>)
    ensures forall f :: f in r <==> f in ids && f !in shared
  {
    if ids == [] then []
    else if ids[0] in shared then KeepUnshared(ids[1..], shared)
    else [ids[0]] + KeepUnshared(ids[1..], shared)
  }

  /** The backward scan that splices shared ids out of the list it scans: a filter, order kept. */
  method SpliceShared(ids: seq<string>, shared: set<string>) returns (kept: seq<string>)
    ensures kept == KeepUnshared(ids, shared)
  {
    kept := ids;
    var i := |kept| - 1;
    while i >= 0
      invariant -1 <= i < |ids|
      invariant kept == ids[..i + 1] + KeepUnshared(ids[i + 1..], shared)
    {
      assert ids[i..][0] == ids[i] && ids[i..][1..] == ids[i + 1..];
      assert kept[i] == ids[i] && kept[..i] == ids[..i] && kept[i + 1..] == KeepUnshared(ids[i + 1..], shared);
      if kept[i] in shared {
        kept := kept[..i] + kept[i + 1..];
      } else {
        assert kept == kept[..i] + ([kept[i]] + kept[i + 1..]);
      }
      i := i - 1;
    }
    assert ids[..0] == [] && ids[0..] == ids;
  }

  lemma {:induction false} SummonedWith(skills: Coll<Skill>, done: set<string>, t: string)
    requires t in skills
    ensures Summoned(Within(skills, done + {t})) == Summoned(Within(skills, done)) + MaterialIn(skills[t].doc.summons)
  {
    var a, b := Within(skills, done), Within(skills, done + {t});
    forall i | i in Summoned(b) ensures i in Summoned(a) + MaterialIn(skills[t].doc.summons) {
      var x :| x in b && i in b[x].doc.summons && Material(i);
      if x != t { assert x in a && i in a[x].doc.summons; }
    }
    forall i | i in Summoned(a) ensures i in Summoned(b) {
      var x :| x in a && i in a[x].doc.summons && Material(i);
      assert x in b && i in b[x].doc.summons;
    }
    forall i | i in MaterialIn(skills[t].doc.summons) ensures i in Summoned(b) {
      assert t in b && i in b[t].doc.summons;
    }
  }

  function MaterialIn(ids: seq<string>): set<string> {
    set i | i in ids && Material(i)
  }

  /** Adds what the skills the items trigger summon. */
  method AddSummoned(skills: Coll<Skill>, items: set<string>) returns (r: set<string>)
    ensures r == WithSummoned(skills, items)
  {
    var selected := Selected(skills, items);
    r := items;
    var todo := selected.Keys;
    while todo != {}
      invariant todo <= selected.Keys
      invariant r == items + Summoned(Within(selected, selected.Keys - todo))
    {
      var t :| t in todo;
      SummonedWith(selected, selected.Keys - todo, t);
      assert selected.Keys - (todo - {t}) == selected.Keys - todo + {t};
      var summons := selected[t].doc.summons;
      ghost var before := r;
      for k := 0 to |summons|
        invariant r == before + MaterialIn(summons[..k])
      {
        assert summons[..k + 1] == summons[..k] + [summons[k]];
        if summons[k] != "" && summons[k][0] != '$' { r := r + {summons[k]}; }
      }
      assert summons[..|summons|] == summons;
      todo := todo - {t};
    }
    assert Within(selected, selected.Keys - todo) == selected;
  }

  /** Takes out every item a map outside the world places. */
  method RemoveShared(items: set<string>, otherMaps: Coll<MapDoc>) returns (r: set<string>)
    ensures r == items - Placed(otherMaps)
  {
    var placed := PlacedItems(otherMaps);
    var shared := items * placed;
    r := items;
    while shared != {}
      invariant r == items - (items * placed - shared) && shared <= items * placed
    {
      var i :| i in shared;
      r := r - {i};
      shared := shared - {i};
    }
  }

  method CollectDialogues(action: Action) returns (r: set<string>)
    ensures r == NonDefault([action.dialogCode]) + NonDefault(action.questDialogueCodes)
  {
    r := {};
    if action.dialogCode != "" && !IsDefaultCode(action.dialogCode) { r := r + {action.dialogCode}; }
    var list := action.questDialogueCodes;
    for k := 0 to |list|
      invariant r == NonDefault([action.dialogCode]) + NonDefault(list[..k])
    {
      assert list[..k + 1] == list[..k] + [list[k]];
      if list[k] != "" && !IsDefaultCode(list[k]) { r := r + {list[k]}; }
    }
    assert list[..|list|] == list;
  }

  method ActionCodes(actions: Coll<Action>, codes: set<string>) returns (r: set<string>)
    ensures r == DroppedActionDialogues(actions, codes)
  {
    r := {};
    var drop := Bound(actions, codes);
    var todo := drop.Keys;
    while todo != {}
      invariant todo <= drop.Keys
      invariant r == DroppedActionDialogues(Within(drop, drop.Keys - todo), codes)
    {
      var a :| a in todo;
      ActionCodesWith(drop, drop.Keys - todo, a, codes);
      assert drop.Keys - (todo - {a}) == drop.Keys - todo + {a};
      var own := CollectDialogues(drop[a].doc);
      r := r + own;
      todo := todo - {a};
    }
    assert Within(drop, drop.Keys - todo) == drop;
    BoundActionDialogues(actions, codes);
  }

  function NonDefault(codes: seq<string>): set<string> {
    set d | d in codes && d != "" && !IsDefaultCode(d)
  }

  function Bound(actions: Coll<Action>, codes: set<string>): Coll<Action> {
    map a | a in actions && actions[a].doc.sourceMapCode in codes :: actions[a]
  }

  lemma {:induction false} BoundActionDialogues(actions: Coll<Action>, codes: set<string>)
    ensures DroppedActionDialogues(Bound(actions, codes), codes) == DroppedActionDialogues(actions, codes)
  {
    var drop := Bound(actions, codes);
    assert forall a :: a in drop <==> a in actions && actions[a].doc.sourceMapCode in codes;
    forall d ensures d in ActionDialogues(drop, codes) <==> d in ActionDialogues(actions, codes) {
      NamesDialogue(drop, codes, d);
      NamesDialogue(actions, codes, d);
    }
  }

  ghost predicate Names(action: Action, d: string) {
    d != "" && (action.dialogCode == d || d in action.questDialogueCodes)
  }

  lemma {:induction false} NamesDialogue(actions: Coll<Action>, codes: set<string>, d: string)
    ensures d in ActionDialogues(actions, codes)
       <==> exists a :: a in actions && actions[a].doc.sourceMapCode in codes && Names(actions[a].doc, d)
  {
  }

  lemma {:induction false} ActionCodesWith(drop: Coll<Action>, done: set<string>, a: string, codes: set<string>)
    requires a in drop && drop[a].doc.sourceMapCode in codes
    ensures DroppedActionDialogues(Within(drop, done + {a}), codes)
         == DroppedActionDialogues(Within(drop, done), codes)
            + NonDefault([drop[a].doc.dialogCode]) + NonDefault(drop[a].doc.questDialogueCodes)
  {
    var x, y := Within(drop, done), Within(drop, done + {a});
    forall d ensures d in ActionDialogues(y, codes) <==> d in ActionDialogues(x, codes) || Names(drop[a].doc, d) {
      NamesDialogue(x, codes, d);
      NamesDialogue(y, codes, d);
      assert a in y && y[a] == drop[a];
      assert forall k :: k in x ==> k in y && y[k] == x[k];
    }
  }

  lemma {:induction false} DialoguesGoTogether(dialogues: D.Store, a: set<string>, b: set<string>)
    ensures DialoguesOutside(DialoguesOutside(dialogues, a), b) == DialoguesOutside(dialogues, b + a)
  {
  }

  // ----- the command -------------------------------------------------------------------------

  /** The definitions a purge takes, one query by label and one look-up of the ledger each. */
  method FindPurgeable(layers: map<string, string>, items: set<string>,
      registered: set<string>) returns (cids: set<string>)
    ensures cids == PurgedLayers(layers, items, registered)
  {
    var found := set cid | cid in layers && layers[cid] in items;
    cids := found - registered;
  }

  ghost function PurgedWorld(w: World, items: set<string>, host: Host): World {
    var cids := PurgedLayers(w.layers, items, host.registered);
    w.(layers := w.layers - cids, bindings := BindingsWithout(w.bindings, cids), files := w.files - host.renders)
  }

  ghost function Closed(w: World, code: string, thumbs: set<string>): World {
    w.(files := w.files - thumbs, instances := w.instances - {code}, confs := w.confs - {code})
  }

  ghost function MapsGone(w: World, codes: set<string>): World {
    w.(maps := w.maps - codes, audioConfs := w.audioConfs - codes)
  }

  /** What is bound to the maps of a world is gone. */
  ghost function BoundGone(w: World, codes: set<string>, actionCodes: set<string>): World {
    w.(maps := w.maps - codes, audioConfs := w.audioConfs - codes, quests := QuestsOutside(w.quests, codes),
       actions := ActionsOutside(w.actions, codes), dialogues := DialoguesOutside(w.dialogues, actionCodes))
  }

  lemma {:induction false} ThumbsSelected(w: World, code: string, ids: seq<string>, kept: seq<string>)
    requires code in w.instances
    requires IdsIn(ids) == OwnThumbs(w, code) && kept == KeepUnshared(ids, OtherThumbs(w, code))
    ensures (set f | f in kept) == DroppedThumbs(w, code)
  {
    assert forall f :: f in ids <==> f in IdsIn(ids);
  }

  /** The deletes of the drop an import runs, in their order. */
  lemma {:induction false} DropAssembled(w: World, code: string, codes: set<string>, items: set<string>,
      thumbs: set<string>, host: Host)
    ensures var actionCodes := DroppedActionDialogues(w.actions, codes);
      var w1 := BoundGone(w, codes, actionCodes);
      var w2 := w1.(dialogues := DialoguesOutside(w1.dialogues, DefaultCodes(items)), skills := w1.skills - items);
      Closed(PurgedWorld(w2, items, host), code, thumbs) == DropSets(w, code, codes, items, thumbs, true, host)
  {
    DialoguesGoTogether(w.dialogues, DroppedActionDialogues(w.actions, codes), DefaultCodes(items));
  }

  /** The deletes of the standalone drop. */
  lemma {:induction false} StandaloneAssembled(w: World, code: string, codes: set<string>, items: set<string>,
      thumbs: set<string>, host: Host)
    ensures var w1 := MapsGone(w, codes);
      var w2 := w1.(dialogues := DialoguesOutside(w1.dialogues, DefaultCodes(items)));
      Closed(PurgedWorld(w2, items, host), code, thumbs) == DropSets(w, code, codes, items, thumbs, false, host)
  {
    assert DefaultCodes(items) + {} == DefaultCodes(items);
  }

  /** The instance code of the conf of an instance: its own, else the one it names, else the one to create. */
  method FindConf(confs: Coll<Conf>, code: string, inst: Instance) returns (key: string)
    requires UniqueIds(confs)
    ensures key == ConfKey(confs, code, inst) && (key in confs <==> HasConf(confs, code, inst))
  {
    key := code;
    if code !in confs && HasConf(confs, code, inst) {
      key :| key in confs && confs[key].id == inst.conf;
    }
  }

  class Database {
    var w: World

    constructor (w: World)
      ensures this.w == w
    {
      this.w := w;
    }

    /** The purge of some items: their unregistered definitions, the labels bound to those, and their renders. */
    method Purge(items: set<string>, host: Host)
      modifies this
      ensures w == PurgedWorld(old(w), items, host)
    {
      var cids := FindPurgeable(w.layers, items, host.registered);
      w := w.(layers := w.layers - cids);
      w := w.(bindings := BindingsWithout(w.bindings, cids));
      w := w.(files := w.files - host.renders);
    }

    /** `--import --drop`: the drop an import runs first. */
    method DropBeforeImport(code: string, host: Host)
      modifies this
      ensures w == Drop(old(w), code, true, host)
    {
      if code !in w.instances { return; }
      ghost var w0 := w;
      var inst := w.instances[code].doc;
      var codes := MapCodes(inst);
      var otherMaps, otherInstances := w.maps - codes, w.instances - {code};
      var dropMaps := Within(w.maps, codes);
      var thumbFileIds := ThumbFileIds(inst, dropMaps, true);
      var placed := PlacedItems(dropMaps);
      var items := DefaultItems(w.defaults, ConfRefs(w.confs, code, inst)) + placed;
      var actionCodes := ActionCodes(w.actions, codes);
      w := w.(maps := w.maps - codes, audioConfs := w.audioConfs - codes);
      w := w.(quests := QuestsOutside(w.quests, codes), actions := ActionsOutside(w.actions, codes));
      w := w.(dialogues := DialoguesOutside(w.dialogues, actionCodes));
      assert w == BoundGone(w0, codes, actionCodes);
      items := AddSummoned(w.skills, items);
      items := RemoveShared(items, otherMaps);
      assert items == PurgedItems(w0, code);
      var kept := SpliceShared(thumbFileIds, MapThumbs(otherMaps) + InstanceThumbs(otherInstances));
      var thumbs := set f | f in kept;
      ThumbsSelected(w0, code, thumbFileIds, kept);
      w := w.(dialogues := DialoguesOutside(w.dialogues, DefaultCodes(items)), skills := w.skills - items);
      assert w == BoundGone(w0, codes, actionCodes).(
        dialogues := DialoguesOutside(DialoguesOutside(w0.dialogues, actionCodes), DefaultCodes(items)),
        skills := w0.skills - items);
      Purge(items, host);
      CloseDrop(code, thumbs);
      DropAssembled(w0, code, codes, items, thumbs, host);
    }

    /** `--drop` on its own. */
    method DropStandalone(code: string, host: Host)
      modifies this
      ensures w == Drop(old(w), code, false, host)
    {
      if code !in w.instances { return; }
      ghost var w0 := w;
      var inst := w.instances[code].doc;
      var codes := MapCodes(inst);
      var otherMaps, otherInstances := w.maps - codes, w.instances - {code};
      var dropMaps := Within(w.maps, codes);
      var thumbFileIds := ThumbFileIds(inst, dropMaps, false);
      var placed := PlacedItems(dropMaps);
      var items := DefaultItems(w.defaults, ConfRefs(w.confs, code, inst)) + placed;
      w := w.(maps := w.maps - codes, audioConfs := w.audioConfs - codes);
      assert w == MapsGone(w0, codes);
      items := AddSummoned(w.skills, items);
      items := RemoveShared(items, otherMaps);
      assert items == PurgedItems(w0, code);
      var kept := SpliceShared(thumbFileIds, MapThumbs(otherMaps) + InstanceThumbs(otherInstances));
      var thumbs := set f | f in kept;
      ThumbsSelected(w0, code, thumbFileIds, kept);
      w := w.(dialogues := DialoguesOutside(w.dialogues, DefaultCodes(items)));
      assert w == MapsGone(w0, codes).(dialogues := DialoguesOutside(w0.dialogues, DefaultCodes(items)));
      Purge(items, host);
      CloseDrop(code, thumbs);
      StandaloneAssembled(w0, code, codes, items, thumbs, host);
    }

    /** The last deletes of a drop: the pictures, the instance and its conf. */
    method CloseDrop(code: string, thumbs: set<string>)
      modifies this
      ensures w == Closed(old(w), code, thumbs)
    {
      w := w.(files := w.files - thumbs);
      w := w.(instances := w.instances - {code});
      w := w.(confs := w.confs - {code});
    }

    /** Finds the conf of an instance, compacted if it is its own, or creates one and links it. */
    method ExportConf(code: string, newConf: Stored<Conf>) returns (key: string)
      requires code in w.instances && UniqueIds(w.confs)
      modifies this
      ensures w == AfterExport(old(w), code, newConf)
      ensures key == ConfKey(old(w).confs, code, old(w).instances[code].doc) && key in w.confs
    {
      key := FindConf(w.confs, code, w.instances[code].doc);
      var linked := LinkedInstance(w.confs, code, w.instances[code], newConf);
      var confs := Compact(w.confs, code, w.defaults);
      if key !in confs { confs := confs[code := newConf]; }
      w := w.(confs := confs, instances := w.instances[code := linked]);
    }

    /** `--export`: the projection, its dialogue files, and the conf it compacts or creates on the way. */
    method ExportWorld(code: string, newConf: Stored<Conf>) returns (e: Option<Export>, dialogueFiles: seq<D.File>)
      requires UniqueIds(w.confs) && newConf.doc.entityDefaults == []
      modifies this
      ensures code !in old(w).instances ==> e == None && w == old(w)
      ensures code in old(w).instances ==>
        && e == Some(ExportOf(old(w), code, newConf)) && w == AfterExport(old(w), code, newConf)
        && D.ExportedTo(dialogueFiles, e.value.dialogues)
    {
      if code !in w.instances { return None, []; }
      ghost var before := w;
      var inst := w.instances[code];
      var key := ExportConf(code, newConf);
      var codes := MapCodes(inst.doc);
      var named := CollectNamed(w, codes, w.confs[key].doc.entityDefaults);
      NamedIs(before, code, newConf, named);
      var items := AddSummoned(w.skills, named);
      var audio := Within(w.audio, BoundAudio(Within(w.audioConfs, codes)));
      var requested := DefaultCodes(items) + ActionDialogues(w.actions, codes);
      assert requested == RequestedDialogues(before, code);
      var thumbs := NonEmpty({inst.doc.thumbnail, inst.doc.preview}) + MapThumbs(Within(w.maps, codes));
      var dialogues := new D.DialogueCollection(w.dialogues);
      dialogueFiles := dialogues.ExportCodes(requested);
      e := Some(Export(
        inst, key, w.confs[key], Within(w.maps, codes), Within(w.audioConfs, codes), audio,
        QuestsWithin(w.quests, codes), ActionsWithin(w.actions, codes), Selected(w.skills, named),
        RefDefaults(w.defaults, w.confs[key].doc.entityDefaults), D.OfCodes(w.dialogues, requested),
        FilesWithin(w.files, thumbs + AudioFiles(audio)), BoundLayers(w.layers, w.bindings, items)));
    }

    /** `--import`: the restore loops, in their order; false when the `create` of a dialogue file throws. */
    method ImportWorld(code: string, b: Backup, host: Host) returns (ok: bool)
      modifies this
      ensures ok <==> D.Creatable(b.dialogues)
      ensures ok ==> w == Import(old(w), code, b, host)
      ensures !ok ==> w.quests == old(w).quests && w.actions == old(w).actions && w.skills == old(w).skills
                      && w.defaults == old(w).defaults
    {
      var files := RestoreFileLoop(w.files, b.files, b.atlas);
      var layers, bindings := RestoreLayerLoop(w.layers, w.bindings, b.layers);
      files := files - host.renders;
      var maps := RestoreLoop(w.maps, b.maps);
      w := w.(layers := layers, bindings := bindings, maps := maps);
      var audio, afterAudio := RestoreAudioLoop(w.audio, files, b.audio);
      var audioConfs := RestoreLoop(w.audioConfs, b.audioConfs);
      w := w.(audio := audio, files := afterAudio, audioConfs := audioConfs);
      w := w.(confs := Replace(w.confs, b.confKey, b.conf), instances := Replace(w.instances, code, b.instance));
      var dialogues := new D.DialogueCollection(w.dialogues);
      ok := dialogues.Import(b.dialogues);
      w := w.(dialogues := dialogues.store);
      if !ok { return; }
      var quests := RestoreLoop(w.quests, b.quests);
      var actions := RestoreLoop(w.actions, b.actions);
      var skills := RestoreLoop(w.skills, b.skills);
      w := w.(quests := quests, actions := actions, skills := skills);
      ImportDefaults(code, b.defaults);
    }

    /** The entity-type defaults of a backup, and the compaction of the restored conf. */
    method ImportDefaults(code: string, list: seq<E.BackupDefault>)
      modifies this
      ensures var defaults := ImportedDefaults(old(w).confs, old(w).defaults, code, list);
        w == old(w).(defaults := defaults, confs := Compact(old(w).confs, code, defaults))
    {
      var collection := new E.DefaultsCollection(w.defaults, RefsOf(w.confs));
      var count := collection.Import(list, code);
      w := w.(defaults := collection.store);
      if code in w.confs {
        var conf := w.confs[code];
        w := w.(confs := w.confs[code := Stored(conf.id, Conf(collection.confs[code], conf.doc.rest))]);
      }
    }
  }

  /** The items the exported conf wires are those of the conf the drop finds. */
  lemma {:induction false} ExportedRefs(confs: Coll<Conf>, defaults: E.Store, code: string, inst: Instance,
      newConf: Stored<Conf>)
    requires UniqueIds(confs) && newConf.doc.entityDefaults == []
    ensures var after := ConfsAfterExport(confs, defaults, code, inst, newConf);
      var refs := after[ConfKey(confs, code, inst)].doc.entityDefaults;
      DefaultItems(defaults, set r | r in refs) == DefaultItems(defaults, ConfRefs(confs, code, inst))
  {
    var key := ConfKey(confs, code, inst);
    var refs := ConfsAfterExport(confs, defaults, code, inst, newConf)[key].doc.entityDefaults;
    forall r | r in defaults ensures r in refs <==> r in ConfRefs(confs, code, inst) {}
  }

  /** Every item id the maps, the referenced defaults, the actions and the quests of a world name. */
  method CollectNamed(w: World, codes: set<string>, refs: seq<string>) returns (named: set<string>)
    ensures named == NamedBy(w, codes, refs)
  {
    var placed := PlacedItems(Within(w.maps, codes));
    named := (set i | i in placed && Material(i)) + DefaultItems(w.defaults, set r | r in refs)
             + ActionItems(w.actions, codes) + QuestItems(w.quests, codes);
  }

  function NamedBy(w: World, codes: set<string>, refs: seq<string>): set<string> {
    (set i | i in Placed(Within(w.maps, codes)) && Material(i)) + DefaultItems(w.defaults, set r | r in refs)
    + ActionItems(w.actions, codes) + QuestItems(w.quests, codes)
  }

  lemma {:induction false} NamedIs(w: World, code: string, newConf: Stored<Conf>, named: set<string>)
    requires code in w.instances && UniqueIds(w.confs) && newConf.doc.entityDefaults == []
    requires var inst, after := w.instances[code].doc, AfterExport(w, code, newConf);
      named == NamedBy(after, ClosureCodes(inst), after.confs[ConfKey(w.confs, code, inst)].doc.entityDefaults)
    ensures named == NamedItems(w, code)
  {
    ExportedRefs(w.confs, w.defaults, code, w.instances[code].doc, newConf);
  }

  method RestoreLayerLoop(layers: map<string, string>, bindings: map<string, string>, list: seq<(string, Layer)>)
    returns (l: map<string, string>, r: map<string, string>)
    ensures l == RestoreLayers(layers, list) && r == RestoreBindings(bindings, list)
  {
    l, r := layers, bindings;
    for i := 0 to |list|
      invariant l == RestoreLayers(layers, list[..i]) && r == RestoreBindings(bindings, list[..i])
    {
      assert list[..i + 1][..i] == list[..i];
      l := l[list[i].1.cid := list[i].1.item];
      r := r[list[i].0 := list[i].1.cid];
    }
    assert list[..|list|] == list;
  }

  method RestoreFileLoop(files: map<string, string>, list: seq<(string, string)>,
      atlas: set<string>) returns (r: map<string, string>)
    ensures r == RestoreFiles(files, list, atlas)
  {
    r := files;
    for i := 0 to |list|
      invariant r == RestoreFiles(files, list[..i], atlas)
    {
      assert list[..i + 1][..i] == list[..i];
      if list[i].0 in atlas { continue; }
      r := r - {list[i].0};
      r := r[list[i].0 := list[i].1];
    }
    assert list[..|list|] == list;
  }

  method RestoreLoop<T>(m: Coll<T>, list: seq<(string, Stored<T>)>) returns (r: Coll<T>)
    ensures r == RestoreAll(m, list)
  {
    r := m;
    for i := 0 to |list|
      invariant r == RestoreAll(m, list[..i])
    {
      assert list[..i + 1][..i] == list[..i];
      var (key, s) := list[i];
      ghost var replaced := Replace(r, key, s);
      r := r - {key};
      r := map k | k in r && r[k].id != s.id :: r[k];
      r := r[key := s];
      assert r == replaced;
    }
    assert list[..|list|] == list;
  }

  method RestoreAudioLoop(m: Coll<Audio>, files: map<string, string>, list: seq<(string, Stored<Audio>)>)
    returns (r: Coll<Audio>, kept: map<string, string>)
    ensures r == RestoreAll(m, list) && kept == FilesAfterAudio(m, files, list)
  {
    r, kept := m, files;
    for i := 0 to |list|
      invariant r == RestoreAll(m, list[..i]) && kept == FilesAfterAudio(m, files, list[..i])
    {
      assert list[..i + 1][..i] == list[..i];
      var (key, s) := list[i];
      var superseded := SupersededBlobs(r, key, s);
      r := Replace(r, key, s);
      kept := kept - superseded;
    }
    assert list[..|list|] == list;
  }
}
