/**
 * The backup of one world: what the export writes, what the import restores, and what is left of a
 * world that is exported, dropped and imported again.
 */
module WorldBackup {
  import opened Worlds
  import D = Dialogues
  import E = EntityDefaults

  // ----- the export --------------------------------------------------------------------------

  /** A definition as a backup holds it: its cid and its label. */
  datatype Layer = Layer(cid: string, item: string)

  /**
   * The projection an export writes. Directories are maps: one file per document, named by its key; `conf` is the
   * conf with its instance code, `layers` the definition each exported item runs.
   */
  datatype Export = Export(
    instance: Stored<Instance>,
    confKey: string,
    conf: Stored<Conf>,
    maps: Coll<MapDoc>,
    audioConfs: Coll<AudioConf>,
    audio: Coll<Audio>,
    quests: Coll<Quest>,
    actions: Coll<Action>,
    skills: Coll<Skill>,
    defaults: E.Store,
    dialogues: D.Store,
    files: map<string, string>,
    layers: map<string, Layer>)

  function BoundAudio(confs: Coll<AudioConf>): set<string> {
    (set c | c in confs && confs[c].doc.defaultMusic != "" :: confs[c].doc.defaultMusic)
    + (set c, e | c in confs && e in confs[c].doc.events && e != "" :: e)
  }

  /** A document with only what its schema declares. */
  function DeclaredQuest(s: Stored<Quest>): Stored<Quest> {
    s.(doc := s.doc.(undeclared := ""))
  }

  function DeclaredAction(s: Stored<Action>): Stored<Action> {
    s.(doc := s.doc.(undeclared := ""))
  }

  function QuestsWithin(quests: Coll<Quest>, codes: set<string>): Coll<Quest> {
    map q | q in quests && quests[q].doc.sourceMapCode in codes :: DeclaredQuest(quests[q])
  }

  function ActionsWithin(actions: Coll<Action>, codes: set<string>): Coll<Action> {
    map a | a in actions && actions[a].doc.sourceMapCode in codes :: DeclaredAction(actions[a])
  }

  function FilesWithin(files: map<string, string>, ids: set<string>): map<string, string> {
    map f | f in files && f in ids :: files[f]
  }

  function AudioFiles(audio: Coll<Audio>): set<string> {
    NonEmpty(set c | c in audio :: audio[c].doc.fileId)
  }

  /** The instance code of the conf an export finds or creates: the instance's own, else the one its `conf` names. */
  ghost function ConfKey(confs: Coll<Conf>, code: string, inst: Instance): (key: string)
    ensures code in confs ==> key == code
    ensures HasConf(confs, code, inst) ==> key in confs && (key == code || confs[key].id == inst.conf)
    ensures !HasConf(confs, code, inst) ==> key == code
  {
    if code in confs || !HasConf(confs, code, inst) then code
    else
      var c :| c in confs && confs[c].id == inst.conf; c
  }

  function RefDefaults(defaults: E.Store, refs: seq<string>): E.Store {
    map r | r in defaults && r in refs :: defaults[r]
  }

  /** The definition each of some items runs, where the catalog binds one this host serves. */
  function BoundLayers(layers: map<string, string>, bindings: map<string, string>,
      items: set<string>): map<string, Layer> {
    map i | i in bindings && i in items && bindings[i] in layers :: Layer(bindings[i], layers[bindings[i]])
  }

  /** What an export of a world writes; `newConf` is the conf it creates when it finds none. */
  ghost function ExportOf(w: World, code: string, newConf: Stored<Conf>): Export
    requires code in w.instances
  {
    var inst := w.instances[code].doc;
    var codes := ClosureCodes(inst);
    var audio := Within(w.audio, BoundAudio(Within(w.audioConfs, codes)));
    var confs := ConfsAfterExport(w.confs, w.defaults, code, inst, newConf);
    var key := ConfKey(w.confs, code, inst);
    Export(
      w.instances[code],
      key,
      confs[key],
      Within(w.maps, codes),
      Within(w.audioConfs, codes),
      audio,
      QuestsWithin(w.quests, codes),
      ActionsWithin(w.actions, codes),
      Selected(w.skills, NamedItems(w, code)),
      RefDefaults(w.defaults, confs[key].doc.entityDefaults),
      D.OfCodes(w.dialogues, RequestedDialogues(w, code)),
      FilesWithin(w.files, OwnThumbs(w, code) + AudioFiles(audio)),
      BoundLayers(w.layers, w.bindings, ExportedItems(w, code)))
  }

  /**
   * What an export changes in the database: the conf of the instance is compacted; when no conf is
   * found a default one is created, and the instance is pointed at it if it named none.
   */
  function AfterExport(w: World, code: string, newConf: Stored<Conf>): World
    requires code in w.instances
  {
    w.(confs := ConfsAfterExport(w.confs, w.defaults, code, w.instances[code].doc, newConf),
       instances := w.instances[code := LinkedInstance(w.confs, code, w.instances[code], newConf)])
  }

  function Compact(confs: Coll<Conf>, code: string, defaults: E.Store): Coll<Conf> {
    if code in confs then
      var doc := confs[code].doc;
      confs[code := Stored(confs[code].id, Conf(E.Kept(doc.entityDefaults, defaults), doc.rest))]
    else confs
  }

  function ConfsAfterExport(confs: Coll<Conf>, defaults: E.Store, code: string, inst: Instance,
      newConf: Stored<Conf>): Coll<Conf> {
    if code in confs || HasConf(confs, code, inst) then Compact(confs, code, defaults) else confs[code := newConf]
  }

  function LinkedInstance(confs: Coll<Conf>, code: string, inst: Stored<Instance>,
      newConf: Stored<Conf>): Stored<Instance> {
    if HasConf(confs, code, inst.doc) || inst.doc.conf != "" then inst
    else Stored(inst.id, inst.doc.(conf := newConf.id))
  }

  // ----- the import --------------------------------------------------------------------------

  /**
   * A backup directory as it is read back: the files of each sub-directory in listing order. `conf` is the conf as
   * the schema makes it whole; `atlas` are the File ids its atlases own, which travel with their object layers.
   */
  datatype Backup = Backup(
    instance: Stored<Instance>,
    confKey: string,
    conf: Stored<Conf>,
    maps: seq<(string, Stored<MapDoc>)>,
    audioConfs: seq<(string, Stored<AudioConf>)>,
    audio: seq<(string, Stored<Audio>)>,
    quests: seq<(string, Stored<Quest>)>,
    actions: seq<(string, Stored<Action>)>,
    skills: seq<(string, Stored<Skill>)>,
    defaults: seq<E.BackupDefault>,
    dialogues: seq<D.File>,
    files: seq<(string, string)>,
    layers: seq<(string, Layer)>,
    atlas: set<string>)

  /** Delete by key, delete by `_id`, create. */
  function Replace<T>(m: Coll<T>, key: string, s: Stored<T>): Coll<T> {
    (map k | k in m && k != key && m[k].id != s.id :: m[k])[key := s]
  }

  function RestoreAll<T>(m: Coll<T>, files: seq<(string, Stored<T>)>): Coll<T> {
    if files == [] then m
    else
      var n := |files| - 1;
      Replace(RestoreAll(m, files[..n]), files[n].0, files[n].1)
  }

  /** The blobs the replacement of one audio asset deletes. */
  function SupersededBlobs(audio: Coll<Audio>, key: string, s: Stored<Audio>): set<string> {
    set k | k in audio && (k == key || audio[k].id == s.id)
         && audio[k].doc.fileId != "" && audio[k].doc.fileId != s.doc.fileId :: audio[k].doc.fileId
  }

  function FilesAfterAudio(audio: Coll<Audio>, files: map<string, string>,
      list: seq<(string, Stored<Audio>)>): map<string, string> {
    if list == [] then files
    else
      var n := |list| - 1;
      FilesAfterAudio(audio, files, list[..n]) - SupersededBlobs(RestoreAll(audio, list[..n]), list[n].0, list[n].1)
  }

  /** Files are deleted and created by `_id`; the renders of an atlas travel with their object layer. */
  function RestoreFiles(files: map<string, string>, list: seq<(string, string)>,
      atlas: set<string>): map<string, string> {
    if list == [] then files
    else
      var n := |list| - 1;
      var before := RestoreFiles(files, list[..n], atlas);
      if list[n].0 in atlas then before else before[list[n].0 := list[n].1]
  }

  /** Each restored item gets its definition back under its cid and is bound to it. */
  function RestoreLayers(layers: map<string, string>, list: seq<(string, Layer)>): map<string, string> {
    if list == [] then layers
    else
      var last := list[|list| - 1].1;
      RestoreLayers(layers, list[..|list| - 1])[last.cid := last.item]
  }

  function RestoreBindings(bindings: map<string, string>, list: seq<(string, Layer)>): map<string, string> {
    if list == [] then bindings
    else RestoreBindings(bindings, list[..|list| - 1])[list[|list| - 1].0 := list[|list| - 1].1.cid]
  }

  /** The references of each conf. */
  function RefsOf(confs: Coll<Conf>): E.Confs {
    map c | c in confs :: confs[c].doc.entityDefaults
  }

  function ImportedDefaults(confs: Coll<Conf>, defaults: E.Store, code: string, list: seq<E.BackupDefault>): E.Store {
    E.ImportAll(defaults, list, E.OtherWorlds(RefsOf(confs), code))
  }

  /** What an import leaves when nothing throws. */
  function Import(w: World, code: string, b: Backup, host: Host): World {
    var confs := Replace(w.confs, b.confKey, b.conf);
    var defaults := ImportedDefaults(confs, w.defaults, code, b.defaults);
    World(
      Replace(w.instances, code, b.instance),
      Compact(confs, code, defaults),
      RestoreAll(w.maps, b.maps),
      RestoreAll(w.audioConfs, b.audioConfs),
      RestoreAll(w.audio, b.audio),
      RestoreAll(w.quests, b.quests),
      RestoreAll(w.actions, b.actions),
      RestoreAll(w.skills, b.skills),
      defaults,
      D.ImportFiles(w.dialogues, b.dialogues),
      FilesAfterAudio(w.audio, RestoreFiles(w.files, b.files, b.atlas) - host.renders, b.audio),
      RestoreLayers(w.layers, b.layers),
      RestoreBindings(w.bindings, b.layers))
  }

  // ----- reading an export back --------------------------------------------------------------

  ghost predicate Lists<T(!new)>(list: seq<(string, T)>, m: map<string, T>) {
    && (forall p :: p in list ==> p.0 in m && m[p.0] == p.1)
    && (forall k :: k in m ==> (k, m[k]) in list)
  }

  /** One file per document, named by its `_id`. */
  ghost predicate ListsDefaults(list: seq<E.BackupDefault>, docs: E.Store) {
    && (forall i, j :: 0 <= i < j < |list| ==> list[i].id != list[j].id)
    && (forall x :: x in list <==> x.id in docs && docs[x.id] == x.doc)
  }

  /** What an import reads from the directory the export `e` wrote; the schema may change the rest of the conf. */
  ghost predicate BackupOf(b: Backup, e: Export) {
    && b.instance == e.instance
    && b.confKey == e.confKey && b.conf.id == e.conf.id && b.conf.doc.entityDefaults == e.conf.doc.entityDefaults
    && Lists(b.maps, e.maps) && Lists(b.audioConfs, e.audioConfs) && Lists(b.audio, e.audio)
    && Lists(b.quests, e.quests) && Lists(b.actions, e.actions) && Lists(b.skills, e.skills)
    && ListsDefaults(b.defaults, e.defaults)
    && D.ExportedTo(b.dialogues, e.dialogues)
    && Lists(b.files, e.files)
    && Lists(b.layers, e.layers)
  }

  // ----- restoring a collection onto what is left of it --------------------------------------

  ghost predicate PartOf<K(!new), V(!new)>(a: map<K, V>, m: map<K, V>) {
    forall k :: k in a ==> k in m && a[k] == m[k]
  }

  /** Over a part of a collection, putting one of its documents back only adds it: its keys are its own. */
  lemma {:induction false} ReplaceOntoPart<T(!new)>(whole: Coll<T>, part: Coll<T>, key: string)
    requires UniqueIds(whole) && PartOf(part, whole) && key in whole
    ensures Replace(part, key, whole[key]) == part[key := whole[key]]
  {
    forall k | k in part && k != key ensures part[k].id != whole[key].id {
      assert k in whole && part[k] == whole[k];
    }
    assert forall k :: k in Replace(part, key, whole[key]) <==> k in part[key := whole[key]];
  }

  ghost function ListedKeys<T>(list: seq<(string, T)>): set<string> {
    set p | p in list :: p.0
  }

  ghost predicate AllFrom<T(!new)>(list: seq<(string, T)>, m: map<string, T>) {
    forall i :: 0 <= i < |list| ==> list[i].0 in m && m[list[i].0] == list[i].1
  }

  lemma {:induction false} RestoreAdds<T(!new)>(whole: Coll<T>, part: Coll<T>, list: seq<(string, Stored<T>)>)
    requires UniqueIds(whole) && PartOf(part, whole) && AllFrom(list, whole)
    ensures PartOf(RestoreAll(part, list), whole)
    ensures RestoreAll(part, list).Keys == part.Keys + ListedKeys(list)
  {
    if list != [] {
      var n := |list| - 1;
      RestoreAdds(whole, part, list[..n]);
      ListedKeysSnoc(list[..n], list[n]);
      assert list == list[..n] + [list[n]];
      ReplaceOntoPart(whole, RestoreAll(part, list[..n]), list[n].0);
    }
  }

  lemma {:induction false} ListedKeysSnoc<T(!new)>(list: seq<(string, T)>, p: (string, T))
    ensures ListedKeys(list + [p]) == ListedKeys(list) + {p.0}
  {
  }

  lemma {:induction false} ListsAllFrom<T(!new)>(list: seq<(string, T)>, docs: map<string, T>, whole: map<string, T>)
    requires Lists(list, docs) && PartOf(docs, whole)
    ensures AllFrom(list, whole) && ListedKeys(list) == docs.Keys
  {
    forall k | k in docs ensures k in ListedKeys(list) { assert (k, docs[k]) in list; }
    forall i | 0 <= i < |list| ensures list[i].0 in whole && whole[list[i].0] == list[i].1 {
      assert list[i] in list;
    }
  }

  /**
   * Over a part of a collection, restoring documents of that collection only ever adds them: the
   * unique keys leave nothing else to replace.
   */
  lemma {:induction false} RestoreOntoPart<T(!new)>(whole: Coll<T>, part: Coll<T>, list: seq<(string, Stored<T>)>,
      docs: Coll<T>)
    requires UniqueIds(whole) && PartOf(part, whole) && PartOf(docs, whole) && Lists(list, docs)
    ensures RestoreAll(part, list) == part + docs
  {
    ListsAllFrom(list, docs, whole);
    RestoreAdds(whole, part, list);
  }

  /** Replacing an audio asset by itself supersedes no other blob. */
  lemma {:induction false} OwnAudioKeepsBlobs(whole: Coll<Audio>, part: Coll<Audio>, files: map<string, string>,
      list: seq<(string, Stored<Audio>)>)
    requires UniqueIds(whole) && PartOf(part, whole) && AllFrom(list, whole)
    ensures FilesAfterAudio(part, files, list) == files
  {
    if list != [] {
      var n := |list| - 1;
      OwnAudioKeepsBlobs(whole, part, files, list[..n]);
      RestoreAdds(whole, part, list[..n]);
      NoBlobSuperseded(whole, RestoreAll(part, list[..n]), list[n].0);
    }
  }

  lemma {:induction false} NoBlobSuperseded(whole: Coll<Audio>, part: Coll<Audio>, key: string)
    requires UniqueIds(whole) && PartOf(part, whole) && key in whole
    ensures SupersededBlobs(part, key, whole[key]) == {}
  {
    forall k | k in part && (k == key || part[k].id == whole[key].id) ensures part[k] == whole[key] {
      assert k in whole && part[k] == whole[k];
    }
  }

  lemma {:induction false} RestoreFilesAt(files: map<string, string>, list: seq<(string, string)>, atlas: set<string>,
      docs: map<string, string>, n: nat, f: string)
    requires Lists(list, docs) && n <= |list| && f !in atlas
    ensures var r := RestoreFiles(files, list[..n], atlas);
      && (f in r <==> f in files || exists p :: p in list[..n] && p.0 == f)
      && (f in r ==> if exists p :: p in list[..n] && p.0 == f then f in docs && r[f] == docs[f] else r[f] == files[f])
  {
    if n > 0 {
      RestoreFilesAt(files, list, atlas, docs, n - 1, f);
      assert list[..n][..n - 1] == list[..n - 1];
      assert list[..n] == list[..n - 1] + [list[n - 1]];
      assert list[n - 1] in list;
      assert list[n - 1] in list[..n];
    }
  }

  // ----- export, drop and import -------------------------------------------------------------

  /** Exported, dropped and imported again. */
  ghost function RoundTrip(w: World, code: string, newConf: Stored<Conf>, b: Backup, host: Host): World
    requires code in w.instances
  {
    Import(Drop(AfterExport(w, code, newConf), code, true, host), code, b, host)
  }

  /** The conf an export creates is a new document with no reference. */
  ghost predicate Created(w: World, newConf: Stored<Conf>) {
    newConf.id != "" && newConf.doc.entityDefaults == [] && forall c :: c in w.confs ==> w.confs[c].id != newConf.id
  }

  /** A valid world, and a backup of it. */
  ghost predicate BackedUp(w: World, code: string, newConf: Stored<Conf>, b: Backup) {
    Valid(w) && code in w.instances && Created(w, newConf) && BackupOf(b, ExportOf(w, code, newConf))
  }

  lemma {:induction false} CompactionKeepsRefs(confs: Coll<Conf>, defaults: E.Store, code: string,
      inst: Stored<Instance>, newConf: Stored<Conf>, r: string)
    requires newConf.doc.entityDefaults == [] && r in defaults
    ensures var after := ConfsAfterExport(confs, defaults, code, inst.doc, newConf);
      r in ConfRefs(after, code, LinkedInstance(confs, code, inst, newConf).doc) <==>
        r in ConfRefs(confs, code, inst.doc)
  {
  }

  lemma {:induction false} CompactionKeepsItems(confs: Coll<Conf>, defaults: E.Store, code: string,
      inst: Stored<Instance>, newConf: Stored<Conf>)
    requires newConf.doc.entityDefaults == []
    ensures DefaultItems(defaults, ConfRefs(ConfsAfterExport(confs, defaults, code, inst.doc, newConf), code,
                                            LinkedInstance(confs, code, inst, newConf).doc))
         == DefaultItems(defaults, ConfRefs(confs, code, inst.doc))
  {
    var after := ConfsAfterExport(confs, defaults, code, inst.doc, newConf);
    forall r | r in defaults
      ensures r in ConfRefs(after, code, LinkedInstance(confs, code, inst, newConf).doc) <==>
        r in ConfRefs(confs, code, inst.doc)
    {
      CompactionKeepsRefs(confs, defaults, code, inst, newConf, r);
    }
  }

  /** The export does not move what the drop reads: the drop of the exported world is that of the world. */
  lemma {:induction false} ExportKeepsDropSet(w: World, code: string, newConf: Stored<Conf>)
    requires code in w.instances && newConf.doc.entityDefaults == []
    ensures var w1 := AfterExport(w, code, newConf);
      && ClosureCodes(w1.instances[code].doc) == ClosureCodes(w.instances[code].doc)
      && PurgedItems(w1, code) == PurgedItems(w, code)
  {
    CompactionKeepsItems(w.confs, w.defaults, code, w.instances[code], newConf);
  }

  lemma {:induction false} ExportKeepsThumbs(w: World, code: string, newConf: Stored<Conf>)
    requires code in w.instances
    ensures var w1 := AfterExport(w, code, newConf);
      && w1.instances - {code} == w.instances - {code}
      && DroppedThumbs(w1, code) == DroppedThumbs(w, code)
  {
    assert AfterExport(w, code, newConf).instances - {code} == w.instances - {code};
  }

  /** A drop with the given sets, then an import, collection by collection. */
  ghost predicate Parts(after: World, w: World, code: string, codes: set<string>, purged: set<string>,
      thumbs: set<string>, b: Backup, host: Host) {
    var cids := PurgedLayers(w.layers, purged, host.registered);
    && after.instances == Replace(w.instances - {code}, code, b.instance)
    && after.maps == RestoreAll(w.maps - codes, b.maps)
    && after.audioConfs == RestoreAll(w.audioConfs - codes, b.audioConfs)
    && after.audio == RestoreAll(w.audio, b.audio)
    && after.quests == RestoreAll(QuestsOutside(w.quests, codes), b.quests)
    && after.actions == RestoreAll(ActionsOutside(w.actions, codes), b.actions)
    && after.skills == RestoreAll(w.skills - purged, b.skills)
    && after.dialogues == D.ImportFiles(
         DialoguesOutside(w.dialogues, DefaultCodes(purged) + DroppedActionDialogues(w.actions, codes)), b.dialogues)
    && after.files
         == FilesAfterAudio(
              w.audio, RestoreFiles(w.files - host.renders - thumbs, b.files, b.atlas) - host.renders, b.audio)
    && after.layers == RestoreLayers(w.layers - cids, b.layers)
    && after.bindings == RestoreBindings(BindingsWithout(w.bindings, cids), b.layers)
  }

  lemma {:induction false} PartsOfImport(w: World, code: string, codes: set<string>, purged: set<string>,
      thumbs: set<string>, b: Backup, host: Host)
    ensures Parts(Import(DropSets(w, code, codes, purged, thumbs, true, host), code, b, host),
                  w, code, codes, purged, thumbs, b, host)
  {
  }

  /** What a round trip does to each collection. */
  lemma {:induction false} RoundTripParts(w: World, code: string, newConf: Stored<Conf>, b: Backup, host: Host)
    requires code in w.instances && newConf.doc.entityDefaults == []
    ensures Parts(RoundTrip(w, code, newConf, b, host), w, code, ClosureCodes(w.instances[code].doc),
                  PurgedItems(w, code), DroppedThumbs(w, code), b, host)
  {
    var w1 := AfterExport(w, code, newConf);
    var codes, purged, thumbs := ClosureCodes(w.instances[code].doc), PurgedItems(w, code), DroppedThumbs(w, code);
    DropAfterExport(w, code, newConf, host);
    ExportKeepsThumbs(w, code, newConf);
    PartsOfImport(w1, code, codes, purged, thumbs, b, host);
    SameParts(RoundTrip(w, code, newConf, b, host), w1, w, code, codes, purged, thumbs, b, host);
  }

  lemma {:induction false} SameParts(after: World, w1: World, w: World, code: string, codes: set<string>,
      purged: set<string>, thumbs: set<string>, b: Backup, host: Host)
    requires Parts(after, w1, code, codes, purged, thumbs, b, host)
    requires w1 == w.(confs := w1.confs, instances := w1.instances) && w1.instances - {code} == w.instances - {code}
    ensures Parts(after, w, code, codes, purged, thumbs, b, host)
  {
  }

  lemma {:induction false} DropAfterExport(w: World, code: string, newConf: Stored<Conf>, host: Host)
    requires code in w.instances && newConf.doc.entityDefaults == []
    ensures Drop(AfterExport(w, code, newConf), code, true, host)
         == DropSets(AfterExport(w, code, newConf), code, ClosureCodes(w.instances[code].doc), PurgedItems(w, code),
                     DroppedThumbs(w, code), true, host)
  {
    ExportKeepsDropSet(w, code, newConf);
    ExportKeepsThumbs(w, code, newConf);
  }

  /** Documents deleted by their key and restored from a backup of just them: the collection is whole again. */
  lemma {:induction false} DroppedReturn<T(!new)>(docs: Coll<T>, codes: set<string>, list: seq<(string, Stored<T>)>)
    requires UniqueIds(docs) && Lists(list, Within(docs, codes))
    ensures RestoreAll(docs - codes, list) == docs
  {
    RestoreOntoPart(docs, docs - codes, list, Within(docs, codes));
    assert (docs - codes) + Within(docs, codes) == docs;
  }

  lemma {:induction false} AudioStays(audio: Coll<Audio>, codes: set<string>, list: seq<(string, Stored<Audio>)>,
      files: map<string, string>)
    requires UniqueIds(audio) && Lists(list, Within(audio, codes))
    ensures RestoreAll(audio, list) == audio && FilesAfterAudio(audio, files, list) == files
  {
    RestoreOntoPart(audio, audio, list, Within(audio, codes));
    assert audio + Within(audio, codes) == audio;
    ListsAllFrom(list, Within(audio, codes), audio);
    OwnAudioKeepsBlobs(audio, audio, files, list);
  }

  /**
   * Maps, audio confs and audio assets come back exactly as they were, and so does the instance
   * document. The latter is also what the export left in the database if and only if the export did
   * not have to create a conf and link it.
   */
  lemma {:induction false} MapsAndInstanceReturn(w: World, code: string, newConf: Stored<Conf>, b: Backup, host: Host)
    requires BackedUp(w, code, newConf, b)
    ensures var after := RoundTrip(w, code, newConf, b, host);
      && after.maps == w.maps && after.audioConfs == w.audioConfs && after.audio == w.audio
      && after.instances == w.instances
      && (after.instances == AfterExport(w, code, newConf).instances
          <==> HasConf(w.confs, code, w.instances[code].doc) || w.instances[code].doc.conf != "")
  {
    RoundTripParts(w, code, newConf, b, host);
    var codes := ClosureCodes(w.instances[code].doc);
    DroppedReturn(w.maps, codes, b.maps);
    DroppedReturn(w.audioConfs, codes, b.audioConfs);
    AudioStays(w.audio, BoundAudio(Within(w.audioConfs, codes)), b.audio, map[]);
    InstanceReturns(w.instances, code);
    LinkedExactly(w.instances, w.confs, code, newConf);
  }

  lemma {:induction false} LinkedExactly(instances: Coll<Instance>, confs: Coll<Conf>, code: string,
      newConf: Stored<Conf>)
    requires code in instances && newConf.id != ""
    ensures instances == instances[code := LinkedInstance(confs, code, instances[code], newConf)]
       <==> HasConf(confs, code, instances[code].doc) || instances[code].doc.conf != ""
  {
    var linked := LinkedInstance(confs, code, instances[code], newConf);
    assert instances[code := linked][code] == linked;
  }

  lemma {:induction false} InstanceReturns(instances: Coll<Instance>, code: string)
    requires UniqueIds(instances) && code in instances
    ensures Replace(instances - {code}, code, instances[code]) == instances
  {
    ReplaceOntoPart(instances, instances - {code}, code);
  }

  function QuestsDeclared(quests: Coll<Quest>, codes: set<string>): Coll<Quest> {
    map q | q in quests :: if quests[q].doc.sourceMapCode in codes then DeclaredQuest(quests[q]) else quests[q]
  }

  function ActionsDeclared(actions: Coll<Action>, codes: set<string>): Coll<Action> {
    map a | a in actions :: if actions[a].doc.sourceMapCode in codes then DeclaredAction(actions[a]) else actions[a]
  }

  lemma {:induction false} QuestsSplit(quests: Coll<Quest>, codes: set<string>)
    requires UniqueIds(quests)
    ensures UniqueIds(QuestsDeclared(quests, codes))
    ensures PartOf(QuestsOutside(quests, codes), QuestsDeclared(quests, codes))
    ensures PartOf(QuestsWithin(quests, codes), QuestsDeclared(quests, codes))
    ensures QuestsOutside(quests, codes) + QuestsWithin(quests, codes) == QuestsDeclared(quests, codes)
  {
  }

  lemma {:induction false} ActionsSplit(actions: Coll<Action>, codes: set<string>)
    requires UniqueIds(actions)
    ensures UniqueIds(ActionsDeclared(actions, codes))
    ensures PartOf(ActionsOutside(actions, codes), ActionsDeclared(actions, codes))
    ensures PartOf(ActionsWithin(actions, codes), ActionsDeclared(actions, codes))
    ensures ActionsOutside(actions, codes) + ActionsWithin(actions, codes) == ActionsDeclared(actions, codes)
  {
  }

  lemma {:induction false} QuestsReturn(quests: Coll<Quest>, codes: set<string>, list: seq<(string, Stored<Quest>)>)
    requires UniqueIds(quests) && Lists(list, QuestsWithin(quests, codes))
    ensures RestoreAll(QuestsOutside(quests, codes), list) == QuestsDeclared(quests, codes)
  {
    QuestsSplit(quests, codes);
    RestoreOntoPart(QuestsDeclared(quests, codes), QuestsOutside(quests, codes), list, QuestsWithin(quests, codes));
  }

  lemma {:induction false} ActionsReturn(actions: Coll<Action>, codes: set<string>, list: seq<(string, Stored<Action>)>)
    requires UniqueIds(actions) && Lists(list, ActionsWithin(actions, codes))
    ensures RestoreAll(ActionsOutside(actions, codes), list) == ActionsDeclared(actions, codes)
  {
    ActionsSplit(actions, codes);
    RestoreOntoPart(ActionsDeclared(actions, codes), ActionsOutside(actions, codes), list,
      ActionsWithin(actions, codes));
  }

  /** Quests and actions come back with what their schema declares; those of other maps are untouched. */
  lemma {:induction false} QuestsAndActionsReturnDeclared(w: World, code: string, newConf: Stored<Conf>, b: Backup,
      host: Host)
    requires BackedUp(w, code, newConf, b)
    ensures var after, codes := RoundTrip(w, code, newConf, b, host), ClosureCodes(w.instances[code].doc);
      && after.quests == QuestsDeclared(w.quests, codes)
      && after.actions == ActionsDeclared(w.actions, codes)
  {
    RoundTripParts(w, code, newConf, b, host);
    QuestsReturn(w.quests, ClosureCodes(w.instances[code].doc), b.quests);
    ActionsReturn(w.actions, ClosureCodes(w.instances[code].doc), b.actions);
  }

  /** The skills an export, drop and import lose: purged triggers that the world's content does not name. */
  function LostSkills(w: World, code: string): set<string>
    requires code in w.instances
  {
    LostOf(w.skills, PurgedItems(w, code), NamedItems(w, code))
  }

  function LostOf(skills: Coll<Skill>, purged: set<string>, named: set<string>): set<string> {
    set t | t in skills && t in purged && (t == "" || t !in named)
  }

  /** The dialogues lost: the default lines of a purged item the export does not carry. */
  function LostDialogues(w: World, code: string): set<string>
    requires code in w.instances
  {
    NotCarried(w.dialogues, DefaultCodes(PurgedItems(w, code)), RequestedDialogues(w, code))
  }

  /** The documents of a dropped code that is not a requested one. */
  function NotCarried(dialogues: D.Store, dropped: set<string>, requested: set<string>): set<string> {
    set id | id in dialogues && dialogues[id].code in dropped && dialogues[id].code !in requested
  }

  lemma {:induction false} SkillsReturn(skills: Coll<Skill>, purged: set<string>, named: set<string>,
      list: seq<(string, Stored<Skill>)>)
    requires UniqueIds(skills) && Lists(list, Selected(skills, named))
    ensures RestoreAll(skills - purged, list) == skills - LostOf(skills, purged, named)
  {
    RestoreOntoPart(skills, skills - purged, list, Selected(skills, named));
    assert (skills - purged) + Selected(skills, named) == skills - LostOf(skills, purged, named);
  }

  /** Every skill comes back but the lost ones. */
  lemma {:induction false} SkillsReturnExactly(w: World, code: string, newConf: Stored<Conf>, b: Backup, host: Host)
    requires BackedUp(w, code, newConf, b)
    ensures RoundTrip(w, code, newConf, b, host).skills == w.skills - LostSkills(w, code)
  {
    RoundTripParts(w, code, newConf, b, host);
    SkillsReturn(w.skills, PurgedItems(w, code), NamedItems(w, code), b.skills);
  }

  /**
   * Which skills are lost, in terms of the content: those whose trigger no other world places and which a map of the
   * world places as a placeholder, or which is only summoned, neither placed, wired nor traded by the world.
   */
  lemma {:induction false} SkillsLostExactly(w: World, code: string, t: string)
    requires code in w.instances
    ensures t in LostSkills(w, code) <==>
      && t in w.skills && !PlacedOutside(w, ClosureCodes(w.instances[code].doc), t)
      && (if !Material(t) then PlacedBy(w, ClosureCodes(w.instances[code].doc), t)
          else !Names(w, code, t) && exists u :: Uses(w, code, u) && Summons(w, u, t))
  {
    PurgedOnContent(w, code, t);
    NamesExactly(w, code, t);
  }

  /** `dropped`: the codes a drop deletes; `requested`: the codes an export carries. */
  lemma {:induction false} DialoguesReturn(dialogues: D.Store, dropped: set<string>, requested: set<string>,
      files: seq<D.File>)
    requires D.FilesOf(files, D.OfCodes(dialogues, requested))
    ensures D.ImportFiles(DialoguesOutside(dialogues, dropped), files)
         == dialogues - NotCarried(dialogues, dropped, requested)
  {
    var left, exported := DialoguesOutside(dialogues, dropped), D.OfCodes(dialogues, requested);
    D.RestoreIsExact(left, files, exported);
    assert D.CodesOf(exported) <= requested;
    assert D.WithoutCodes(left, D.CodesOf(exported), exported.Keys) + exported
        == dialogues - NotCarried(dialogues, dropped, requested);
  }

  /** Every dialogue comes back but the lost ones, and no `create` of the backup's dialogues throws. */
  lemma {:induction false} DialoguesReturnExactly(w: World, code: string, newConf: Stored<Conf>, b: Backup, host: Host)
    requires BackedUp(w, code, newConf, b)
    ensures D.Creatable(b.dialogues)
    ensures RoundTrip(w, code, newConf, b, host).dialogues == w.dialogues - LostDialogues(w, code)
  {
    RoundTripParts(w, code, newConf, b, host);
    var codes, requested := ClosureCodes(w.instances[code].doc), RequestedDialogues(w, code);
    var defaults, own := DefaultCodes(PurgedItems(w, code)), DroppedActionDialogues(w.actions, codes);
    D.ExportedIsFilesOf(b.dialogues, D.OfCodes(w.dialogues, requested));
    DialoguesReturn(w.dialogues, defaults + own, requested, b.dialogues);
    OwnCodesAreCarried(w.dialogues, defaults, own, requested);
  }

  /**
   * Which dialogues are lost, in terms of the content: the default lines of a forgotten item - a placeholder, or an
   * item only placeholders summon - that no action of the world names.
   */
  lemma {:induction false} DialoguesLostExactly(w: World, code: string, id: string)
    requires code in w.instances
    ensures id in LostDialogues(w, code) <==>
      && id in w.dialogues && !NamedByAction(w, ClosureCodes(w.instances[code].doc), w.dialogues[id].code)
      && exists i :: Forgotten(w, code, i) && w.dialogues[id].code == DefaultCode(i)
  {
    if id in w.dialogues {
      var d := w.dialogues[id].code;
      ActionNamesExactly(w, ClosureCodes(w.instances[code].doc), d);
      forall i ensures i in PurgedItems(w, code) && i !in ExportedItems(w, code) <==> Forgotten(w, code, i) {
        ForgottenExactly(w, code, i);
      }
      LostCode(PurgedItems(w, code), ExportedItems(w, code), d);
    }
  }

  lemma {:induction false} LostCode(purged: set<string>, exported: set<string>, d: string)
    ensures d in DefaultCodes(purged) && d !in DefaultCodes(exported) <==>
            exists i :: i in purged && i !in exported && d == DefaultCode(i)
  {
    forall i, j | d == DefaultCode(i) && d == DefaultCode(j) ensures i == j { DefaultCodeInjective(i, j); }
    if d in DefaultCodes(purged) {
      var i :| i in purged && d == DefaultCode(i);
      assert d in DefaultCodes(exported) <==> i in exported;
    }
  }

  lemma {:induction false} OwnCodesAreCarried(dialogues: D.Store, defaults: set<string>, own: set<string>,
      requested: set<string>)
    requires own <= requested
    ensures NotCarried(dialogues, defaults + own, requested) == NotCarried(dialogues, defaults, requested)
  {
  }

  lemma {:induction false} FilesReturnAt(files: map<string, string>, dropped: set<string>, ids: set<string>,
      list: seq<(string, string)>, atlas: set<string>, renders: set<string>, f: string)
    requires Lists(list, FilesWithin(files, ids)) && dropped <= ids && f !in atlas && f !in renders
    ensures var after := RestoreFiles(files - renders - dropped, list, atlas) - renders;
      (f in after <==> f in files) && (f in files ==> after[f] == files[f])
  {
    var docs := FilesWithin(files, ids);
    RestoreFilesAt(files - renders - dropped, list, atlas, docs, |list|, f);
    assert list[..|list|] == list;
    if f in docs { assert (f, docs[f]) in list; }
  }

  /** Every File comes back with its content, atlas renders aside. */
  lemma {:induction false} FilesReturn(w: World, code: string, newConf: Stored<Conf>, b: Backup, host: Host, f: string)
    requires BackedUp(w, code, newConf, b) && f !in b.atlas && f !in host.renders
    ensures var after := RoundTrip(w, code, newConf, b, host);
      (f in after.files <==> f in w.files) && (f in w.files ==> after.files[f] == w.files[f])
  {
    RoundTripParts(w, code, newConf, b, host);
    var bound := BoundAudio(Within(w.audioConfs, ClosureCodes(w.instances[code].doc)));
    var dropped := DroppedThumbs(w, code);
    AudioStays(w.audio, bound, b.audio,
      RestoreFiles(w.files - host.renders - dropped, b.files, b.atlas) - host.renders);
    FilesReturnAt(w.files, dropped, OwnThumbs(w, code) + AudioFiles(Within(w.audio, bound)), b.files, b.atlas,
      host.renders, f);
  }

  // ----- object layers -----------------------------------------------------------------------

  lemma {:induction false} LayersRestoredAt(layers: map<string, string>, whole: map<string, string>,
      list: seq<(string, Layer)>, cid: string)
    requires PartOf(layers, whole)
    requires forall p :: p in list ==> p.1.cid in whole && whole[p.1.cid] == p.1.item
    ensures var after := RestoreLayers(layers, list);
      && (cid in after <==> cid in layers || exists p :: p in list && p.1.cid == cid)
      && (cid in after ==> cid in whole && after[cid] == whole[cid])
  {
    if list != [] {
      var n := |list| - 1;
      assert list == list[..n] + [list[n]] && list[n] in list;
      LayersRestoredAt(layers, whole, list[..n], cid);
    }
  }

  lemma {:induction false} BindingsRestoredAt(bindings: map<string, string>, whole: map<string, string>,
      list: seq<(string, Layer)>, i: string)
    requires PartOf(bindings, whole)
    requires forall p :: p in list ==> p.0 in whole && whole[p.0] == p.1.cid
    ensures var after := RestoreBindings(bindings, list);
      && (i in after <==> i in bindings || exists p :: p in list && p.0 == i)
      && (i in after ==> i in whole && after[i] == whole[i])
  {
    if list != [] {
      var n := |list| - 1;
      assert list == list[..n] + [list[n]] && list[n] in list;
      BindingsRestoredAt(bindings, whole, list[..n], i);
    }
  }

  /** An item the export carries runs the definition. */
  ghost predicate RunByExported(w: World, code: string, cid: string)
    requires code in w.instances
  {
    exists i :: i in w.bindings && w.bindings[i] == cid && Carries(w, code, i)
  }

  /**
   * Every definition comes back with its label but those that are unregistered, whose item only this world uses, and
   * which no exported item runs: older definitions of an item, and the one of a forgotten item. Every binding comes
   * back but those of items the export does not carry to a definition the drop purged.
   */
  lemma {:induction false} LayersReturnExactly(w: World, code: string, newConf: Stored<Conf>, b: Backup, host: Host)
    requires BackedUp(w, code, newConf, b)
    ensures var after := RoundTrip(w, code, newConf, b, host);
      && (forall cid :: cid in after.layers ==> cid in w.layers && after.layers[cid] == w.layers[cid])
      && (forall cid :: cid in w.layers ==>
            (cid !in after.layers <==>
             cid !in host.registered && UsedAlone(w, code, w.layers[cid]) && !RunByExported(w, code, cid)))
  {
    RoundTripParts(w, code, newConf, b, host);
    var purged := PurgedLayers(w.layers, PurgedItems(w, code), host.registered);
    var docs := BoundLayers(w.layers, w.bindings, ExportedItems(w, code));
    forall cid ensures var after := RestoreLayers(w.layers - purged, b.layers);
      && (cid in after ==> cid in w.layers && after[cid] == w.layers[cid])
      && (cid in w.layers ==>
            (cid !in after <==>
                cid !in host.registered && UsedAlone(w, code, w.layers[cid]) && !RunByExported(w, code, cid)))
    {
      LayersRestoredAt(w.layers - purged, w.layers, b.layers, cid);
      if cid in w.layers {
        PurgedOnContent(w, code, w.layers[cid]);
        CarriedExactly(w, code, b.layers, cid);
      }
    }
  }

  lemma {:induction false} CarriedExactly(w: World, code: string, list: seq<(string, Layer)>, cid: string)
    requires code in w.instances && cid in w.layers
    requires Lists(list, BoundLayers(w.layers, w.bindings, ExportedItems(w, code)))
    ensures (exists p :: p in list && p.1.cid == cid) <==> RunByExported(w, code, cid)
  {
    var docs := BoundLayers(w.layers, w.bindings, ExportedItems(w, code));
    if exists p :: p in list && p.1.cid == cid {
      var p :| p in list && p.1.cid == cid;
      ExportedOnContent(w, code, p.0);
    }
    if RunByExported(w, code, cid) {
      var i :| i in w.bindings && w.bindings[i] == cid && Carries(w, code, i);
      ExportedOnContent(w, code, i);
      assert (i, docs[i]) in list;
    }
  }

  /** Every binding comes back but those of items the export does not carry to a definition the drop purged. */
  lemma {:induction false} BindingsReturnExactly(w: World, code: string, newConf: Stored<Conf>, b: Backup, host: Host,
      i: string)
    requires BackedUp(w, code, newConf, b) && i in w.bindings && w.bindings[i] in w.layers
    ensures var after := RoundTrip(w, code, newConf, b, host).bindings;
      && (i in after ==> after[i] == w.bindings[i])
      && (i !in after <==>
            w.bindings[i] !in host.registered && UsedAlone(w, code, w.layers[w.bindings[i]]) && !Carries(w, code, i))
  {
    RoundTripParts(w, code, newConf, b, host);
    var purged := PurgedLayers(w.layers, PurgedItems(w, code), host.registered);
    var docs := BoundLayers(w.layers, w.bindings, ExportedItems(w, code));
    BindingsRestoredAt(BindingsWithout(w.bindings, purged), w.bindings, b.layers, i);
    PurgedOnContent(w, code, w.layers[w.bindings[i]]);
    ExportedOnContent(w, code, i);
    if i in docs { assert (i, docs[i]) in b.layers; }
  }

  // ----- references --------------------------------------------------------------------------

  /** Dropping one conf and restoring the exported one over the rest moves no reference. */
  lemma {:induction false} ConfRefsReturn(confs: Coll<Conf>, code: string, key: string, conf: Stored<Conf>)
    requires UniqueIds(confs) && key in confs && (code in confs ==> key == code)
    requires conf.id == confs[key].id && conf.doc.entityDefaults == confs[key].doc.entityDefaults
    ensures RefsOf(Replace(confs - {code}, key, conf)) == RefsOf(confs)
  {
  }

  lemma {:induction false} CompactKeepsIds(confs: Coll<Conf>, code: string, defaults: E.Store)
    requires UniqueIds(confs)
    ensures UniqueIds(Compact(confs, code, defaults)) && Compact(confs, code, defaults).Keys == confs.Keys
  {
    var after := Compact(confs, code, defaults);
    assert forall c :: c in confs ==> after[c].id == confs[c].id;
  }

  /** The export leaves unique confs, among them the one it writes, which is the world's own if it has one. */
  lemma {:induction false} ExportedConfStays(w: World, code: string, newConf: Stored<Conf>)
    requires Valid(w) && code in w.instances && Created(w, newConf)
    ensures var left, key := AfterExport(w, code, newConf).confs, ConfKey(w.confs, code, w.instances[code].doc);
      UniqueIds(left) && key in left && (code in left ==> key == code)
  {
    CompactKeepsIds(w.confs, code, w.defaults);
  }

  lemma {:induction false} RefsCompact(confs: Coll<Conf>, code: string, defaults: E.Store)
    ensures RefsOf(Compact(confs, code, defaults)) == E.Compacted(RefsOf(confs), code, defaults)
  {
  }

  lemma {:induction false} ConfsOfImport(w: World, code: string, codes: set<string>, purged: set<string>,
      thumbs: set<string>, b: Backup, host: Host)
    ensures var after := Import(DropSets(w, code, codes, purged, thumbs, true, host), code, b, host);
      var confs := Replace(w.confs - {code}, b.confKey, b.conf);
      && after.defaults == ImportedDefaults(confs, w.defaults, code, b.defaults)
      && after.confs == Compact(confs, code, after.defaults)
  {
  }

  lemma {:induction false} RoundTripConfs(w: World, code: string, newConf: Stored<Conf>, b: Backup, host: Host)
    requires BackedUp(w, code, newConf, b)
    ensures var after, refs := RoundTrip(w, code, newConf, b, host), RefsOf(AfterExport(w, code, newConf).confs);
      && after.defaults == E.ImportAll(w.defaults, b.defaults, E.OtherWorlds(refs, code))
      && RefsOf(after.confs) == E.Compacted(refs, code, after.defaults)
  {
    var w1 := AfterExport(w, code, newConf);
    DropAfterExport(w, code, newConf, host);
    ConfsOfImport(w1, code, ClosureCodes(w.instances[code].doc), PurgedItems(w, code), DroppedThumbs(w, code), b, host);
    ExportedConfStays(w, code, newConf);
    ConfRefsReturn(w1.confs, code, b.confKey, b.conf);
    RefsCompact(Replace(w1.confs - {code}, b.confKey, b.conf), code, RoundTrip(w, code, newConf, b, host).defaults);
  }

  /** The documents some references name, each once. */
  lemma {:induction false} ListedDefaults(defaults: E.Store, refs: seq<string>, list: seq<E.BackupDefault>)
    requires ListsDefaults(list, RefDefaults(defaults, refs))
    requires forall id :: id in defaults ==> id != "" && defaults[id].key.entityType != ""
    ensures E.OneFilePerId(list)
    ensures forall k :: 0 <= k < |list| ==> list[k].id in defaults && defaults[list[k].id] == list[k].doc
    ensures (forall id :: id in refs ==> id in defaults) ==>
      forall id :: id in refs <==> exists k :: 0 <= k < |list| && list[k].id == id
  {
    var docs := RefDefaults(defaults, refs);
    forall k | 0 <= k < |list| ensures list[k].id in docs && docs[list[k].id] == list[k].doc { assert list[k] in list; }
    forall id | id in docs ensures exists k :: 0 <= k < |list| && list[k].id == id {
      assert E.BackupDefault(id, docs[id]) in list;
    }
    if forall id :: id in refs ==> id in defaults { assert forall id :: id in refs <==> id in docs; }
  }

  /** The defaults of the backup are stored documents, each once; a conf of the world's own references just them. */
  lemma {:induction false} BackupDefaultsAreWhole(w: World, code: string, newConf: Stored<Conf>, b: Backup)
    requires BackedUp(w, code, newConf, b)
    ensures E.OneFilePerId(b.defaults)
    ensures forall k :: 0 <= k < |b.defaults| ==>
      b.defaults[k].id in w.defaults && w.defaults[b.defaults[k].id] == b.defaults[k].doc
    ensures var refs := RefsOf(AfterExport(w, code, newConf).confs);
      code in refs ==> forall id :: id in refs[code] <==> exists k :: 0 <= k < |b.defaults| && b.defaults[k].id == id
  {
    var left, key := AfterExport(w, code, newConf).confs, b.confKey;
    ExportedConfStays(w, code, newConf);
    ListedDefaults(w.defaults, left[key].doc.entityDefaults, b.defaults);
    OwnRefsResolve(w, code, newConf);
  }

  lemma {:induction false} OwnRefsResolve(w: World, code: string, newConf: Stored<Conf>)
    requires code in w.instances && newConf.doc.entityDefaults == []
    ensures var left := AfterExport(w, code, newConf).confs;
      code in left ==> forall id :: id in left[code].doc.entityDefaults ==> id in w.defaults
  {
  }

  /** A later file of the backup restores the document. */
  ghost predicate RestoredAfter(list: seq<E.BackupDefault>, k: int, id: string) {
    exists j :: 0 <= j < |list| && k < j && list[j].id == id
  }

  /** Some file restores the key of a document under another `_id`, and none restores the document after it. */
  ghost predicate Displaced(list: seq<E.BackupDefault>, id: string, key: E.Key) {
    exists k :: 0 <= k < |list| && list[k].id != id && list[k].doc.key == key && !RestoredAfter(list, k, id)
  }

  /** Restoring some stored documents removes another exactly when it is displaced and no other world protects it. */
  lemma {:induction false} DefaultStaysExactly(defaults: E.Store, list: seq<E.BackupDefault>, others: set<string>,
      id: string)
    requires E.OneFilePerId(list) && id in defaults
    requires forall k :: 0 <= k < |list| ==> list[k].id in defaults && defaults[list[k].id] == list[k].doc
    ensures var after := E.ImportAll(defaults, list, others);
      && (id in after ==> after[id] == defaults[id])
      && (id in after <==> id in others || !Displaced(list, id, defaults[id].key))
    decreases |list|
  {
    if list != [] {
      var n := |list| - 1;
      var front, b := list[..n], list[n];
      assert forall k :: 0 <= k < n ==> front[k] == list[k];
      DefaultStaysExactly(defaults, front, others, id);
      DisplacedSnoc(list, id, defaults[id].key);
    }
  }

  lemma {:induction false} DisplacedSnoc(list: seq<E.BackupDefault>, id: string, key: E.Key)
    requires list != []
    ensures var n := |list| - 1;
      Displaced(list, id, key) <==> list[n].id != id && (Displaced(list[..n], id, key) || list[n].doc.key == key)
  {
    var n := |list| - 1;
    var front := list[..n];
    assert forall k :: 0 <= k < n ==> front[k] == list[k];
    forall k | 0 <= k < n ensures RestoredAfter(list, k, id) <==> RestoredAfter(front, k, id) || list[n].id == id {
      if RestoredAfter(front, k, id) {
        var j :| 0 <= j < |front| && k < j && front[j].id == id;
        assert list[j].id == id;
      }
    }
    assert !RestoredAfter(list, n, id);
    if Displaced(front, id, key) {
      var k :| 0 <= k < |front| && front[k].id != id && front[k].doc.key == key && !RestoredAfter(front, k, id);
      assert list[k].id != id;
    }
  }

  /**
   * After export, drop and import the references of this world are as the export left them if and only if no default
   * of the backup that no other world references is followed by one of the same key.
   */
  lemma {:induction false} ReferencesReturnExactly(w: World, code: string, newConf: Stored<Conf>, b: Backup, host: Host)
    requires BackedUp(w, code, newConf, b)
    ensures var after, refs := RoundTrip(w, code, newConf, b, host), RefsOf(AfterExport(w, code, newConf).confs);
      RefsOf(after.confs) == refs <==>
        (code in refs ==>
           forall i, j :: 0 <= i < j < |b.defaults| && b.defaults[i].id !in E.OtherWorlds(refs, code) ==>
             b.defaults[i].doc.key != b.defaults[j].doc.key)
  {
    RoundTripConfs(w, code, newConf, b, host);
    BackupDefaultsAreWhole(w, code, newConf, b);
    var after, refs := RoundTrip(w, code, newConf, b, host), RefsOf(AfterExport(w, code, newConf).confs);
    CompactedSame(refs, code, after.defaults);
    if code in refs { E.ReferencesSurviveExactly(w.defaults, b.defaults, E.OtherWorlds(refs, code), refs[code]); }
  }

  lemma {:induction false} CompactedSame(refs: E.Confs, code: string, store: E.Store)
    ensures E.Compacted(refs, code, store) == refs <==> (code in refs ==> E.Kept(refs[code], store) == refs[code])
  {
    if code in refs {
      assert refs[code := refs[code]] == refs;
      assert refs[code := E.Kept(refs[code], store)][code] == E.Kept(refs[code], store);
    }
  }

  /**
   * Which entity-type defaults come back: one is gone if and only if no other world references it and the backup
   * imports its key under another `_id` without importing it later. Those that are there are unchanged, none is new,
   * and the references of other worlds are what they were.
   */
  lemma {:induction false} DefaultsReturnExactly(w: World, code: string, newConf: Stored<Conf>, b: Backup, host: Host,
      id: string)
    requires BackedUp(w, code, newConf, b)
    ensures var after, refs := RoundTrip(w, code, newConf, b, host), RefsOf(AfterExport(w, code, newConf).confs);
      && (id in after.defaults ==> id in w.defaults && after.defaults[id] == w.defaults[id])
      && (id in w.defaults ==>
            (id !in after.defaults <==>
             id !in E.OtherWorlds(refs, code) && Displaced(b.defaults, id, w.defaults[id].key)))
      && E.OtherWorlds(RefsOf(after.confs), code) == E.OtherWorlds(refs, code)
  {
    RoundTripConfs(w, code, newConf, b, host);
    BackupDefaultsAreWhole(w, code, newConf, b);
    var after, refs := RoundTrip(w, code, newConf, b, host), RefsOf(AfterExport(w, code, newConf).confs);
    E.CompactionResolves(refs, code, after.defaults);
    if id in w.defaults {
      DefaultStaysExactly(w.defaults, b.defaults, E.OtherWorlds(refs, code), id);
    } else {
      E.UnrelatedUntouched(w.defaults, b.defaults, E.OtherWorlds(refs, code), id);
    }
  }

  // ----- when nothing is lost ----------------------------------------------------------------

  /** Every id the maps of the world place is a document's, none a placeholder. */
  ghost predicate PlacesOnlyMaterial(w: World, code: string)
    requires code in w.instances
  {
    forall i :: i in Placed(Within(w.maps, ClosureCodes(w.instances[code].doc))) ==> Material(i)
  }

  /** The closures nest: without placeholders on its maps, all a world's drop purges is in its export. */
  lemma {:induction false} ClosuresNest(w: World, code: string)
    requires code in w.instances && PlacesOnlyMaterial(w, code)
    ensures DropBase(w, code) <= NamedItems(w, code)
    ensures DropItems(w, code) <= ExportedItems(w, code)
    ensures LostDialogues(w, code) == {}
    ensures forall t :: t in LostSkills(w, code) ==> t !in DropBase(w, code)
  {
    forall i ensures i in DropBase(w, code) ==> i in NamedItems(w, code) {
      UsesExactly(w, code, i);
      NamesExactly(w, code, i);
      PlacedExactly(w, ClosureCodes(w.instances[code].doc), i);
    }
    forall i ensures i in DropItems(w, code) ==> i in ExportedItems(w, code) {
      WithSummonedExactly(w, DropBase(w, code), i);
      WithSummonedExactly(w, NamedItems(w, code), i);
    }
  }

  /** A world of one map that places one item. */
  ghost function OneMapWorld(item: string, skills: Coll<Skill>, dialogues: D.Store): World {
    World(map["w" := Stored("1", Instance("", "", ["m"], [], "", ""))], map[],
          map["m" := Stored("2", MapDoc("", "", [[item]], ""))], map[], map[], map[], map[], skills, map[],
          dialogues, map[], map[], map[])
  }

  lemma {:induction false} OneMapPlaces(item: string, maps: Coll<MapDoc>)
    requires maps == map["m" := Stored("2", MapDoc("", "", [[item]], ""))]
    ensures Placed(maps) == {item} && Within(maps, {"m"}) == maps && maps - {"m"} == map[]
  {
    var m := MapDoc("", "", [[item]], "");
    assert maps["m"].doc == m && [item] in m.entities && item in [item];
  }

  lemma {:induction false} OneMapNames(item: string, skills: Coll<Skill>, dialogues: D.Store)
    ensures var w := OneMapWorld(item, skills, dialogues);
      && ClosureCodes(w.instances["w"].doc) == {"m"}
      && DropBase(w, "w") == {item}
      && NamedItems(w, "w") == (if Material(item) then {item} else {})
      && PurgedItems(w, "w") == WithSummoned(skills, {item})
      && (PlacesOnlyMaterial(w, "w") <==> Material(item))
  {
    var w := OneMapWorld(item, skills, dialogues);
    OneMapPlaces(item, w.maps);
    assert "m" in w.instances["w"].doc.mapCodes;
  }

  lemma {:induction false} NothingSummoned(item: string)
    ensures WithSummoned(map[], {item}) == {item} && WithSummoned(map[], {}) == {}
  {
  }

  /**
   * A placeholder loses its dialogue: the map places it, the drop deletes its default lines, and the
   * export names no placeholder.
   */
  lemma {:induction false} PlaceholderDialogueIsLost(item: string, id: string, text: string)
    requires !Material(item)
    ensures var w := OneMapWorld(item, map[], map[id := D.Dialogue(DefaultCode(item), text)]);
      Valid(w) && LostDialogues(w, "w") == {id}
  {
    var w := OneMapWorld(item, map[], map[id := D.Dialogue(DefaultCode(item), text)]);
    OneMapNames(item, map[], w.dialogues);
    NothingSummoned(item);
    assert RequestedDialogues(w, "w") == {};
    assert DefaultCode(item) in DefaultCodes({item});
  }

  lemma {:induction false} SummonedAlone(skills: Coll<Skill>, t: string, i: string)
    requires t in skills && skills.Keys == {t} && skills[t].doc.summons == [i] && Material(i)
    ensures Summoned(skills) == {i}
  {
    assert i in skills[t].doc.summons;
  }

  lemma {:induction false} GunSelected(gun: string, bullet: string, s: Stored<Skill>, t: Stored<Skill>)
    requires Material(gun) && Material(bullet) && gun != bullet && s.doc.summons == [bullet]
    ensures WithSummoned(map[gun := s, bullet := t], {gun}) == {gun, bullet}
  {
    var skills := map[gun := s, bullet := t];
    assert Selected(skills, {gun}).Keys == {gun};
    SummonedAlone(Selected(skills, {gun}), gun, bullet);
  }

  /**
   * A summoned trigger loses its skill: the map places one item, whose skill summons another; the skill
   * the other triggers is dropped with its item and was never selected for the export.
   */
  lemma {:induction false} SummonedSkillIsLost(gun: string, bullet: string, s: Stored<Skill>, t: Stored<Skill>)
    requires Material(gun) && Material(bullet) && gun != bullet && s.doc.summons == [bullet] && s.id != t.id
    ensures var w := OneMapWorld(gun, map[gun := s, bullet := t], map[]);
      Valid(w) && PlacesOnlyMaterial(w, "w") && LostSkills(w, "w") == {bullet}
  {
    OneMapNames(gun, map[gun := s, bullet := t], map[]);
    GunSelected(gun, bullet, s, t);
  }
}
