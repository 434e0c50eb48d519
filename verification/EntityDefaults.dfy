/**
 * The import of entity-type defaults, which other worlds may share, and the compaction that drops
 * the references no document answers.
 */
module EntityDefaults {
  /** The key resolution ties on, compared exactly: the type and the live ids in their order. */
  datatype Key = Key(entityType: string, liveItemIds: seq<string>)

  /** A stored entity-type default, by `_id` in its collection. `itemIds`: the live, dead, drop and inventory ids. */
  datatype EntityDefault = EntityDefault(key: Key, itemIds: seq<string>, rest: string)

  /** A backup document; a missing field is the empty string. */
  datatype BackupDefault = BackupDefault(id: string, doc: EntityDefault)

  type Store = map<string, EntityDefault>

  /** The references each instance conf declares, by instance code. */
  type Confs = map<string, seq<string>>

  /** A file without an entity type or an `_id` is skipped. */
  predicate Importable(b: BackupDefault) {
    b.doc.key.entityType != "" && b.id != ""
  }

  /** Every id the conf of another instance references. */
  function OtherWorlds(confs: Confs, instanceCode: string): (r: set<string>)
    ensures forall id :: id in r <==> exists c :: c in confs && c != instanceCode && id in confs[c]
  {
    set c, id | c in confs && c != instanceCode && id in confs[c] :: id
  }

  /** The documents one backup document removes: its own `_id`, and its key where no other world references. */
  function Replaced(store: Store, b: BackupDefault, others: set<string>): set<string> {
    {b.id} + set id | id in store && store[id].key == b.doc.key && id != b.id && id !in others
  }

  function ImportOne(store: Store, b: BackupDefault, others: set<string>): Store {
    if Importable(b) then (store - Replaced(store, b, others))[b.id := b.doc] else store
  }

  function ImportAll(store: Store, bs: seq<BackupDefault>, others: set<string>): Store {
    if bs == [] then store
    else ImportOne(ImportAll(store, bs[..|bs| - 1], others), bs[|bs| - 1], others)
  }

  // ----- what is left, document by document --------------------------------------------------

  /** Some importable document from position `k` on removes what is stored under `id` as `doc`. */
  ghost predicate RemovedFrom(bs: seq<BackupDefault>, k: int, id: string, doc: EntityDefault, others: set<string>) {
    exists j :: 0 <= j < |bs| && k <= j && Importable(bs[j])
             && (bs[j].id == id || (bs[j].doc.key == doc.key && id !in others))
  }

  ghost predicate Imported(bs: seq<BackupDefault>, k: int, id: string, doc: EntityDefault) {
    0 <= k < |bs| && Importable(bs[k]) && bs[k] == BackupDefault(id, doc)
  }

  ghost predicate LeftFromBackup(bs: seq<BackupDefault>, id: string, doc: EntityDefault, others: set<string>) {
    exists k :: Imported(bs, k, id, doc) && !RemovedFrom(bs, k + 1, id, doc, others)
  }

  lemma {:induction false} RemovedFromSnoc(bs: seq<BackupDefault>, b: BackupDefault, k: int, id: string,
      doc: EntityDefault, others: set<string>)
    requires 0 <= k <= |bs|
    ensures RemovedFrom(bs + [b], k, id, doc, others) <==>
            || RemovedFrom(bs, k, id, doc, others)
            || (Importable(b) && (b.id == id || (b.doc.key == doc.key && id !in others)))
  {
    var all := bs + [b];
    assert all[|bs|] == b;
    if RemovedFrom(bs, k, id, doc, others) {
      var j :| 0 <= j < |bs| && k <= j && Importable(bs[j])
            && (bs[j].id == id || (bs[j].doc.key == doc.key && id !in others));
      assert all[j] == bs[j];
    }
    if RemovedFrom(all, k, id, doc, others) {
      var j :| 0 <= j < |all| && k <= j && Importable(all[j])
            && (all[j].id == id || (all[j].doc.key == doc.key && id !in others));
      if j < |bs| { assert all[j] == bs[j]; }
    }
  }

  lemma {:induction false} LeftFromBackupSnoc(bs: seq<BackupDefault>, b: BackupDefault, id: string, doc: EntityDefault,
      others: set<string>)
    ensures LeftFromBackup(bs + [b], id, doc, others) <==>
            || (Importable(b) && b == BackupDefault(id, doc))
            || (LeftFromBackup(bs, id, doc, others)
                && !(Importable(b) && (b.id == id || (b.doc.key == doc.key && id !in others))))
  {
    var all := bs + [b];
    forall k | 0 <= k < |bs|
      ensures RemovedFrom(all, k + 1, id, doc, others) <==>
              RemovedFrom(bs, k + 1, id, doc, others)
              || (Importable(b) && (b.id == id || (b.doc.key == doc.key && id !in others)))
      ensures Imported(all, k, id, doc) <==> Imported(bs, k, id, doc)
    {
      RemovedFromSnoc(bs, b, k + 1, id, doc, others);
    }
    assert !RemovedFrom(all, |bs| + 1, id, doc, others);
    if LeftFromBackup(bs, id, doc, others) {
      var k :| Imported(bs, k, id, doc) && !RemovedFrom(bs, k + 1, id, doc, others);
      assert Imported(all, k, id, doc);
    }
    if Importable(b) && b == BackupDefault(id, doc) {
      assert Imported(all, |bs|, id, doc);
    }
  }

  /**
   * What an import leaves, exactly. A document is stored afterwards when it was stored and no backup
   * document has its `_id`, nor its key unless another world references it; or when the backup
   * holds it and no later backup document removes it under the same rule. Nothing else is.
   */
  lemma {:induction false} ImportedExactly(store: Store, bs: seq<BackupDefault>, others: set<string>, id: string,
      doc: EntityDefault)
    ensures id in ImportAll(store, bs, others) && ImportAll(store, bs, others)[id] == doc <==>
            || (id in store && store[id] == doc && !RemovedFrom(bs, 0, id, doc, others))
            || LeftFromBackup(bs, id, doc, others)
  {
    if bs != [] {
      var n := |bs| - 1;
      var front, b := bs[..n], bs[n];
      assert bs == front + [b];
      ImportedExactly(store, front, others, id, doc);
      RemovedFromSnoc(front, b, 0, id, doc, others);
      LeftFromBackupSnoc(front, b, id, doc, others);
    }
  }

  // ----- what other worlds rely on -----------------------------------------------------------

  /** No reference of another world loses its document, and one the backup does not carry keeps it unchanged. */
  lemma {:induction false} OtherWorldsStayWhole(store: Store, bs: seq<BackupDefault>, others: set<string>, id: string)
    requires id in others && id in store
    ensures id in ImportAll(store, bs, others)
    ensures (forall b :: b in bs && Importable(b) ==> b.id != id) ==> ImportAll(store, bs, others)[id] == store[id]
  {
    if bs != [] {
      var n := |bs| - 1;
      OtherWorldsStayWhole(store, bs[..n], others, id);
      assert forall b :: b in bs[..n] ==> b in bs;
    }
  }

  /** A document whose key and `_id` the backup does not name is untouched. */
  lemma {:induction false} UnrelatedUntouched(store: Store, bs: seq<BackupDefault>, others: set<string>, id: string)
    requires forall b :: b in bs && Importable(b) ==> b.id != id && (id in store ==> b.doc.key != store[id].key)
    ensures id in ImportAll(store, bs, others) <==> id in store
    ensures id in store ==> ImportAll(store, bs, others)[id] == store[id]
  {
    if bs != [] {
      var n := |bs| - 1;
      assert forall b :: b in bs[..n] ==> b in bs;
      UnrelatedUntouched(store, bs[..n], others, id);
      assert bs[n] in bs;
    }
  }

  /**
   * Of an imported key only two kinds of document are left: the last imported one, and those
   * another world references.
   */
  lemma {:induction false} ImportedKeyIsSettled(store: Store, bs: seq<BackupDefault>, others: set<string>, k: int,
      id: string)
    requires 0 <= k < |bs| && Importable(bs[k])
    requires forall j :: k < j < |bs| && Importable(bs[j]) ==> bs[j].doc.key != bs[k].doc.key
    requires var after := ImportAll(store, bs, others); id in after && after[id].key == bs[k].doc.key
    ensures id == bs[k].id || id in others
  {
    var doc := ImportAll(store, bs, others)[id];
    RemovedByLaterKey(bs, k, id, doc, others);
    ImportedExactly(store, bs, others, id, doc);
  }

  lemma {:induction false} RemovedByLaterKey(bs: seq<BackupDefault>, k: int, id: string, doc: EntityDefault,
      others: set<string>)
    requires 0 <= k < |bs| && Importable(bs[k]) && doc.key == bs[k].doc.key
    ensures id !in others ==> forall i :: 0 <= i <= k ==> RemovedFrom(bs, i, id, doc, others)
  {
  }

  // ----- compaction --------------------------------------------------------------------------

  /** `kept`: the references a document answers, in conf order. */
  function Kept(refs: seq<string>, store: Store): (r: seq<string>)
    ensures forall id :: id in r <==> id in refs && id in store
    ensures r == refs <==> forall id :: id in refs ==> id in store
  {
    if refs == [] then []
    else if refs[0] in store then
      var rest := Kept(refs[1..], store);
      assert refs == [refs[0]] + refs[1..];
      [refs[0]] + rest
    else
      var rest := Kept(refs[1..], store);
      assert refs[0] !in rest;
      rest
  }

  function Compacted(confs: Confs, instanceCode: string, store: Store): Confs {
    if instanceCode in confs then confs[instanceCode := Kept(confs[instanceCode], store)] else confs
  }

  /** After the restore compacts this world's conf, every reference of it resolves; no other conf moves. */
  lemma {:induction false} CompactionResolves(confs: Confs, instanceCode: string, store: Store)
    ensures var after := Compacted(confs, instanceCode, store);
      && after.Keys == confs.Keys
      && (instanceCode in confs ==> forall id :: id in after[instanceCode] ==> id in store)
      && (forall c :: c in confs && c != instanceCode ==> after[c] == confs[c])
      && OtherWorlds(after, instanceCode) == OtherWorlds(confs, instanceCode)
  {
    var after := Compacted(confs, instanceCode, store);
    forall id ensures id in OtherWorlds(after, instanceCode) <==> id in OtherWorlds(confs, instanceCode) {
      if id in OtherWorlds(confs, instanceCode) {
        var c :| c in confs && c != instanceCode && id in confs[c];
        assert c in after && id in after[c];
      }
    }
  }

  /** No later backup document has the key of this one under another `_id`. */
  ghost predicate LastOfItsKey(bs: seq<BackupDefault>, k: int) {
    0 <= k < |bs| && Importable(bs[k])
    && forall j :: k < j < |bs| && Importable(bs[j]) ==> bs[j].doc.key != bs[k].doc.key || bs[j].id == bs[k].id
  }

  /** The backup of a world: one file per reference, named by `_id`, so no `_id` twice. */
  ghost predicate OneFilePerId(bs: seq<BackupDefault>) {
    && (forall k :: 0 <= k < |bs| ==> Importable(bs[k]))
    && (forall i, j :: 0 <= i < j < |bs| ==> bs[i].id != bs[j].id)
  }

  lemma {:induction false} SurvivesOwnImport(store: Store, bs: seq<BackupDefault>, others: set<string>, k: int)
    requires OneFilePerId(bs) && 0 <= k < |bs|
    ensures bs[k].id in ImportAll(store, bs, others) <==> bs[k].id in others || LastOfItsKey(bs, k)
  {
    var id, doc := bs[k].id, bs[k].doc;
    var after := ImportAll(store, bs, others);
    assert Imported(bs, k, id, doc);
    if id in after {
      ImportedExactly(store, bs, others, id, after[id]);
      assert RemovedFrom(bs, 0, id, after[id], others);
    }
    ImportedExactly(store, bs, others, id, doc);
    if id !in others && !LastOfItsKey(bs, k) {
      var j :| k < j < |bs| && Importable(bs[j]) && bs[j].doc.key == doc.key && bs[j].id != id;
      assert RemovedFrom(bs, k + 1, id, doc, others);
    }
  }

  /**
   * A world's references all survive the restore of its own backup if and only if no two of its
   * documents have one key, those another world references aside. Two documents that answer for
   * one build are legal to declare and are exported both; the import of the second removes the first,
   * and the compaction then drops the reference.
   */
  lemma {:induction false} ReferencesSurviveExactly(store: Store, bs: seq<BackupDefault>, others: set<string>,
      refs: seq<string>)
    requires OneFilePerId(bs)
    requires forall id :: id in refs <==> exists k :: 0 <= k < |bs| && bs[k].id == id
    ensures Kept(refs, ImportAll(store, bs, others)) == refs
       <==> forall i, j :: 0 <= i < j < |bs| && bs[i].id !in others ==> bs[i].doc.key != bs[j].doc.key
  {
    var after := ImportAll(store, bs, others);
    forall k | 0 <= k < |bs| ensures bs[k].id in after <==> bs[k].id in others || LastOfItsKey(bs, k) {
      SurvivesOwnImport(store, bs, others, k);
    }
    assert forall k :: 0 <= k < |bs| ==> bs[k].id in refs;
  }

  /** The smallest world that loses a reference: two defaults of one build. */
  lemma {:induction false} DuplicateBuildLosesReference()
    ensures var key := Key("bot", ["wolf"]);
      var a, b := EntityDefault(key, ["wolf"], "a"), EntityDefault(key, ["wolf"], "b");
      var bs := [BackupDefault("1", a), BackupDefault("2", b)];
      var store := map["1" := bs[0].doc, "2" := bs[1].doc];
      Kept(["1", "2"], ImportAll(store, bs, {})) == ["2"]
  {
    var key := Key("bot", ["wolf"]);
    var a, b := EntityDefault(key, ["wolf"], "a"), EntityDefault(key, ["wolf"], "b");
    var bs := [BackupDefault("1", a), BackupDefault("2", b)];
    var store: Store := map["1" := bs[0].doc, "2" := bs[1].doc];
    assert bs[..1] == [bs[0]] && bs[..1][..0] == [];
    assert ImportAll(store, bs[..1], {}) == ImportOne(store, bs[0], {});
    assert "2" !in ImportOne(store, bs[0], {});
    var after := ImportAll(store, bs, {});
    assert after == ImportOne(ImportOne(store, bs[0], {}), bs[1], {});
    assert "1" !in after && "2" in after;
    assert ["1", "2"][1..] == ["2"] && ["2"][1..] == [];
  }

  // ----- the import --------------------------------------------------------------------------

  class DefaultsCollection {
    var store: Store
    var confs: Confs

    constructor (store: Store, confs: Confs)
      ensures this.store == store && this.confs == confs
    {
      this.store := store;
      this.confs := confs;
    }

    /** Step `8d-bis` of an instance import with the compaction that follows it. */
    method Import(bs: seq<BackupDefault>, instanceCode: string) returns (count: nat)
      modifies this
      ensures store == ImportAll(old(store), bs, OtherWorlds(old(confs), instanceCode))
      ensures confs == Compacted(old(confs), instanceCode, store)
      ensures count == |set k | 0 <= k < |bs| && Importable(bs[k])|
    {
      var others := OtherWorlds(confs, instanceCode);
      count := 0;
      for i := 0 to |bs|
        invariant store == ImportAll(old(store), bs[..i], others)
        invariant confs == old(confs)
        invariant count == |set k | 0 <= k < i && Importable(bs[k])|
      {
        assert bs[..i + 1][..i] == bs[..i];
        var b := bs[i];
        ghost var counted := set k | 0 <= k < i && Importable(bs[k]);
        ghost var next := set k | 0 <= k < i + 1 && Importable(bs[k]);
        if b.doc.key.entityType == "" || b.id == "" {
          assert next == counted;
          continue;
        }
        assert next == counted + {i};
        var replaced := set id | id in store && store[id].key == b.doc.key && id != b.id && id !in others;
        store := store - ({b.id} + replaced);
        store := store[b.id := b.doc];
        count := count + 1;
      }
      assert bs[..|bs|] == bs;
      Compact(instanceCode);
    }

    /** `compactInstanceRefs` of one instance: writes the conf only when a reference dangles. */
    method Compact(instanceCode: string)
      modifies this`confs
      ensures confs == Compacted(old(confs), instanceCode, store)
    {
      if instanceCode in confs {
        var kept := Kept(confs[instanceCode], store);
        if |kept| != |confs[instanceCode]| {
          confs := confs[instanceCode := kept];
        } else {
          KeptLength(confs[instanceCode], store);
        }
      }
    }
  }

  lemma {:induction false} KeptLength(refs: seq<string>, store: Store)
    ensures |Kept(refs, store)| <= |refs|
    ensures |Kept(refs, store)| == |refs| ==> Kept(refs, store) == refs
  {
    if refs != [] { KeptLength(refs[1..], store); }
  }
}
