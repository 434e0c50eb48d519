/**
 * The dialogue part of a backup: the export groups the queried documents into one file per code,
 * the import replaces what a file's codes and ids name.
 */
module Dialogues {

  datatype Dialogue = Dialogue(code: string, rest: string)

  /** A stored document with its `_id`, as a backup file carries it. */
  datatype Entry = Entry(id: string, doc: Dialogue)

  /** The collection, by `_id`. Several documents share a code. */
  type Store = map<string, Dialogue>

  /** One backup file: the documents of one code in their order. */
  datatype File = File(code: string, entries: seq<Entry>)

  // ----- grouping ----------------------------------------------------------------------------

  function OfCode(docs: seq<Entry>, code: string): (r: seq<Entry>)
    ensures forall e :: e in r <==> e in docs && e.doc.code == code
  {
    if docs == [] then []
    else
      var n := |docs| - 1;
      OfCode(docs[..n], code) + if docs[n].doc.code == code then [docs[n]] else []
  }

  function IndexOf(files: seq<File>, code: string): (i: nat)
    ensures i <= |files|
    ensures i < |files| ==> files[i].code == code
    ensures i == |files| ==> forall f :: f in files ==> f.code != code
  {
    if files == [] then 0
    else if files[0].code == code then 0
    else 1 + IndexOf(files[1..], code)
  }

  /** A grouping: one non-empty file per code met, each the documents of that code in query order. */
  ghost predicate Grouping(files: seq<File>, docs: seq<Entry>) {
    && (forall i, j :: 0 <= i < j < |files| ==> files[i].code != files[j].code)
    && (forall i :: 0 <= i < |files| ==> files[i].entries != [] && files[i].entries == OfCode(docs, files[i].code))
    && (forall e :: e in docs ==> IndexOf(files, e.doc.code) < |files|)
  }

  /** Every queried document is in exactly one file, once for each time it was queried. */
  lemma {:induction false} GroupingPartitions(files: seq<File>, docs: seq<Entry>, e: Entry)
    requires Grouping(files, docs) && e in docs
    ensures exists i :: 0 <= i < |files| && e in files[i].entries
                     && multiset(files[i].entries)[e] == multiset(docs)[e]
                     && forall j :: 0 <= j < |files| && j != i ==> e !in files[j].entries
  {
    var i := IndexOf(files, e.doc.code);
    OfCodeCount(docs, e);
    assert e in files[i].entries;
    forall j | 0 <= j < |files| && j != i ensures e !in files[j].entries {
      assert files[j].code != files[i].code;
    }
  }

  lemma {:induction false} OfCodeCount(docs: seq<Entry>, e: Entry)
    ensures multiset(OfCode(docs, e.doc.code))[e] == multiset(docs)[e]
  {
    if docs != [] {
      var n := |docs| - 1;
      OfCodeCount(docs[..n], e);
      assert docs == docs[..n] + [docs[n]];
    }
  }

  /** `has` or `set([])`, then `get(...).push`: the map with one more document. */
  function Pushed(files: seq<File>, e: Entry): seq<File> {
    var k := IndexOf(files, e.doc.code);
    if k == |files| then files + [File(e.doc.code, [e])]
    else files[k := File(e.doc.code, files[k].entries + [e])]
  }

  lemma {:induction false} OfCodeSnoc(docs: seq<Entry>, e: Entry, code: string)
    ensures OfCode(docs + [e], code) == OfCode(docs, code) + if e.doc.code == code then [e] else []
  {
    assert (docs + [e])[..|docs|] == docs;
  }

  lemma {:induction false} IndexOfPresent(files: seq<File>, p: nat)
    requires p < |files|
    ensures IndexOf(files, files[p].code) < |files|
  {
    assert files[p] in files;
  }

  lemma {:induction false} NoneOfCode(docs: seq<Entry>, code: string)
    requires forall e :: e in docs ==> e.doc.code != code
    ensures OfCode(docs, code) == []
  {
    if docs != [] {
      assert forall e :: e in docs[..|docs| - 1] ==> e in docs;
      NoneOfCode(docs[..|docs| - 1], code);
    }
  }

  lemma {:induction false} PushKeepsGrouping(files: seq<File>, docs: seq<Entry>, e: Entry)
    requires Grouping(files, docs)
    ensures Grouping(Pushed(files, e), docs + [e])
  {
    var k := IndexOf(files, e.doc.code);
    var after := Pushed(files, e);
    if k == |files| { NoneOfCode(docs, e.doc.code); }
    forall i | 0 <= i < |after|
      ensures after[i].entries != [] && after[i].entries == OfCode(docs + [e], after[i].code)
    {
      OfCodeSnoc(docs, e, after[i].code);
    }
    forall x | x in docs + [e] ensures IndexOf(after, x.doc.code) < |after| {
      var p := if x == e then k else IndexOf(files, x.doc.code);
      assert after[p].code == x.doc.code;
      IndexOfPresent(after, p);
    }
  }

  lemma {:induction false} NextKeepsGrouping(files: seq<File>, docs: seq<Entry>, i: nat)
    requires i < |docs| && Grouping(files, docs[..i])
    ensures Grouping(Pushed(files, docs[i]), docs[..i + 1])
  {
    var front, next := docs[..i], docs[..i + 1];
    assert next == front + [docs[i]];
    PushKeepsGrouping(files, front, docs[i]);
  }

  /** `has` or `set(code, [])`, then `get(code).push(dialogue)`. */
  method Push(files: seq<File>, e: Entry) returns (r: seq<File>)
    ensures r == Pushed(files, e)
  {
    r := files;
    var k := IndexOf(r, e.doc.code);
    if k == |r| {
      r := r + [File(e.doc.code, [])];
      assert r[k].entries + [e] == [e];
      assert r[k := File(e.doc.code, [e])] == files + [File(e.doc.code, [e])];
    }
    r := r[k := File(e.doc.code, r[k].entries + [e])];
  }

  /** The loop over the query result, with its map in insertion order. */
  method GroupByCode(docs: seq<Entry>) returns (files: seq<File>)
    ensures Grouping(files, docs)
  {
    files := [];
    for i := 0 to |docs|
      invariant Grouping(files, docs[..i])
    {
      NextKeepsGrouping(files, docs, i);
      files := Push(files, docs[i]);
    }
    assert docs[..|docs|] == docs;
  }

  // ----- restoring ---------------------------------------------------------------------------

  function Codes(entries: seq<Entry>): set<string> {
    set e | e in entries && e.doc.code != "" :: e.doc.code
  }

  function Ids(entries: seq<Entry>): set<string> {
    set e | e in entries :: e.id
  }

  function Created(store: Store, entries: seq<Entry>): Store {
    if entries == [] then store
    else
      var n := |entries| - 1;
      Created(store, entries[..n])[entries[n].id := entries[n].doc]
  }

  /** One file: its codes go, its ids go, its documents are created. A file without a code is skipped. */
  function ImportFile(store: Store, file: seq<Entry>): Store {
    if Codes(file) == {} then store
    else
      var kept := map id | id in store && store[id].code !in Codes(file) && id !in Ids(file) :: store[id];
      Created(kept, file)
  }

  function ImportFiles(store: Store, files: seq<File>): Store {
    if files == [] then store
    else ImportFile(ImportFiles(store, files[..|files| - 1]), files[|files| - 1].entries)
  }

  ghost function WithoutCodes(store: Store, codes: set<string>, ids: set<string>): Store {
    map id | id in store && store[id].code !in codes && id !in ids :: store[id]
  }

  /** What a query for some codes finds. */
  function OfCodes(store: Store, codes: set<string>): Store {
    map id | id in store && store[id].code in codes :: store[id]
  }

  ghost function CodesOf(docs: Store): set<string> {
    set id | id in docs :: docs[id].code
  }

  lemma {:induction false} CreatedAt(store: Store, entries: seq<Entry>, docs: Store, id: string)
    requires forall e :: e in entries ==> e.id in docs && docs[e.id] == e.doc
    ensures id in Created(store, entries) <==> id in store || id in Ids(entries)
    ensures id in Ids(entries) ==> id in docs && Created(store, entries)[id] == docs[id]
    ensures id in store && id !in Ids(entries) ==> Created(store, entries)[id] == store[id]
  {
    if entries != [] {
      var n := |entries| - 1;
      assert forall e :: e in entries[..n] ==> e in entries;
      assert entries[n] in entries;
      CreatedAt(store, entries[..n], docs, id);
      assert entries == entries[..n] + [entries[n]];
      assert Ids(entries) == Ids(entries[..n]) + {entries[n].id};
    }
  }

  ghost predicate InFiles(files: seq<File>, id: string) {
    exists f :: f in files && id in Ids(f.entries)
  }

  ghost predicate CodeOfFiles(files: seq<File>, code: string) {
    exists f :: f in files && f.code == code
  }

  /** Files that carry documents of `docs`, one code a file. */
  ghost predicate Carries(files: seq<File>, docs: Store) {
    && (forall i, j :: 0 <= i < j < |files| ==> files[i].code != files[j].code)
    && (forall f :: f in files ==> f.code != "" && f.entries != [])
    && (forall f, e :: f in files && e in f.entries ==> e.doc.code == f.code && e.id in docs && docs[e.id] == e.doc)
  }

  /** The files a set of stored documents is exported to: grouped, in whatever order they are read back. */
  ghost predicate FilesOf(files: seq<File>, exported: Store) {
    && Carries(files, exported)
    && (forall id :: id in exported ==> exists f :: f in files && Entry(id, exported[id]) in f.entries)
  }

  lemma {:induction false} CarriesFront(files: seq<File>, docs: Store)
    requires Carries(files, docs) && files != []
    ensures Carries(files[..|files| - 1], docs)
    ensures forall f :: f in files[..|files| - 1] ==> f.code != files[|files| - 1].code
  {
    var n := |files| - 1;
    assert forall f :: f in files[..n] ==> f in files;
    forall f | f in files[..n] ensures f.code != files[n].code {
      var i :| 0 <= i < n && files[..n][i] == f;
      assert files[i] == f;
    }
  }

  /** One file: its documents are in, and nothing else has its code or one of its ids. */
  lemma {:induction false} ImportFileAt(store: Store, file: File, docs: Store, id: string)
    requires file.code != "" && file.entries != []
    requires forall e :: e in file.entries ==> e.doc.code == file.code && e.id in docs && docs[e.id] == e.doc
    ensures id in ImportFile(store, file.entries) <==>
              id in Ids(file.entries) || (id in store && store[id].code != file.code)
    ensures id in Ids(file.entries) ==> id in docs && ImportFile(store, file.entries)[id] == docs[id]
    ensures id in ImportFile(store, file.entries) && id !in Ids(file.entries)
        ==> ImportFile(store, file.entries)[id] == store[id]
  {
    assert file.entries[0] in file.entries;
    assert Codes(file.entries) == {file.code};
    CreatedAt(WithoutCodes(store, Codes(file.entries), Ids(file.entries)), file.entries, docs, id);
  }

  /** The state after some of the files: their documents are in, and nothing else has their codes. */
  lemma {:induction false} ImportFilesAt(store: Store, files: seq<File>, docs: Store, id: string)
    requires Carries(files, docs)
    ensures id in ImportFiles(store, files) <==>
              InFiles(files, id) || (id in store && !CodeOfFiles(files, store[id].code))
    ensures InFiles(files, id) ==> id in docs && ImportFiles(store, files)[id] == docs[id]
    ensures id in ImportFiles(store, files) && !InFiles(files, id) ==> ImportFiles(store, files)[id] == store[id]
  {
    if files != [] {
      var n := |files| - 1;
      var front, last := files[..n], files[n];
      assert files == front + [last] && last in files;
      CarriesFront(files, docs);
      ImportFilesAt(store, front, docs, id);
      ImportFileAt(ImportFiles(store, front), last, docs, id);
      InFilesSnoc(front, last, id);
      if id in store { CodeOfFilesSnoc(front, last, store[id].code); }
      if InFiles(front, id) { FrontCodeDiffers(files, docs, id); }
    }
  }

  lemma {:induction false} InFilesSnoc(front: seq<File>, last: File, id: string)
    ensures InFiles(front + [last], id) <==> InFiles(front, id) || id in Ids(last.entries)
  {
    if InFiles(front, id) {
      var f :| f in front && id in Ids(f.entries);
      assert f in front + [last];
    }
    if id in Ids(last.entries) { assert last in front + [last]; }
  }

  lemma {:induction false} CodeOfFilesSnoc(front: seq<File>, last: File, code: string)
    ensures CodeOfFiles(front + [last], code) <==> CodeOfFiles(front, code) || code == last.code
  {
    if CodeOfFiles(front, code) {
      var f :| f in front && f.code == code;
      assert f in front + [last];
    }
    if code == last.code { assert last in front + [last]; }
  }

  lemma {:induction false} FrontCodeDiffers(files: seq<File>, docs: Store, id: string)
    requires Carries(files, docs) && files != [] && InFiles(files[..|files| - 1], id)
    ensures id in docs && docs[id].code != files[|files| - 1].code
  {
    CarriesFront(files, docs);
    var f :| f in files[..|files| - 1] && id in Ids(f.entries);
    var e :| e in f.entries && e.id == id;
    assert f in files;
  }

  /**
   * Restoring the files of a set of documents, in any order and over any store, leaves exactly those
   * documents under their codes; every document of another code stays, unless its `_id` is restored.
   */
  lemma {:induction false} RestoreIsExact(store: Store, files: seq<File>, exported: Store)
    requires FilesOf(files, exported)
    ensures ImportFiles(store, files) == WithoutCodes(store, CodesOf(exported), exported.Keys) + exported
  {
    var after, expected := ImportFiles(store, files), WithoutCodes(store, CodesOf(exported), exported.Keys) + exported;
    forall id ensures id in after <==> id in expected
              ensures id in after ==> after[id] == expected[id]
    {
      ImportFilesAt(store, files, exported, id);
      FilesNameIds(files, exported, id);
      if id in store { FilesNameCodes(files, exported, store[id].code); }
    }
  }

  lemma {:induction false} FilesNameIds(files: seq<File>, exported: Store, id: string)
    requires FilesOf(files, exported)
    ensures InFiles(files, id) <==> id in exported
  {
    if id in exported {
      var f :| f in files && Entry(id, exported[id]) in f.entries;
      assert id in Ids(f.entries);
    }
  }

  lemma {:induction false} FilesNameCodes(files: seq<File>, exported: Store, code: string)
    requires FilesOf(files, exported)
    ensures CodeOfFiles(files, code) <==> code in CodesOf(exported)
  {
    if CodeOfFiles(files, code) {
      var f :| f in files && f.code == code;
      assert f.entries[0] in f.entries;
      assert exported[f.entries[0].id].code == code;
    }
    if code in CodesOf(exported) {
      var id :| id in exported && exported[id].code == code;
      var f :| f in files && Entry(id, exported[id]) in f.entries;
      assert f.code == code;
    }
  }

  /** No `_id` twice. */
  ghost predicate DistinctIds(entries: seq<Entry>) {
    forall i, j :: 0 <= i < j < |entries| ==> entries[i].id != entries[j].id
  }

  /** The `create` of every file that is not skipped goes through. */
  ghost predicate Creatable(files: seq<File>) {
    forall f :: f in files ==> Codes(f.entries) == {} || DistinctIds(f.entries)
  }

  /** A query result: every document of `exported` once. */
  ghost predicate Queried(docs: seq<Entry>, exported: Store) {
    DistinctIds(docs) && forall e :: e in docs <==> e.id in exported && exported[e.id] == e.doc
  }

  /** A directory read back: one file per name, which is its code, in whatever order they are listed. */
  ghost predicate ReadBack(files: seq<File>, written: seq<File>) {
    && (forall i, j :: 0 <= i < j < |files| ==> files[i].code != files[j].code)
    && (forall f :: f in files <==> f in written)
  }

  /** `files` is what an import reads from the directory the export of `exported` wrote. */
  ghost predicate ExportedTo(files: seq<File>, exported: Store) {
    exists docs, written :: Queried(docs, exported) && Grouping(written, docs) && ReadBack(files, written)
  }

  /** The grouped query result of a store is such a set of files. */
  lemma {:induction false} GroupingIsFilesOf(files: seq<File>, docs: seq<Entry>, exported: Store)
    requires Grouping(files, docs)
    requires forall e :: e in docs <==> e.id in exported && exported[e.id] == e.doc
    requires forall e :: e in docs ==> e.doc.code != ""
    ensures FilesOf(files, exported)
  {
    forall f | f in files ensures f.code != "" && f.entries != [] {
      var i :| 0 <= i < |files| && files[i] == f;
      assert f.entries[0] in f.entries;
    }
    forall f, e | f in files && e in f.entries
      ensures e.doc.code == f.code && e.id in exported && exported[e.id] == e.doc
    {
      var i :| 0 <= i < |files| && files[i] == f;
    }
    forall id | id in exported ensures exists f :: f in files && Entry(id, exported[id]) in f.entries {
      var e := Entry(id, exported[id]);
      assert e in docs;
      assert files[IndexOf(files, e.doc.code)] in files;
    }
  }

  lemma {:induction false} OfCodeDistinct(docs: seq<Entry>, code: string)
    requires DistinctIds(docs)
    ensures DistinctIds(OfCode(docs, code))
  {
    if docs != [] {
      var n := |docs| - 1;
      OfCodeDistinct(docs[..n], code);
      forall e | e in OfCode(docs[..n], code) ensures e.id != docs[n].id {
        var i :| 0 <= i < n && docs[..n][i] == e;
      }
    }
  }

  lemma {:induction false} ReadBackIsFilesOf(files: seq<File>, written: seq<File>, exported: Store)
    requires ReadBack(files, written) && FilesOf(written, exported)
    ensures FilesOf(files, exported)
  {
    forall id | id in exported ensures exists f :: f in files && Entry(id, exported[id]) in f.entries {
      var f :| f in written && Entry(id, exported[id]) in f.entries;
      assert f in files;
    }
  }

  lemma {:induction false} ExportedIsFilesOf(files: seq<File>, exported: Store)
    requires ExportedTo(files, exported) && forall id :: id in exported ==> exported[id].code != ""
    ensures FilesOf(files, exported) && Creatable(files)
  {
    var docs, written :| Queried(docs, exported) && Grouping(written, docs) && ReadBack(files, written);
    GroupingIsFilesOf(written, docs, exported);
    ReadBackIsFilesOf(files, written, exported);
    forall f | f in files ensures DistinctIds(f.entries) {
      assert f in written;
      var i :| 0 <= i < |written| && written[i] == f;
      OfCodeDistinct(docs, f.code);
    }
  }

  /**
   * Export, then restore: whatever order the query and the directory answered in, and over any store, the create of
   * every file goes through and the store ends with exactly the exported documents under their codes; every document
   * of another code stays, unless its `_id` is restored.
   */
  lemma {:induction false} ExportThenRestore(store: Store, files: seq<File>, exported: Store)
    requires ExportedTo(files, exported) && forall id :: id in exported ==> exported[id].code != ""
    ensures Creatable(files)
    ensures ImportFiles(store, files) == WithoutCodes(store, CodesOf(exported), exported.Keys) + exported
  {
    ExportedIsFilesOf(files, exported);
    RestoreIsExact(store, files, exported);
  }

  /** Of each exported code the restored store holds exactly the exported documents, whatever it held. */
  lemma {:induction false} EachCodeIsExact(store: Store, files: seq<File>, exported: Store, code: string)
    requires FilesOf(files, exported) && code in CodesOf(exported)
    ensures var after := ImportFiles(store, files);
            forall id, d :: id in after && after[id] == d && d.code == code <==>
              id in exported && exported[id] == d && d.code == code
  {
    RestoreIsExact(store, files, exported);
  }

  lemma {:induction false} CreatedKeys(store: Store, entries: seq<Entry>, id: string)
    ensures id in Created(store, entries) <==> id in store || id in Ids(entries)
  {
    if entries != [] {
      var n := |entries| - 1;
      CreatedKeys(store, entries[..n], id);
      assert entries == entries[..n] + [entries[n]];
    }
  }

  lemma {:induction false} CreatedKeeps(store: Store, entries: seq<Entry>, id: string)
    requires id in store && id !in Ids(entries)
    ensures id in Created(store, entries) && Created(store, entries)[id] == store[id]
  {
    if entries != [] {
      var n := |entries| - 1;
      assert entries == entries[..n] + [entries[n]];
      CreatedKeeps(store, entries[..n], id);
    }
  }

  lemma {:induction false} DistinctSnoc(entries: seq<Entry>, k: nat)
    requires k < |entries| && DistinctIds(entries[..k])
    ensures DistinctIds(entries[..k + 1]) <==> entries[k].id !in Ids(entries[..k])
    ensures entries[k].id in Ids(entries[..k]) ==> !DistinctIds(entries)
  {
    assert entries[..k + 1] == entries[..k] + [entries[k]];
    if entries[k].id in Ids(entries[..k]) {
      var i :| 0 <= i < k && entries[..k][i].id == entries[k].id;
      assert entries[i].id == entries[k].id && entries[..k + 1][i].id == entries[..k + 1][k].id;
    }
  }

  class DialogueCollection {
    var store: Store

    constructor (store: Store)
      ensures this.store == store
    {
      this.store := store;
    }

    /** The query of an export for some codes, in any order, and the grouping of its result. */
    method ExportCodes(requested: set<string>) returns (files: seq<File>)
      ensures ExportedTo(files, OfCodes(store, requested))
    {
      var docs: seq<Entry> := [];
      var todo := store.Keys;
      while todo != {}
        invariant todo <= store.Keys
        invariant DistinctIds(docs)
        invariant forall e :: e in docs <==>
          e.id in store && e.id !in todo && store[e.id] == e.doc && e.doc.code in requested
      {
        var id :| id in todo;
        todo := todo - {id};
        if store[id].code in requested {
          assert forall e :: e in docs ==> e.id != id;
          docs := docs + [Entry(id, store[id])];
        }
      }
      files := GroupByCode(docs);
      assert Queried(docs, OfCodes(store, requested));
      GroupingReadsBack(files, docs);
    }

    /**
     * The replacement of one file: two `deleteMany`, then the documents one by one. The `create` of an `_id` the
     * file holds twice throws.
     */
    method ImportEntries(entries: seq<Entry>) returns (ok: bool)
      modifies this
      ensures ok <==> Codes(entries) == {} || DistinctIds(entries)
      ensures ok ==> store == ImportFile(old(store), entries)
      ensures forall id :: id in old(store) && old(store)[id].code !in Codes(entries) && id !in Ids(entries) ==>
        id in store && store[id] == old(store)[id]
    {
      var codes := set e | e in entries && e.doc.code != "" :: e.doc.code;
      if codes == {} { return true; }
      var ids := set e | e in entries :: e.id;
      store := map id | id in store && store[id].code !in codes :: store[id];
      store := map id | id in store && id !in ids :: store[id];
      ghost var kept := WithoutCodes(old(store), Codes(entries), Ids(entries));
      assert store == kept;
      for k := 0 to |entries|
        invariant DistinctIds(entries[..k]) && store == Created(kept, entries[..k])
      {
        assert entries[..k + 1][..k] == entries[..k];
        assert entries[k] in entries;
        CreatedKeys(kept, entries[..k], entries[k].id);
        DistinctSnoc(entries, k);
        if entries[k].id in store {
          KeptThrough(old(store), entries, k);
          return false;
        }
        store := store[entries[k].id := entries[k].doc];
      }
      assert entries[..|entries|] == entries;
      KeptThrough(old(store), entries, |entries|);
      return true;
    }

    /** The import loop over the dialogue files: it stops at the first whose `create` throws. */
    method Import(files: seq<File>) returns (ok: bool)
      modifies this
      ensures ok <==> Creatable(files)
      ensures ok ==> store == ImportFiles(old(store), files)
    {
      for i := 0 to |files|
        invariant Creatable(files[..i])
        invariant store == ImportFiles(old(store), files[..i])
      {
        assert files[..i + 1][..i] == files[..i];
        assert files[i] in files;
        ok := ImportEntries(files[i].entries);
        if !ok { return; }
      }
      assert files[..|files|] == files;
      return true;
    }
  }

  lemma {:induction false} GroupingReadsBack(files: seq<File>, docs: seq<Entry>)
    requires Grouping(files, docs)
    ensures ReadBack(files, files)
  {
  }

  lemma {:induction false} KeptThrough(store: Store, entries: seq<Entry>, k: nat)
    requires k <= |entries|
    ensures var kept := WithoutCodes(store, Codes(entries), Ids(entries));
      forall id :: id in kept ==> id in Created(kept, entries[..k]) && Created(kept, entries[..k])[id] == store[id]
  {
    var kept := WithoutCodes(store, Codes(entries), Ids(entries));
    assert forall e :: e in entries[..k] ==> e in entries;
    forall id | id in kept ensures id in Created(kept, entries[..k]) && Created(kept, entries[..k])[id] == store[id] {
      CreatedKeeps(kept, entries[..k], id);
    }
  }
}
