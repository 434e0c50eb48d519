/**
 * The import of audio assets: the two-key replacement of `KeyedCollection`, and beside it the
 * reclamation of the blobs the replaced assets held.
 */
module AudioImport {
  import opened Wrappers
  import opened KeyedCollection

  /** The `fileId` of an asset; a missing or empty one is falsy and is `None`. */
  type FileRef = Option<string>
  type Asset = Doc<FileRef>

  ghost predicate Holds(a: Asset, f: string) {
    a.body == Some(f)
  }

  ghost predicate Referenced(assets: seq<Asset>, f: string) {
    exists a :: a in assets && Holds(a, f)
  }

  /**
   * Backup document `i` is the one that takes `o` out of the collection: `o` was stored and `i` is the first to
   * collide with it, or an earlier backup document wrote it and `i` is the next to collide with it.
   */
  ghost predicate ReplacedBy(assets: seq<Asset>, bs: seq<Asset>, o: Asset, i: int) {
    && 0 <= i < |bs| && Collide(o, bs[i])
    && ((o in assets && !CollidesAny(o, bs[..i])) || exists j :: WrittenAt(bs, o, j, i))
  }

  /** Backup document `j` is `o`, and none between `j` and `i` collides with it. */
  ghost predicate WrittenAt(bs: seq<Asset>, o: Asset, j: int, i: int) {
    0 <= j < i <= |bs| && bs[j] == o && !CollidesAny(o, bs[j + 1..i])
  }

  /** What `ReplacedBy` says of the input is what the loop meets at step `i`. */
  lemma {:induction false} ReplacedInLoop(assets: seq<Asset>, bs: seq<Asset>, o: Asset, i: int)
    requires 0 <= i < |bs|
    ensures ReplacedBy(assets, bs, o, i) <==> o in Restored(assets, bs[..i]) && Collide(o, bs[i])
  {
    RestoredMembers(assets, bs[..i], o);
    forall j | 0 <= j < i ensures WrittenAt(bs, o, j, i) <==> LastWriterAt(bs[..i], j) && bs[..i][j] == o {
      assert bs[..i][j + 1..] == bs[j + 1..i];
    }
  }

  /** Backup document `i` replaces a holder of `f` and names another file. */
  ghost predicate GivesUp(assets: seq<Asset>, bs: seq<Asset>, f: string, i: int) {
    exists o :: ReplacedBy(assets, bs, o, i) && Holds(o, f) && bs[i].body != Some(f)
  }

  /** The blobs the replacement of one document deletes. */
  function Reclaimed(superseded: seq<Asset>, d: Asset): set<string> {
    set o | o in superseded && o.body.Some? && o.body != d.body :: o.body.value
  }

  /** The stored assets a `find` by key or `_id` returns. */
  function Superseded(assets: seq<Asset>, d: Asset): (r: seq<Asset>)
    ensures forall o :: o in r <==> o in assets && Collide(o, d)
  {
    if assets == [] then []
    else if Collide(assets[0], d) then [assets[0]] + Superseded(assets[1..], d)
    else Superseded(assets[1..], d)
  }

  /** The file collection an import leaves. */
  ghost function FilesAfter(assets: seq<Asset>, files: set<string>, bs: seq<Asset>): set<string> {
    if bs == [] then files
    else
      var n := |bs| - 1;
      FilesAfter(assets, files, bs[..n]) - Reclaimed(Superseded(Restored(assets, bs[..n]), bs[n]), bs[n])
  }

  lemma {:induction false} FilesAfterSnoc(assets: seq<Asset>, files: set<string>, bs: seq<Asset>, d: Asset)
    ensures FilesAfter(assets, files, bs + [d]) ==
            FilesAfter(assets, files, bs) - Reclaimed(Superseded(Restored(assets, bs), d), d)
  {
    assert (bs + [d])[..|bs|] == bs;
  }

  lemma {:induction false} GivesUpInPrefix(assets: seq<Asset>, bs: seq<Asset>, f: string, i: int, n: int)
    requires 0 <= i < n <= |bs|
    ensures GivesUp(assets, bs[..n], f, i) <==> GivesUp(assets, bs, f, i)
  {
    assert bs[..n][..i] == bs[..i];
    forall o ensures ReplacedBy(assets, bs[..n], o, i) <==> ReplacedBy(assets, bs, o, i) {
      forall j | 0 <= j < i ensures WrittenAt(bs[..n], o, j, i) <==> WrittenAt(bs, o, j, i) {
        assert bs[..n][j + 1..i] == bs[j + 1..i];
      }
    }
  }

  lemma {:induction false} ReclaimedExactlyWhenGivenUp(assets: seq<Asset>, bs: seq<Asset>, f: string, i: int)
    requires 0 <= i < |bs|
    ensures f in Reclaimed(Superseded(Restored(assets, bs[..i]), bs[i]), bs[i]) <==> GivesUp(assets, bs, f, i)
  {
    var olds := Superseded(Restored(assets, bs[..i]), bs[i]);
    forall o ensures ReplacedBy(assets, bs, o, i) <==> o in olds { ReplacedInLoop(assets, bs, o, i); }
  }

  /** A blob goes exactly when some replacement gives it up: its holder is replaced under another file. */
  lemma {:induction false} DeletedExactlyWhenGivenUp(assets: seq<Asset>, files: set<string>, bs: seq<Asset>, f: string)
    ensures f in FilesAfter(assets, files, bs) <==>
      f in files && forall i :: 0 <= i < |bs| ==> !GivesUp(assets, bs, f, i)
  {
    if bs != [] {
      var n := |bs| - 1;
      DeletedExactlyWhenGivenUp(assets, files, bs[..n], f);
      forall i | 0 <= i < n ensures GivesUp(assets, bs[..n], f, i) <==> GivesUp(assets, bs, f, i) {
        GivesUpInPrefix(assets, bs, f, i, n);
      }
      ReclaimedExactlyWhenGivenUp(assets, bs, f, n);
    }
  }

  lemma {:induction false} ReclaimedHolders(olds: seq<Asset>, d: Asset, f: string)
    requires d.body != Some(f)
    ensures forall o :: o in olds && Holds(o, f) ==> f in Reclaimed(olds, d)
  {
  }

  // ----- no orphan blob ----------------------------------------------------------------------

  /**
   * Nothing a stored asset held is left behind: after any import, a blob that was referenced
   * before it and is still stored is still referenced. No condition on the backup is needed.
   */
  lemma {:induction false} NoOrphanBlob(assets: seq<Asset>, files: set<string>, bs: seq<Asset>, f: string)
    requires Referenced(assets, f) || Referenced(bs, f)
    requires f in FilesAfter(assets, files, bs)
    ensures Referenced(Restored(assets, bs), f)
  {
    if bs == [] {
      SurvivorsOfNothing(assets);
    } else {
      var n := |bs| - 1;
      assert bs == bs[..n] + [bs[n]];
      var mid := Restored(assets, bs[..n]);
      RestoredSnoc(assets, bs[..n], bs[n]);
      WithoutMembers(mid, bs[n]);
      if Holds(bs[n], f) {
        assert bs[n] in Without(mid, bs[n]) + [bs[n]];
      } else {
        if Referenced(bs, f) {
          var a :| a in bs && Holds(a, f);
          assert a in bs[..n];
        }
        NoOrphanBlob(assets, files, bs[..n], f);
        var o :| o in mid && Holds(o, f);
        ReclaimedHolders(Superseded(mid, bs[n]), bs[n], f);
        assert o in Without(mid, bs[n]) + [bs[n]];
      }
    }
  }

  // ----- no dangling reference ---------------------------------------------------------------

  ghost predicate EveryBlobResolves(assets: seq<Asset>, files: set<string>, bs: seq<Asset>) {
    forall a, f :: a in Restored(assets, bs) && Holds(a, f) && f in files ==> f in FilesAfter(assets, files, bs)
  }

  /** A document that stays after the whole import: it survives, or it is written last. */
  ghost predicate Stays(assets: seq<Asset>, bs: seq<Asset>, a: Asset) {
    || (a in assets && !CollidesAny(a, bs))
    || (exists k :: LastWriterAt(bs, k) && bs[k] == a)
  }

  /**
   * The import keeps every reference resolving if and only if no replacement gives up a stored
   * blob that a document staying in the collection holds.
   */
  lemma {:induction false} ResolvesExactlyWithoutClash(assets: seq<Asset>, files: set<string>, bs: seq<Asset>)
    ensures EveryBlobResolves(assets, files, bs) <==>
            forall a, f, i :: Stays(assets, bs, a) && Holds(a, f) && f in files && 0 <= i < |bs| ==>
              !GivesUp(assets, bs, f, i)
  {
    forall a ensures Stays(assets, bs, a) <==> a in Restored(assets, bs) { RestoredMembers(assets, bs, a); }
    forall f ensures f in FilesAfter(assets, files, bs) <==>
      f in files && forall i :: 0 <= i < |bs| ==> !GivesUp(assets, bs, f, i)
    {
      DeletedExactlyWhenGivenUp(assets, files, bs, f);
    }
  }

  /** No file id is held twice in the store or twice in the backup. */
  ghost predicate NoSharedFile(docs: seq<Asset>) {
    forall i, j :: 0 <= i < j < |docs| && docs[i].body.Some? ==> docs[i].body != docs[j].body
  }

  /** A backup document that names the file of a stored asset is the first one to replace that asset. */
  ghost predicate KeepsFileOnlyByReplacing(assets: seq<Asset>, bs: seq<Asset>) {
    forall o, k :: o in assets && 0 <= k < |bs| && o.body.Some? && o.body == bs[k].body ==>
      Collide(o, bs[k]) && !CollidesAny(o, bs[..k])
  }

  /** Under the file discipline of an export, every reference resolves after the import. */
  lemma {:induction false} DisciplinedImportResolves(assets: seq<Asset>, files: set<string>, bs: seq<Asset>)
    requires NoSharedFile(assets) && NoSharedFile(bs) && KeepsFileOnlyByReplacing(assets, bs)
    ensures EveryBlobResolves(assets, files, bs)
  {
    forall a, f, i | Stays(assets, bs, a) && Holds(a, f) && f in files && 0 <= i < |bs|
      ensures !GivesUp(assets, bs, f, i)
    {
      forall o | ReplacedBy(assets, bs, o, i) && Holds(o, f) ensures bs[i].body == Some(f) {
        ReplacedHolderKeepsFile(assets, bs, a, o, f, i);
      }
    }
    ResolvesExactlyWithoutClash(assets, files, bs);
  }

  lemma {:induction false} ReplacedHolderSource(assets: seq<Asset>, bs: seq<Asset>, o: Asset, i: int)
    requires ReplacedBy(assets, bs, o, i)
    ensures (o in assets && !CollidesAny(o, bs[..i])) || o in bs[..i]
  {
    if !(o in assets && !CollidesAny(o, bs[..i])) {
      var j :| WrittenAt(bs, o, j, i);
      assert bs[..i][j] == o;
    }
  }

  /** When a document that stays holds `f`, whatever replaces another holder of `f` names `f` itself. */
  lemma {:induction false} ReplacedHolderKeepsFile(assets: seq<Asset>, bs: seq<Asset>, a: Asset, o: Asset, f: string,
      i: int)
    requires NoSharedFile(assets) && NoSharedFile(bs) && KeepsFileOnlyByReplacing(assets, bs)
    requires Stays(assets, bs, a) && Holds(a, f) && Holds(o, f) && ReplacedBy(assets, bs, o, i)
    ensures bs[i].body == Some(f)
  {
    ReplacedHolderSource(assets, bs, o, i);
    if a in assets && !CollidesAny(a, bs) {
      StayerFromStore(assets, bs, a, o, f, i);
    } else {
      var k :| LastWriterAt(bs, k) && bs[k] == a;
      StayerFromBackup(assets, bs, k, o, f, i);
    }
  }

  /** The holder of `f` in the store never survives beside another one, and never collides itself. */
  lemma {:induction false} StayerFromStore(assets: seq<Asset>, bs: seq<Asset>, a: Asset, o: Asset, f: string, i: int)
    requires NoSharedFile(assets) && KeepsFileOnlyByReplacing(assets, bs)
    requires a in assets && Holds(a, f) && Holds(o, f) && 0 <= i < |bs|
    requires o in assets || o in bs[..i]
    ensures o == a || CollidesAny(a, bs)
  {
    if o in assets {
      var p :| 0 <= p < |assets| && assets[p] == a;
      var q :| 0 <= q < |assets| && assets[q] == o;
    } else {
      var j :| 0 <= j < i && bs[..i][j] == o;
      assert Collide(a, bs[j]);
    }
  }

  /** When the last document holding `f` is written, nothing but it replaces an earlier holder. */
  lemma {:induction false} StayerFromBackup(assets: seq<Asset>, bs: seq<Asset>, k: int, o: Asset, f: string, i: int)
    requires NoSharedFile(bs) && KeepsFileOnlyByReplacing(assets, bs)
    requires LastWriterAt(bs, k) && Holds(bs[k], f) && Holds(o, f)
    requires 0 <= i < |bs| && Collide(o, bs[i])
    requires (o in assets && !CollidesAny(o, bs[..i])) || o in bs[..i]
    ensures i == k
  {
    if o in bs[..i] {
      SameHolderInBackup(bs, k, o, f, i);
      LaterInTail(bs, k, i);
    } else {
      FirstColliderIsUnique(o, bs, i, k);
    }
  }

  lemma {:induction false} SameHolderInBackup(bs: seq<Asset>, k: int, o: Asset, f: string, i: int)
    requires NoSharedFile(bs) && 0 <= k < |bs| && 0 <= i <= |bs|
    requires Holds(bs[k], f) && Holds(o, f) && o in bs[..i]
    ensures k < i && o == bs[k]
  {
    var j :| 0 <= j < i && bs[..i][j] == o;
  }

  lemma {:induction false} PrefixMembers(bs: seq<Asset>, n: int)
    requires 0 <= n <= |bs|
    ensures forall x :: 0 <= x < n ==> bs[x] in bs[..n]
  {
    assert forall x :: 0 <= x < n ==> bs[..n][x] == bs[x];
  }

  lemma {:induction false} LaterInTail(bs: seq<Asset>, k: int, i: int)
    requires 0 <= k < i < |bs|
    ensures bs[i] in bs[k + 1..]
  {
    assert bs[k + 1..][i - k - 1] == bs[i];
  }

  lemma {:induction false} FirstColliderIsUnique(o: Asset, bs: seq<Asset>, i: int, k: int)
    requires 0 <= i < |bs| && 0 <= k < |bs|
    requires Collide(o, bs[i]) && !CollidesAny(o, bs[..i])
    requires Collide(o, bs[k]) && !CollidesAny(o, bs[..k])
    ensures i == k
  {
    PrefixMembers(bs, k);
    PrefixMembers(bs, i);
  }

  /**
   * It is not enough that a backup document naming a stored file collides with its holder: it has
   * to be the first one that does. Asset `1` held file `x` under code `A`; the backup gives code `A`
   * to asset `9` and code `B`, with file `x`, to asset `1`. The blob is gone before `B` is written.
   */
  lemma {:induction false} LateHolderDangles()
    ensures var assets: seq<Asset> := [Doc("1", "A", Some("x"))];
            var bs := [Doc("9", "A", Some("y")), Doc("1", "B", Some("x"))];
            && NoSharedFile(assets) && NoSharedFile(bs) && !Collide(bs[0], bs[1])
            && Collide(assets[0], bs[1])
            && !EveryBlobResolves(assets, {"x", "y"}, bs)
  {
    var o := Doc("1", "A", Some("x"));
    var assets: seq<Asset> := [o];
    var bs := [Doc("9", "A", Some("y")), Doc("1", "B", Some("x"))];
    assert bs[..0] == [];
    SurvivorsOfNothing(assets);
    assert ReplacedBy(assets, bs, o, 0) && Holds(o, "x");
    assert GivesUp(assets, bs, "x", 0);
    DeletedExactlyWhenGivenUp(assets, {"x", "y"}, bs, "x");
    assert bs[2..] == [];
    assert LastWriterAt(bs, 1);
    RestoredMembers(assets, bs, bs[1]);
    assert bs[1] in Restored(assets, bs) && Holds(bs[1], "x");
  }

  // ----- the import --------------------------------------------------------------------------

  class AudioStore {
    var assets: seq<Asset>
    var files: set<string>

    ghost predicate Valid()
      reads this
    {
      UniqueKeys(assets)
    }

    constructor (files: set<string>)
      ensures Valid() && assets == [] && this.files == files
    {
      assets := [];
      this.files := files;
    }

    /** Deletes the blob of every superseded asset that named another file. */
    method Reclaim(superseded: seq<Asset>, d: Asset) returns (replacedFiles: nat)
      modifies this`files
      ensures files == old(files) - Reclaimed(superseded, d)
    {
      replacedFiles := 0;
      for k := 0 to |superseded|
        invariant files == old(files) - Reclaimed(superseded[..k], d)
      {
        var o := superseded[k];
        assert superseded[..k + 1] == superseded[..k] + [o];
        if o.body.None? || o.body == d.body { continue; }
        if o.body.value in files {
          replacedFiles := replacedFiles + 1;
        }
        files := files - {o.body.value};
      }
      assert superseded[..|superseded|] == superseded;
    }

    method ImportAll(backup: seq<BackupDoc<FileRef>>, minted: seq<string>)
      requires Valid() && Fresh(minted, assets, backup)
      modifies this
      ensures Valid()
      ensures assets == Restored(old(assets), Written(backup, minted))
      ensures files == FilesAfter(old(assets), old(files), Written(backup, minted))
    {
      SurvivorsOfNothing(assets);
      for i := 0 to |backup|
        invariant Valid()
        invariant assets == Restored(old(assets), Written(backup[..i], minted[..i]))
        invariant files == FilesAfter(old(assets), old(files), Written(backup[..i], minted[..i]))
      {
        ghost var before := assets;
        ghost var bs := Written(backup[..i], minted[..i]);
        assert backup[..i + 1][..i] == backup[..i] && minted[..i + 1][..i] == minted[..i];
        assert Written(backup[..i + 1], minted[..i + 1]) == bs + WrittenOne(backup[i], minted[i]);
        var data := backup[i];
        if data.code == "" {
          assert bs + [] == bs;
          continue;
        }
        var d := Doc(if data.id.Some? then data.id.value else minted[i], data.code, data.body);
        MintedIsNew(old(assets), backup, minted, i);
        var superseded := if data.id.Some? then Superseded(assets, d) else SupersededByCode(assets, d);
        TwoDeletesRemoveCollisions(assets, d);
        assets := DeleteOneByCode(assets, data.code);
        if data.id.Some? {
          assets := DeleteOneById(assets, data.id.value);
        } else {
          DeleteOneByCodeSubset(before, data.code);
          DeletesWithoutMatch(assets, "", d.id);
        }
        WithoutKeepsUnique(before, d);
        assets := assets + [d];
        var replaced := Reclaim(superseded, d);
        RestoredSnoc(old(assets), bs, d);
        FilesAfterSnoc(old(assets), old(files), bs, d);
      }
      assert backup[..|backup|] == backup && minted[..|backup|] == minted;
    }
  }

  /** The `find` of a backup document without an `_id`: by key alone. */
  function SupersededByCode(assets: seq<Asset>, d: Asset): (r: seq<Asset>)
    ensures (forall a :: a in assets ==> a.id != d.id) ==> r == Superseded(assets, d)
  {
    if assets == [] then []
    else if assets[0].code == d.code then [assets[0]] + SupersededByCode(assets[1..], d)
    else SupersededByCode(assets[1..], d)
  }
}
