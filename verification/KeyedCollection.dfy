/**
 * A collection whose documents are unique by `_id` and by one business key, and the
 * "delete by key, delete by `_id`, create" restore loop every import runs over it.
 */
module KeyedCollection {
  import opened Wrappers

  /** A stored document: `_id`, business key (code, mapCode, triggerItemId) and the rest. */
  datatype Doc<T> = Doc(id: string, code: string, body: T)

  /** A document read from a backup file. `_id` may be missing; a missing key is the empty string. */
  datatype BackupDoc<T> = BackupDoc(id: Option<string>, code: string, body: T)

  /** Two documents that cannot be stored side by side. */
  predicate Collide<T>(a: Doc<T>, b: Doc<T>) {
    a.id == b.id || a.code == b.code
  }

  /** Both unique indexes hold. */
  ghost predicate UniqueKeys<T>(docs: seq<Doc<T>>) {
    forall i, j :: 0 <= i < j < |docs| ==> !Collide(docs[i], docs[j])
  }

  ghost predicate CollidesAny<T(!new)>(d: Doc<T>, bs: seq<Doc<T>>) {
    exists b :: b in bs && Collide(d, b)
  }

  // ----- what one database call does ---------------------------------------------------------

  /** `deleteOne({ code })`: the first match in natural order goes, nothing when there is none. */
  function DeleteOneByCode<T>(docs: seq<Doc<T>>, code: string): seq<Doc<T>> {
    if docs == [] then []
    else if docs[0].code == code then docs[1..]
    else [docs[0]] + DeleteOneByCode(docs[1..], code)
  }

  /** `deleteOne({ _id })`. */
  function DeleteOneById<T>(docs: seq<Doc<T>>, id: string): seq<Doc<T>> {
    if docs == [] then []
    else if docs[0].id == id then docs[1..]
    else [docs[0]] + DeleteOneById(docs[1..], id)
  }

  // ----- the specification of the loop -------------------------------------------------------

  /** The documents that stay clear of `b`. */
  ghost function Without<T(!new)>(docs: seq<Doc<T>>, b: Doc<T>): seq<Doc<T>> {
    if docs == [] then []
    else if Collide(docs[0], b) then Without(docs[1..], b)
    else [docs[0]] + Without(docs[1..], b)
  }

  /** The documents that collide with no backup document. */
  ghost function Survivors<T(!new)>(docs: seq<Doc<T>>, bs: seq<Doc<T>>): seq<Doc<T>> {
    if docs == [] then []
    else if CollidesAny(docs[0], bs) then Survivors(docs[1..], bs)
    else [docs[0]] + Survivors(docs[1..], bs)
  }

  /** The backup documents no later one collides with. */
  ghost function LastWriters<T(!new)>(bs: seq<Doc<T>>): seq<Doc<T>> {
    if bs == [] then []
    else if CollidesAny(bs[0], bs[1..]) then LastWriters(bs[1..])
    else [bs[0]] + LastWriters(bs[1..])
  }

  /** What a restore of `bs` over `docs` leaves. */
  ghost function Restored<T(!new)>(docs: seq<Doc<T>>, bs: seq<Doc<T>>): seq<Doc<T>> {
    Survivors(docs, bs) + LastWriters(bs)
  }

  /** The documents a backup writes: no entry without a key, and a minted `_id` where it has none. */
  function Written<T>(backup: seq<BackupDoc<T>>, minted: seq<string>): seq<Doc<T>>
    requires |minted| == |backup|
  {
    if backup == [] then []
    else
      var n := |backup| - 1;
      Written(backup[..n], minted[..n]) + WrittenOne(backup[n], minted[n])
  }

  function WrittenOne<T>(b: BackupDoc<T>, minted: string): seq<Doc<T>> {
    if b.code == "" then [] else [Doc(if b.id.Some? then b.id.value else minted, b.code, b.body)]
  }

  /** The ids the driver mints are new: to the store, to the backup and to each other. */
  ghost predicate Fresh<T(!new)>(minted: seq<string>, docs: seq<Doc<T>>, backup: seq<BackupDoc<T>>) {
    && |minted| == |backup|
    && (forall i, j :: 0 <= i < j < |minted| ==> minted[i] != minted[j])
    && (forall i, d :: 0 <= i < |minted| && d in docs ==> minted[i] != d.id)
    && (forall i, b :: 0 <= i < |minted| && b in backup ==> b.id != Some(minted[i]))
  }

  // ----- lemmas about one step ---------------------------------------------------------------

  lemma {:induction false} DeletesWithoutMatch<T(!new)>(docs: seq<Doc<T>>, code: string, id: string)
    ensures (forall d :: d in docs ==> d.code != code) ==> DeleteOneByCode(docs, code) == docs
    ensures (forall d :: d in docs ==> d.id != id) ==> DeleteOneById(docs, id) == docs
  {
    if docs != [] {
      DeletesWithoutMatch(docs[1..], code, id);
      assert docs == [docs[0]] + docs[1..];
    }
  }

  lemma {:induction false} WithoutNothing<T(!new)>(docs: seq<Doc<T>>, b: Doc<T>)
    requires forall d :: d in docs ==> !Collide(d, b)
    ensures Without(docs, b) == docs
  {
    if docs != [] {
      WithoutNothing(docs[1..], b);
      assert docs == [docs[0]] + docs[1..];
    }
  }

  /** On unique keys, the two first-match deletes take out exactly what collides with the document. */
  lemma {:induction false} TwoDeletesRemoveCollisions<T(!new)>(docs: seq<Doc<T>>, b: Doc<T>)
    requires UniqueKeys(docs)
    ensures DeleteOneById(DeleteOneByCode(docs, b.code), b.id) == Without(docs, b)
  {
    if docs != [] {
      var d, rest := docs[0], docs[1..];
      assert forall x :: x in rest ==> !Collide(d, x) by {
        forall x | x in rest ensures !Collide(d, x) {
          var k :| 0 <= k < |rest| && rest[k] == x;
          assert docs[k + 1] == x;
        }
      }
      TwoDeletesRemoveCollisions(rest, b);
      DeletesWithoutMatch(rest, b.code, b.id);
      if d.code == b.code {
        if d.id == b.id { WithoutNothing(rest, b); }
      } else if d.id == b.id {
        assert DeleteOneByCode(docs, b.code) == [d] + DeleteOneByCode(rest, b.code);
        DeletesWithoutMatch(DeleteOneByCode(rest, b.code), b.code, b.id);
        DeleteOneByCodeSubset(rest, b.code);
      }
    }
  }

  lemma {:induction false} DeleteOneByCodeSubset<T(!new)>(docs: seq<Doc<T>>, code: string)
    ensures forall d :: d in DeleteOneByCode(docs, code) ==> d in docs
  {
    if docs != [] { DeleteOneByCodeSubset(docs[1..], code); }
  }

  lemma {:induction false} WithoutMembers<T(!new)>(docs: seq<Doc<T>>, b: Doc<T>)
    ensures forall d :: d in Without(docs, b) <==> d in docs && !Collide(d, b)
  {
    if docs != [] { WithoutMembers(docs[1..], b); }
  }

  lemma {:induction false} WithoutCons<T(!new)>(d: Doc<T>, rest: seq<Doc<T>>, b: Doc<T>)
    ensures Without([d] + rest, b) == if Collide(d, b) then Without(rest, b) else [d] + Without(rest, b)
  {
    assert ([d] + rest)[1..] == rest;
  }

  lemma {:induction false} WithoutAppend<T(!new)>(a: seq<Doc<T>>, c: seq<Doc<T>>, b: Doc<T>)
    ensures Without(a + c, b) == Without(a, b) + Without(c, b)
  {
    if a == [] {
      assert a + c == c;
    } else {
      WithoutAppend(a[1..], c, b);
      assert (a + c)[0] == a[0] && (a + c)[1..] == a[1..] + c;
    }
  }

  lemma {:induction false} WithoutKeepsUnique<T(!new)>(docs: seq<Doc<T>>, b: Doc<T>)
    requires UniqueKeys(docs)
    ensures UniqueKeys(Without(docs, b)) && UniqueKeys(Without(docs, b) + [b])
  {
    WithoutMembers(docs, b);
    if docs != [] {
      assert UniqueKeys(docs[1..]);
      WithoutKeepsUnique(docs[1..], b);
      WithoutMembers(docs[1..], b);
      var w, tail := Without(docs, b), Without(docs[1..], b);
      if !Collide(docs[0], b) {
        assert w == [docs[0]] + tail;
        forall j | 0 < j < |w| ensures !Collide(w[0], w[j]) {
          assert w[j] == tail[j - 1] && tail[j - 1] in docs[1..];
          var k :| 0 <= k < |docs[1..]| && docs[1..][k] == w[j];
          assert docs[k + 1] == w[j];
        }
      }
    }
  }

  // ----- lemmas about the whole loop ---------------------------------------------------------

  lemma {:induction false} CollidesAnySnoc<T(!new)>(d: Doc<T>, bs: seq<Doc<T>>, b: Doc<T>)
    ensures CollidesAny(d, bs + [b]) <==> CollidesAny(d, bs) || Collide(d, b)
  {
    if CollidesAny(d, bs) {
      var x :| x in bs && Collide(d, x);
      assert x in bs + [b];
    }
    if Collide(d, b) { assert b in bs + [b]; }
  }

  lemma {:induction false} SurvivorsSnoc<T(!new)>(docs: seq<Doc<T>>, bs: seq<Doc<T>>, b: Doc<T>)
    ensures Survivors(docs, bs + [b]) == Without(Survivors(docs, bs), b)
  {
    if docs != [] {
      SurvivorsSnoc(docs[1..], bs, b);
      CollidesAnySnoc(docs[0], bs, b);
      if !CollidesAny(docs[0], bs) {
        WithoutCons(docs[0], Survivors(docs[1..], bs), b);
      }
    }
  }

  lemma {:induction false} LastWritersSnoc<T(!new)>(bs: seq<Doc<T>>, b: Doc<T>)
    ensures LastWriters(bs + [b]) == Without(LastWriters(bs), b) + [b]
  {
    if bs == [] {
      assert bs + [b] == [b];
      assert LastWriters([b]) == [b];
    } else {
      assert (bs + [b])[1..] == bs[1..] + [b];
      LastWritersSnoc(bs[1..], b);
      CollidesAnySnoc(bs[0], bs[1..], b);
      if !CollidesAny(bs[0], bs[1..]) {
        WithoutCons(bs[0], LastWriters(bs[1..]), b);
      }
    }
  }

  /** One more backup document: what it collides with goes, and it is appended. */
  lemma {:induction false} RestoredSnoc<T(!new)>(docs: seq<Doc<T>>, bs: seq<Doc<T>>, b: Doc<T>)
    ensures Restored(docs, bs + [b]) == Without(Restored(docs, bs), b) + [b]
  {
    SurvivorsSnoc(docs, bs, b);
    LastWritersSnoc(bs, b);
    WithoutAppend(Survivors(docs, bs), LastWriters(bs), b);
  }

  lemma {:induction false} SurvivorsOfNothing<T(!new)>(docs: seq<Doc<T>>)
    ensures Survivors(docs, []) == docs
  {
    if docs != [] {
      SurvivorsOfNothing(docs[1..]);
      assert docs == [docs[0]] + docs[1..];
    }
  }

  /** Both keys stay unique whatever the backup holds, duplicates included. */
  lemma {:induction false} RestoreKeepsUnique<T(!new)>(docs: seq<Doc<T>>, bs: seq<Doc<T>>)
    requires UniqueKeys(docs)
    ensures UniqueKeys(Restored(docs, bs))
  {
    if bs == [] {
      SurvivorsOfNothing(docs);
    } else {
      var n := |bs| - 1;
      RestoreKeepsUnique(docs, bs[..n]);
      assert bs == bs[..n] + [bs[n]];
      RestoredSnoc(docs, bs[..n], bs[n]);
      WithoutKeepsUnique(Restored(docs, bs[..n]), bs[n]);
    }
  }

  ghost predicate LastWriterAt<T(!new)>(bs: seq<Doc<T>>, i: int) {
    0 <= i < |bs| && !CollidesAny(bs[i], bs[i + 1..])
  }

  lemma {:induction false} LastWritersMembers<T(!new)>(bs: seq<Doc<T>>, d: Doc<T>)
    ensures d in LastWriters(bs) <==> exists i :: LastWriterAt(bs, i) && bs[i] == d
  {
    if bs != [] {
      LastWritersMembers(bs[1..], d);
      assert bs[0 + 1..] == bs[1..];
      if LastWriterAt(bs, 0) && bs[0] == d { }
      forall i | LastWriterAt(bs[1..], i) && bs[1..][i] == d ensures LastWriterAt(bs, i + 1) && bs[i + 1] == d {
        assert bs[1..][i + 1..] == bs[i + 1 + 1..];
      }
      forall i | 0 < i && LastWriterAt(bs, i) && bs[i] == d
        ensures LastWriterAt(bs[1..], i - 1) && bs[1..][i - 1] == d
      {
        assert bs[1..][i - 1 + 1..] == bs[i + 1..];
      }
    }
  }

  /**
   * The result of a restore, document by document: a document is stored afterwards exactly when it
   * was stored and collides with no backup document, or the backup holds it and no later backup
   * document has its key or its `_id`.
   */
  lemma {:induction false} RestoredMembers<T(!new)>(docs: seq<Doc<T>>, bs: seq<Doc<T>>, d: Doc<T>)
    ensures d in Restored(docs, bs) <==>
            || (d in docs && !CollidesAny(d, bs))
            || (exists i :: LastWriterAt(bs, i) && bs[i] == d)
  {
    SurvivorsMembers(docs, bs);
    LastWritersMembers(bs, d);
  }

  lemma {:induction false} NoSurvivor<T(!new)>(docs: seq<Doc<T>>, bs: seq<Doc<T>>)
    requires forall d :: d in docs ==> d in bs
    ensures Survivors(docs, bs) == []
  {
    if docs != [] {
      NoSurvivor(docs[1..], bs);
      assert docs[0] in bs && Collide(docs[0], docs[0]);
    }
  }

  lemma {:induction false} SurvivorsMembers<T(!new)>(docs: seq<Doc<T>>, bs: seq<Doc<T>>)
    ensures forall d :: d in Survivors(docs, bs) <==> d in docs && !CollidesAny(d, bs)
  {
    if docs != [] { SurvivorsMembers(docs[1..], bs); }
  }

  lemma {:induction false} SurvivorsAppend<T(!new)>(a: seq<Doc<T>>, c: seq<Doc<T>>, bs: seq<Doc<T>>)
    ensures Survivors(a + c, bs) == Survivors(a, bs) + Survivors(c, bs)
  {
    if a == [] {
      assert a + c == c;
    } else {
      SurvivorsAppend(a[1..], c, bs);
      assert (a + c)[0] == a[0] && (a + c)[1..] == a[1..] + c;
      var x, y := Survivors(a[1..], bs), Survivors(c, bs);
      if CollidesAny(a[0], bs) {
        assert Survivors(a + c, bs) == x + y;
      } else {
        assert Survivors(a + c, bs) == [a[0]] + (x + y) == ([a[0]] + x) + y;
      }
    }
  }

  lemma {:induction false} SurvivorsTwice<T(!new)>(docs: seq<Doc<T>>, bs: seq<Doc<T>>)
    ensures Survivors(Survivors(docs, bs), bs) == Survivors(docs, bs)
  {
    if docs != [] {
      SurvivorsTwice(docs[1..], bs);
      if !CollidesAny(docs[0], bs) {
        assert Survivors(docs, bs) == [docs[0]] + Survivors(docs[1..], bs);
        assert Survivors(docs, bs)[1..] == Survivors(docs[1..], bs);
      }
    }
  }

  /** A second restore of the same documents changes nothing, not even their order. */
  lemma {:induction false} RestoreIdempotent<T(!new)>(docs: seq<Doc<T>>, bs: seq<Doc<T>>)
    ensures Restored(Restored(docs, bs), bs) == Restored(docs, bs)
  {
    SurvivorsAppend(Survivors(docs, bs), LastWriters(bs), bs);
    SurvivorsTwice(docs, bs);
    forall d | d in LastWriters(bs) ensures d in bs { LastWritersMembers(bs, d); }
    NoSurvivor(LastWriters(bs), bs);
  }

  lemma {:induction false} SameParts<X>(a: seq<X>, b: seq<X>, c: seq<X>, d: seq<X>)
    requires |a| == |c|
    ensures a + b == c + d <==> a == c && b == d
  {
    assert a == (a + b)[..|a|] && c == (c + d)[..|a|];
    assert b == (a + b)[|a|..] && d == (c + d)[|a|..];
  }

  lemma {:induction false} OneIgnoresMinted<T>(b: BackupDoc<T>, m1: string, m2: string)
    requires m1 != m2
    ensures WrittenOne(b, m1) == WrittenOne(b, m2) <==> b.code == "" || b.id.Some?
  {
    if b.code != "" { assert WrittenOne(b, m1)[0].id == WrittenOne(b, m2)[0].id <==> b.id.Some?; }
  }

  /**
   * A backup whose documents all carry an `_id` writes the same documents at every import; one that
   * lacks an `_id` does not, so an import of it is repeatable exactly when nothing is minted.
   */
  lemma {:induction false} WrittenIgnoresMinted<T>(backup: seq<BackupDoc<T>>, m1: seq<string>, m2: seq<string>)
    requires |m1| == |m2| == |backup|
    requires forall i :: 0 <= i < |backup| ==> m1[i] != m2[i]
    ensures Written(backup, m1) == Written(backup, m2)
       <==> forall b :: b in backup && b.code != "" ==> b.id.Some?
  {
    WrittenLengths(backup, m1, m2);
    if backup != [] {
      var n := |backup| - 1;
      WrittenIgnoresMinted(backup[..n], m1[..n], m2[..n]);
      WrittenLengths(backup[..n], m1[..n], m2[..n]);
      assert backup == backup[..n] + [backup[n]];
      var w1, w2 := Written(backup[..n], m1[..n]), Written(backup[..n], m2[..n]);
      SameParts(w1, WrittenOne(backup[n], m1[n]), w2, WrittenOne(backup[n], m2[n]));
      OneIgnoresMinted(backup[n], m1[n], m2[n]);
    }
  }

  lemma {:induction false} WrittenLengths<T>(backup: seq<BackupDoc<T>>, m1: seq<string>, m2: seq<string>)
    requires |m1| == |m2| == |backup|
    ensures |Written(backup, m1)| == |Written(backup, m2)|
  {
    if backup != [] {
      var n := |backup| - 1;
      WrittenLengths(backup[..n], m1[..n], m2[..n]);
    }
  }

  lemma {:induction false} WrittenIds<T>(backup: seq<BackupDoc<T>>, minted: seq<string>, d: Doc<T>)
    requires |minted| == |backup|
    requires d in Written(backup, minted)
    ensures d.id in minted || exists b :: b in backup && b.id == Some(d.id)
  {
    var n := |backup| - 1;
    if d in Written(backup[..n], minted[..n]) {
      WrittenIds(backup[..n], minted[..n], d);
      if d.id !in minted[..n] {
        var b :| b in backup[..n] && b.id == Some(d.id);
        assert b in backup;
      }
    } else {
      assert d in WrittenOne(backup[n], minted[n]);
      assert backup[n] in backup && minted[n] in minted;
    }
  }

  // ----- the collection ----------------------------------------------------------------------

  class Collection<T(!new)> {
    var docs: seq<Doc<T>>

    ghost predicate Valid()
      reads this
    {
      UniqueKeys(docs)
    }

    constructor ()
      ensures Valid() && docs == []
    {
      docs := [];
    }

    /** `create`: refused, with nothing written, when either unique index would break. */
    method Create(d: Doc<T>) returns (ok: bool)
      requires Valid()
      modifies this
      ensures Valid()
      ensures ok <==> forall x :: x in old(docs) ==> !Collide(x, d)
      ensures docs == if ok then old(docs) + [d] else old(docs)
    {
      ok := true;
      for i := 0 to |docs|
        invariant ok <==> forall k :: 0 <= k < i ==> !Collide(docs[k], d)
      {
        if docs[i].id == d.id || docs[i].code == d.code { ok := false; }
      }
      if ok { docs := docs + [d]; }
    }

    /**
     * The restore loop of one backup directory: files without a key are skipped, every other one
     * replaces what has its key or its `_id`.
     */
    method ImportAll(backup: seq<BackupDoc<T>>, minted: seq<string>) returns (count: nat)
      requires Valid() && Fresh(minted, docs, backup)
      modifies this
      ensures Valid()
      ensures docs == Restored(old(docs), Written(backup, minted))
      ensures count == |Written(backup, minted)|
    {
      count := 0;
      SurvivorsOfNothing(docs);
      for i := 0 to |backup|
        invariant Valid() && count == |Written(backup[..i], minted[..i])|
        invariant docs == Restored(old(docs), Written(backup[..i], minted[..i]))
      {
        ghost var before := docs;
        ghost var bs := Written(backup[..i], minted[..i]);
        assert backup[..i + 1][..i] == backup[..i] && minted[..i + 1][..i] == minted[..i];
        assert Written(backup[..i + 1], minted[..i + 1]) == bs + WrittenOne(backup[i], minted[i]);
        var data := backup[i];
        if data.code == "" {
          assert bs + [] == bs;
          continue;
        }
        var d := Doc(if data.id.Some? then data.id.value else minted[i], data.code, data.body);
        TwoDeletesRemoveCollisions(docs, d);
        docs := DeleteOneByCode(docs, data.code);
        if data.id.Some? {
          docs := DeleteOneById(docs, data.id.value);
        } else {
          MintedIsNew(old(docs), backup, minted, i);
          DeleteOneByCodeSubset(before, data.code);
          DeletesWithoutMatch(docs, "", d.id);
        }
        WithoutKeepsUnique(before, d);
        WithoutMembers(before, d);
        var ok := Create(d);
        assert ok;
        RestoredSnoc(old(docs), bs, d);
        count := count + 1;
      }
      assert backup[..|backup|] == backup && minted[..|backup|] == minted;
    }
  }

  /** A minted `_id` meets nothing the loop has stored so far. */
  lemma {:induction false} MintedIsNew<T(!new)>(docs: seq<Doc<T>>, backup: seq<BackupDoc<T>>, minted: seq<string>,
      i: nat)
    requires Fresh(minted, docs, backup) && i < |backup|
    ensures forall d :: d in Restored(docs, Written(backup[..i], minted[..i])) ==> d.id != minted[i]
  {
    var bs := Written(backup[..i], minted[..i]);
    forall d | d in Restored(docs, bs) ensures d.id != minted[i] {
      RestoredMembers(docs, bs, d);
      if d !in docs {
        WrittenIds(backup[..i], minted[..i], d);
      }
    }
  }
}
