/** What one file tree changed against another, by relative path. */
module TreeChanges {

  /** A tree of files: the paths in the order they are listed, and the bytes of each. */
  datatype Files = Files(names: seq<string>, bytes: map<string, string>)

  ghost predicate Distinct(names: seq<string>) {
    forall i, j :: 0 <= i < j < |names| ==> names[i] != names[j]
  }

  /** A listing names every file once. */
  ghost predicate Listed(t: Files) {
    Distinct(t.names) && forall p :: p in t.bytes <==> p in t.names
  }

  datatype Changes = Changes(created: seq<string>, modified: seq<string>, removed: seq<string>, same: nat)

  /** The paths of a list that pass, in order. */
  function Filter(names: seq<string>, pass: string -> bool): seq<string> {
    if names == [] then []
    else
      var n := |names| - 1;
      Filter(names[..n], pass) + if pass(names[n]) then [names[n]] else []
  }

  function Missing(from: Files): string -> bool {
    p => p !in from.bytes
  }

  function Differs(from: Files, to: Files): string -> bool {
    p => p in from.bytes && p in to.bytes && from.bytes[p] != to.bytes[p]
  }

  function Same(from: Files, to: Files): string -> bool {
    p => p in from.bytes && p in to.bytes && from.bytes[p] == to.bytes[p]
  }

  /** The changes as three selections and a count. */
  function Diff(from: Files, to: Files): Changes {
    Changes(Filter(to.names, Missing(from)), Filter(to.names, Differs(from, to)), Filter(from.names, Missing(to)),
            |Filter(to.names, Same(from, to))|)
  }

  lemma {:induction false} FilterSelects(names: seq<string>, pass: string -> bool, p: string)
    ensures p in Filter(names, pass) <==> p in names && pass(p)
  {
    if names != [] {
      var n := |names| - 1;
      FilterSelects(names[..n], pass, p);
      assert names == names[..n] + [names[n]];
    }
  }

  lemma {:induction false} FilterIsDistinct(names: seq<string>, pass: string -> bool)
    requires Distinct(names)
    ensures Distinct(Filter(names, pass))
  {
    if names != [] {
      var n := |names| - 1;
      FilterIsDistinct(names[..n], pass);
      FilterSelects(names[..n], pass, names[n]);
    }
  }

  lemma {:induction false} DistinctCount(names: seq<string>)
    requires Distinct(names)
    ensures |names| == |set p | p in names|
  {
    if names != [] {
      var n := |names| - 1;
      DistinctCount(names[..n]);
      assert (set p | p in names) == (set p | p in names[..n]) + {names[n]};
    }
  }

  lemma {:induction false} FilterNext(names: seq<string>, k: nat, pass: string -> bool)
    requires k < |names|
    ensures Filter(names[..k + 1], pass) == Filter(names[..k], pass) + if pass(names[k]) then [names[k]] else []
  {
    assert names[..k + 1][..k] == names[..k];
  }

  lemma {:induction false} PrefixNext(names: seq<string>, k: nat)
    requires k < |names|
    ensures forall p :: p in names[..k + 1] <==> p in names[..k] || p == names[k]
  {
    assert names[..k + 1] == names[..k] + [names[k]];
  }

  /** The changes found in the first target files. */
  function Compared(from: Files, to: Files, k: nat): Changes
    requires k <= |to.names|
  {
    Changes(Filter(to.names[..k], Missing(from)), Filter(to.names[..k], Differs(from, to)), [],
            |Filter(to.names[..k], Same(from, to))|)
  }

  lemma {:induction false} ComparedNext(from: Files, to: Files, k: nat)
    requires Listed(from) && Listed(to) && k < |to.names|
    ensures var c, p := Compared(from, to, k), to.names[k];
      Compared(from, to, k + 1)
        == if p !in from.bytes then c.(created := c.created + [p])
           else if from.bytes[p] == to.bytes[p] then c.(same := c.same + 1)
           else c.(modified := c.modified + [p])
  {
    FilterNext(to.names, k, Missing(from));
    FilterNext(to.names, k, Differs(from, to));
    FilterNext(to.names, k, Same(from, to));
    assert to.names[k] in to.bytes;
  }

  // ----- the loop ----------------------------------------------------------------------------

  /** Strikes every target file off the source's listing; what is left at the end is gone. */
  method Compare(from: Files, to: Files) returns (changes: Changes)
    requires Listed(from) && Listed(to)
    ensures changes == Diff(from, to)
  {
    var before := set p | p in from.names;
    var created, modified: seq<string>, same: nat := [], [], 0;
    for k := 0 to |to.names|
      invariant forall p :: p in before <==> p in from.names && p !in to.names[..k]
      invariant Changes(created, modified, [], same) == Compared(from, to, k)
    {
      var file := to.names[k];
      PrefixNext(to.names, k);
      ComparedNext(from, to, k);
      assert file in to.names && file !in to.names[..k];
      if file !in before {
        created := created + [file];
      } else {
        before := before - {file};
        if from.bytes[file] == to.bytes[file] { same := same + 1; } else { modified := modified + [file]; }
      }
    }
    assert to.names[..|to.names|] == to.names;
    var removed: seq<string> := [];
    for k := 0 to |from.names|
      invariant removed == Filter(from.names[..k], Missing(to))
    {
      FilterNext(from.names, k, Missing(to));
      if from.names[k] in before { removed := removed + [from.names[k]]; }
    }
    assert from.names[..|from.names|] == from.names;
    changes := Changes(created, modified, removed, same);
  }

  // ----- a correct difference ----------------------------------------------------------------

  /** Copies what was created or modified and deletes what was removed. */
  function Patched(from: Files, changes: Changes, to: Files): map<string, string>
    requires forall p :: p in changes.created || p in changes.modified ==> p in to.bytes
  {
    map p | p in from.bytes.Keys + to.bytes.Keys
            && p !in changes.removed
            && (p in from.bytes || p in changes.created || p in changes.modified)
      :: if p in changes.created || p in changes.modified then to.bytes[p] else from.bytes[p]
  }

  /** Applying the difference to the source gives the target. */
  lemma {:induction false} PatchGivesTarget(from: Files, to: Files)
    requires Listed(from) && Listed(to)
    ensures forall p :: p in Diff(from, to).created || p in Diff(from, to).modified ==> p in to.bytes
    ensures Patched(from, Diff(from, to), to) == to.bytes
  {
    forall p
      ensures p in Diff(from, to).created <==> p in to.bytes && p !in from.bytes
      ensures p in Diff(from, to).modified <==> p in to.bytes && Differs(from, to)(p)
      ensures p in Diff(from, to).removed <==> p in from.bytes && p !in to.bytes
    {
      FilterSelects(to.names, Missing(from), p);
      FilterSelects(to.names, Differs(from, to), p);
      FilterSelects(from.names, Missing(to), p);
    }
  }

  lemma {:induction false} EachIsCountedOnce(from: Files, to: Files, names: seq<string>)
    requires forall p :: p in names ==> p in to.bytes
    ensures |names|
         == |Filter(names, Missing(from))| + |Filter(names, Differs(from, to))| + |Filter(names, Same(from, to))|
  {
    if names != [] {
      var n := |names| - 1;
      EachIsCountedOnce(from, to, names[..n]);
      assert names[n] in to.bytes;
    }
  }

  /** Created, modified and unchanged split the target's files: each is counted once, and nothing else is. */
  lemma {:induction false} TargetIsPartitioned(from: Files, to: Files)
    requires Listed(from) && Listed(to)
    ensures var d := Diff(from, to);
            Distinct(d.created + d.modified) && Distinct(d.removed)
            && |d.created| + |d.modified| + d.same == |to.names|
            && |d.removed| + |d.modified| + d.same == |from.names|
  {
    var d := Diff(from, to);
    EachIsCountedOnce(from, to, to.names);
    FilterIsDistinct(to.names, Missing(from));
    FilterIsDistinct(to.names, Differs(from, to));
    FilterIsDistinct(from.names, Missing(to));
    forall i, j | 0 <= i < |d.created| && 0 <= j < |d.modified| ensures d.created[i] != d.modified[j] {
      FilterSelects(to.names, Missing(from), d.created[i]);
      FilterSelects(to.names, Differs(from, to), d.modified[j]);
    }
    SwapMirrors(from, to);
    EachIsCountedOnce(to, from, from.names);
  }

  lemma {:induction false} SameSelection(a: seq<string>, b: seq<string>, f: string -> bool, g: string -> bool)
    requires Distinct(a) && Distinct(b)
    requires forall p :: (p in a && f(p)) <==> (p in b && g(p))
    ensures (set p | p in Filter(a, f)) == (set p | p in Filter(b, g))
    ensures |Filter(a, f)| == |Filter(b, g)|
  {
    forall p ensures p in Filter(a, f) <==> p in Filter(b, g) {
      FilterSelects(a, f, p);
      FilterSelects(b, g, p);
    }
    FilterIsDistinct(a, f);
    FilterIsDistinct(b, g);
    DistinctCount(Filter(a, f));
    DistinctCount(Filter(b, g));
    assert (set p | p in Filter(a, f)) == (set p | p in Filter(b, g));
  }

  /** Comparing the other way round swaps created with removed and keeps the rest. */
  lemma {:induction false} SwapMirrors(from: Files, to: Files)
    requires Listed(from) && Listed(to)
    ensures Diff(to, from).created == Diff(from, to).removed && Diff(to, from).removed == Diff(from, to).created
    ensures (set p | p in Diff(to, from).modified) == (set p | p in Diff(from, to).modified)
    ensures |Diff(to, from).modified| == |Diff(from, to).modified|
    ensures Diff(to, from).same == Diff(from, to).same
  {
    SameSelection(from.names, to.names, Differs(to, from), Differs(from, to));
    SameSelection(from.names, to.names, Same(to, from), Same(from, to));
  }

  /** Nothing is reported exactly when the trees hold the same files. */
  lemma {:induction false} NoChangeExactlyWhenEqual(from: Files, to: Files)
    requires Listed(from) && Listed(to)
    ensures Diff(from, to).created == [] && Diff(from, to).modified == [] && Diff(from, to).removed == []
       <==> from.bytes == to.bytes
  {
    var d := Diff(from, to);
    PatchGivesTarget(from, to);
    if d.created == [] && d.modified == [] && d.removed == [] {
      assert Patched(from, d, to) == from.bytes;
    } else {
      var p := if d.created != [] then d.created[0] else if d.modified != [] then d.modified[0] else d.removed[0];
      FilterSelects(to.names, Missing(from), p);
      FilterSelects(to.names, Differs(from, to), p);
      FilterSelects(from.names, Missing(to), p);
      assert p in d.created || p in d.modified || p in d.removed;
    }
  }
}
