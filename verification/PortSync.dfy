/**
 * The port allocator of `client --sync-env-port`: one offset per routed path, replica offsets recorded
 * ahead for the deploys they start, and the `PORT` of every environment file.
 */
module PortSync {
  import opened Wrappers

  // ----- confs -------------------------------------------------------------------------------

  /** One routed path of a host. */
  datatype PathConf = PathConf(singleReplica: bool, replicas: Option<seq<string>>, peer: bool)

  /** The paths of a host in key order, and the hosts of a server conf in key order. */
  type HostConf = seq<PathConf>
  type ServerConf = seq<HostConf>

  datatype Deploy = Deploy(id: string, conf: ServerConf)

  /** A path whose replicas run as deploys of their own: its ports are reserved after the others. */
  predicate Deferred(p: PathConf) {
    p.singleReplica && p.replicas.Some?
  }

  function Units(peer: bool): nat {
    if peer then 2 else 1
  }

  /** `buildReplicaId`: the replica path without its first character. */
  function ReplicaId(deployId: string, replica: string): string {
    deployId + "-" + if replica == "" then "" else replica[1..]
  }

  // ----- the reservations of one deploy ------------------------------------------------------

  /** `len` ports from `lo`, for a path of deploy `owner` or, when deferred, for the replica `owner`. */
  datatype Reserved = Reserved(owner: string, deferred: bool, lo: nat, len: nat)

  /** `portOffset`, `singleReplicaPortOffsets`, and the reservations made so far in order. */
  datatype Alloc = Alloc(offset: nat, table: map<string, nat>, reserved: seq<Reserved>)

  function Reserve(a: Alloc, owner: string, deferred: bool, peer: bool): Alloc {
    Alloc(a.offset + Units(peer),
          if deferred then a.table[owner := a.offset] else a.table,
          a.reserved + [Reserved(owner, deferred, a.offset, Units(peer))])
  }

  function ReserveOrdinary(a: Alloc, id: string, paths: HostConf): Alloc {
    if paths == [] then a
    else
      var before := ReserveOrdinary(a, id, paths[..|paths| - 1]);
      var p := paths[|paths| - 1];
      if Deferred(p) then before else Reserve(before, id, false, p.peer)
  }

  function ReserveReplicas(a: Alloc, id: string, replicas: seq<string>, peer: bool): Alloc {
    if replicas == [] then a
    else
      var n := |replicas| - 1;
      Reserve(ReserveReplicas(a, id, replicas[..n], peer), ReplicaId(id, replicas[n]), true, peer)
  }

  function ReserveDeferred(a: Alloc, id: string, paths: HostConf): Alloc {
    if paths == [] then a
    else
      var before := ReserveDeferred(a, id, paths[..|paths| - 1]);
      var p := paths[|paths| - 1];
      if Deferred(p) then ReserveReplicas(before, id, p.replicas.value, p.peer) else before
  }

  function ReserveConf(a: Alloc, id: string, conf: ServerConf): Alloc {
    if conf == [] then a
    else
      var before := ReserveConf(a, id, conf[..|conf| - 1]);
      ReserveDeferred(ReserveOrdinary(before, id, conf[|conf| - 1]), id, conf[|conf| - 1])
  }

  // ----- the whole run -----------------------------------------------------------------------

  datatype Env = Production | Development | Test

  function BasePort(env: Env): nat {
    if env == Production then 3000 else if env == Development then 4000 else 5000
  }

  /** The environment file of a deploy. */
  datatype EnvFile = EnvFile(id: string, env: Env)

  const ENVS := [Production, Development, Test]

  /** One fully processed deploy: the offset its files got, whether it was recorded ahead, and what it reserved. */
  datatype Start = Start(id: string, conf: ServerConf, offset: nat, recorded: bool, made: seq<Reserved>)

  /** What a run decides: it depends on the deploys and on which environment files exist, on nothing they hold. */
  datatype Plan = Plan(alloc: Alloc, writes: map<EnvFile, nat>, starts: seq<Start>)

  const NEW_ALLOC := Alloc(0, map[], [])

  function EffectiveOffset(a: Alloc, id: string): nat {
    if id in a.table then a.table[id] else a.offset
  }

  /** The writes up to the first missing file. */
  function WriteEnvs(writes: map<EnvFile, nat>, id: string, offset: nat, envs: seq<Env>,
      existing: set<EnvFile>): map<EnvFile, nat>
    decreases |envs|
  {
    if envs == [] || EnvFile(id, envs[0]) !in existing then writes
    else WriteEnvs(writes[EnvFile(id, envs[0]) := BasePort(envs[0]) + offset], id, offset, envs[1..], existing)
  }

  predicate AllExist(id: string, existing: set<EnvFile>) {
    forall env :: env in ENVS ==> EnvFile(id, env) in existing
  }

  function PlanDeploy(p: Plan, d: Deploy, existing: set<EnvFile>): Plan {
    var offset := EffectiveOffset(p.alloc, d.id);
    var writes := WriteEnvs(p.writes, d.id, offset, ENVS, existing);
    if !AllExist(d.id, existing) then p.(writes := writes)
    else if d.id in p.alloc.table then
      p.(writes := writes, starts := p.starts + [Start(d.id, d.conf, offset, true, [])])
    else
      var alloc := ReserveConf(p.alloc, d.id, d.conf);
      Plan(alloc, writes, p.starts + [Start(d.id, d.conf, offset, false, MadeBy(p.alloc, alloc))])
  }

  /** The reservations a step added. */
  function MadeBy(before: Alloc, after: Alloc): seq<Reserved> {
    if |before.reserved| <= |after.reserved| then after.reserved[|before.reserved|..] else []
  }

  function PlanAll(deploys: seq<Deploy>, existing: set<EnvFile>): Plan {
    if deploys == [] then Plan(NEW_ALLOC, map[], [])
    else PlanDeploy(PlanAll(deploys[..|deploys| - 1], existing), deploys[|deploys| - 1], existing)
  }

  // ----- tiling ------------------------------------------------------------------------------

  /** The reservations follow each other without gap or overlap from 0 to `n`. */
  predicate Tiles(reserved: seq<Reserved>, n: nat) {
    if reserved == [] then n == 0
    else
      var last := reserved[|reserved| - 1];
      1 <= last.len <= 2 && last.lo + last.len == n && Tiles(reserved[..|reserved| - 1], last.lo)
  }

  /** Every recorded replica offset is the start of a deferred reservation of that replica. */
  ghost predicate Recorded(a: Alloc) {
    forall id :: id in a.table ==> exists r :: r in a.reserved && r.deferred && r.owner == id && r.lo == a.table[id]
  }

  ghost predicate ValidAlloc(a: Alloc) {
    Tiles(a.reserved, a.offset) && Recorded(a)
  }

  /** `b` only adds to what `a` reserved. */
  ghost predicate Extends(b: Alloc, a: Alloc) {
    && |a.reserved| <= |b.reserved| && b.reserved[..|a.reserved|] == a.reserved && a.offset <= b.offset
  }

  lemma {:induction false} ExtendsTransitive(a: Alloc, b: Alloc, c: Alloc)
    requires Extends(b, a) && Extends(c, b)
    ensures Extends(c, a)
  {
    assert c.reserved[..|a.reserved|] == c.reserved[..|b.reserved|][..|a.reserved|];
  }

  lemma {:induction false} ReserveTiles(a: Alloc, owner: string, deferred: bool, peer: bool)
    requires ValidAlloc(a)
    ensures var b := Reserve(a, owner, deferred, peer); ValidAlloc(b) && Extends(b, a)
  {
    var b := Reserve(a, owner, deferred, peer);
    var r := Reserved(owner, deferred, a.offset, Units(peer));
    assert b.reserved[..|b.reserved| - 1] == a.reserved;
    forall id | id in b.table
      ensures exists x :: x in b.reserved && x.deferred && x.owner == id && x.lo == b.table[id]
    {
      if deferred && id == owner {
        assert r in b.reserved;
      } else {
        var x :| x in a.reserved && x.deferred && x.owner == id && x.lo == a.table[id];
        assert x in b.reserved;
      }
    }
  }

  lemma {:induction false} OrdinaryTiles(a: Alloc, id: string, paths: HostConf)
    requires ValidAlloc(a)
    ensures var b := ReserveOrdinary(a, id, paths);
      ValidAlloc(b) && Extends(b, a) && b.offset == a.offset + OrdinaryUnits(paths)
  {
    if paths != [] {
      var n := |paths| - 1;
      OrdinaryTiles(a, id, paths[..n]);
      var before := ReserveOrdinary(a, id, paths[..n]);
      ReserveTiles(before, id, false, paths[n].peer);
      if !Deferred(paths[n]) { ExtendsTransitive(a, before, Reserve(before, id, false, paths[n].peer)); }
    }
  }

  lemma {:induction false} ReplicasTile(a: Alloc, id: string, replicas: seq<string>, peer: bool)
    requires ValidAlloc(a)
    ensures var b := ReserveReplicas(a, id, replicas, peer);
      ValidAlloc(b) && Extends(b, a) && b.offset == a.offset + |replicas| * Units(peer)
  {
    if replicas != [] {
      var n := |replicas| - 1;
      ReplicasTile(a, id, replicas[..n], peer);
      var before := ReserveReplicas(a, id, replicas[..n], peer);
      ReserveTiles(before, ReplicaId(id, replicas[n]), true, peer);
      ExtendsTransitive(a, before, Reserve(before, ReplicaId(id, replicas[n]), true, peer));
    }
  }

  lemma {:induction false} DeferredTile(a: Alloc, id: string, paths: HostConf)
    requires ValidAlloc(a)
    ensures var b := ReserveDeferred(a, id, paths);
      ValidAlloc(b) && Extends(b, a) && b.offset == a.offset + DeferredUnits(paths)
  {
    if paths != [] {
      var n := |paths| - 1;
      DeferredTile(a, id, paths[..n]);
      var before := ReserveDeferred(a, id, paths[..n]);
      if Deferred(paths[n]) {
        ReplicasTile(before, id, paths[n].replicas.value, paths[n].peer);
        ExtendsTransitive(a, before, ReserveReplicas(before, id, paths[n].replicas.value, paths[n].peer));
      }
    }
  }

  /** The ports of the ordinary paths of a host, and of its replica slots: what they need, in any order. */
  function OrdinaryUnits(paths: HostConf): nat {
    if paths == [] then 0
    else
      var p := paths[|paths| - 1];
      OrdinaryUnits(paths[..|paths| - 1]) + if Deferred(p) then 0 else Units(p.peer)
  }

  function DeferredUnits(paths: HostConf): nat {
    if paths == [] then 0
    else
      var p := paths[|paths| - 1];
      DeferredUnits(paths[..|paths| - 1]) + if Deferred(p) then |p.replicas.value| * Units(p.peer) else 0
  }

  function ConfUnits(conf: ServerConf): nat {
    if conf == [] then 0
    else ConfUnits(conf[..|conf| - 1]) + OrdinaryUnits(conf[|conf| - 1]) + DeferredUnits(conf[|conf| - 1])
  }

  lemma {:induction false} ConfTiles(a: Alloc, id: string, conf: ServerConf)
    requires ValidAlloc(a)
    ensures var b := ReserveConf(a, id, conf); ValidAlloc(b) && Extends(b, a) && b.offset == a.offset + ConfUnits(conf)
  {
    if conf != [] {
      var n := |conf| - 1;
      ConfTiles(a, id, conf[..n]);
      var before := ReserveConf(a, id, conf[..n]);
      OrdinaryTiles(before, id, conf[n]);
      var mid := ReserveOrdinary(before, id, conf[n]);
      DeferredTile(mid, id, conf[n]);
      ExtendsTransitive(a, before, mid);
      ExtendsTransitive(a, mid, ReserveDeferred(mid, id, conf[n]));
    }
  }

  /** In a tiling every port offset below the end is in exactly one reservation, and none is beyond it. */
  lemma {:induction false} TilingCoversOnce(reserved: seq<Reserved>, n: nat, u: nat)
    requires Tiles(reserved, n)
    ensures u < n <==> exists k :: 0 <= k < |reserved| && reserved[k].lo <= u < reserved[k].lo + reserved[k].len
    ensures forall i, j :: 0 <= i < j < |reserved| ==> reserved[i].lo + reserved[i].len <= reserved[j].lo
    ensures forall k :: 0 <= k < |reserved| ==> reserved[k].lo + reserved[k].len <= n
  {
    if reserved != [] {
      var m := |reserved| - 1;
      var last := reserved[m];
      TilingCoversOnce(reserved[..m], last.lo, u);
      assert forall k :: 0 <= k < m ==> reserved[..m][k] == reserved[k];
      if u < last.lo {
        var k :| 0 <= k < m && reserved[..m][k].lo <= u < reserved[..m][k].lo + reserved[..m][k].len;
        assert reserved[k].lo <= u < reserved[k].lo + reserved[k].len;
      }
    }
  }

  /** The deploys that reserve: every environment file exists and no earlier conf recorded them. */
  function ReservedUnits(deploys: seq<Deploy>, existing: set<EnvFile>): nat {
    if deploys == [] then 0
    else
      var n := |deploys| - 1;
      var before := PlanAll(deploys[..n], existing);
      ReservedUnits(deploys[..n], existing)
      + if AllExist(deploys[n].id, existing) && deploys[n].id !in before.alloc.table then
          ConfUnits(deploys[n].conf)
        else 0
  }

  // ----- starts ------------------------------------------------------------------------------

  /** The host reserves a port: it has an ordinary path, or a deferred one with a replica. */
  predicate HostReserves(paths: HostConf) {
    exists k :: 0 <= k < |paths| && (Deferred(paths[k]) ==> paths[k].replicas.value != [])
  }

  predicate OnlyDeferred(paths: HostConf) {
    forall k :: 0 <= k < |paths| ==> Deferred(paths[k])
  }

  predicate ConfReserves(conf: ServerConf) {
    exists h :: 0 <= h < |conf| && HostReserves(conf[h])
  }

  /** The first host that reserves anything has only deferred paths, so a replica slot gets the first port. */
  predicate StartsDeferred(conf: ServerConf) {
    exists h :: 0 <= h < |conf| && HostReserves(conf[h]) && OnlyDeferred(conf[h])
             && forall g :: 0 <= g < h ==> !HostReserves(conf[g])
  }

  /** A start that is a port of its own: a recorded replica, or a deploy whose first port is an ordinary path's. */
  predicate OwnsItsStart(s: Start) {
    s.recorded || (ConfReserves(s.conf) && !StartsDeferred(s.conf))
  }

  /** The reservations of a start are those of its conf. */
  ghost predicate MadeAsConf(s: Start) {
    && (s.made != [] <==> ConfReserves(s.conf))
    && (s.made != [] ==> (s.made[0].deferred <==> StartsDeferred(s.conf)))
  }

  lemma {:induction false} OrdinaryFirst(a: Alloc, id: string, paths: HostConf)
    ensures var b := ReserveOrdinary(a, id, paths);
      && |a.reserved| <= |b.reserved| && b.reserved[..|a.reserved|] == a.reserved
      && (OnlyDeferred(paths) ==> b == a)
      && (!OnlyDeferred(paths) ==> |a.reserved| < |b.reserved| && !b.reserved[|a.reserved|].deferred)
  {
    if paths != [] {
      var n := |paths| - 1;
      OrdinaryFirst(a, id, paths[..n]);
      assert forall k :: 0 <= k < n ==> paths[..n][k] == paths[k];
    }
  }

  lemma {:induction false} ReplicasFirst(a: Alloc, id: string, replicas: seq<string>, peer: bool)
    ensures var b := ReserveReplicas(a, id, replicas, peer);
      && |a.reserved| <= |b.reserved| && b.reserved[..|a.reserved|] == a.reserved
      && (replicas == [] ==> b == a)
      && (replicas != [] ==> |a.reserved| < |b.reserved| && b.reserved[|a.reserved|].deferred)
  {
    if replicas != [] { ReplicasFirst(a, id, replicas[..|replicas| - 1], peer); }
  }

  /** Some deferred path of the host has a replica. */
  predicate HasSlot(paths: HostConf) {
    exists k :: 0 <= k < |paths| && Deferred(paths[k]) && paths[k].replicas.value != []
  }

  lemma {:induction false} DeferredFirst(a: Alloc, id: string, paths: HostConf)
    ensures var b := ReserveDeferred(a, id, paths);
      && |a.reserved| <= |b.reserved| && b.reserved[..|a.reserved|] == a.reserved
      && (!HasSlot(paths) ==> b == a)
      && (HasSlot(paths) ==> |a.reserved| < |b.reserved| && b.reserved[|a.reserved|].deferred)
  {
    if paths != [] {
      var n := |paths| - 1;
      DeferredFirst(a, id, paths[..n]);
      assert forall k :: 0 <= k < n ==> paths[..n][k] == paths[k];
      if Deferred(paths[n]) {
        ReplicasFirst(ReserveDeferred(a, id, paths[..n]), id, paths[n].replicas.value, paths[n].peer);
      }
    }
  }

  /** A host reserves ordinary ports before its slots: a slot is first exactly when no path is ordinary. */
  lemma {:induction false} HostFirst(a: Alloc, id: string, paths: HostConf)
    ensures var b := ReserveDeferred(ReserveOrdinary(a, id, paths), id, paths);
      && |a.reserved| <= |b.reserved| && b.reserved[..|a.reserved|] == a.reserved
      && (!HostReserves(paths) ==> b == a)
      && (HostReserves(paths) ==>
            |a.reserved| < |b.reserved| && (b.reserved[|a.reserved|].deferred <==> OnlyDeferred(paths)))
  {
    var mid := ReserveOrdinary(a, id, paths);
    OrdinaryFirst(a, id, paths);
    DeferredFirst(mid, id, paths);
    if !OnlyDeferred(paths) {
      assert HostReserves(paths);
      assert ReserveDeferred(mid, id, paths).reserved[|a.reserved|] == mid.reserved[|a.reserved|];
    }
  }

  lemma {:induction false} ConfFirst(a: Alloc, id: string, conf: ServerConf)
    ensures var b := ReserveConf(a, id, conf);
      && |a.reserved| <= |b.reserved| && b.reserved[..|a.reserved|] == a.reserved
      && (!ConfReserves(conf) ==> b == a)
      && (ConfReserves(conf) ==>
            |a.reserved| < |b.reserved| && (b.reserved[|a.reserved|].deferred <==> StartsDeferred(conf)))
  {
    if conf != [] {
      var n := |conf| - 1;
      ConfFirst(a, id, conf[..n]);
      var before := ReserveConf(a, id, conf[..n]);
      HostFirst(before, id, conf[n]);
      StartsDeferredSnoc(conf);
      if ConfReserves(conf[..n]) {
        assert ReserveConf(a, id, conf).reserved[|a.reserved|] == before.reserved[|a.reserved|];
      }
    }
  }

  lemma {:induction false} StartsDeferredSnoc(conf: ServerConf)
    requires conf != []
    ensures var n := |conf| - 1;
      && (ConfReserves(conf) <==> ConfReserves(conf[..n]) || HostReserves(conf[n]))
      && (StartsDeferred(conf) <==>
            if ConfReserves(conf[..n]) then StartsDeferred(conf[..n])
            else HostReserves(conf[n]) && OnlyDeferred(conf[n]))
  {
    var n := |conf| - 1;
    assert forall h :: 0 <= h < n ==> conf[..n][h] == conf[h];
    if ConfReserves(conf[..n]) {
      var h :| 0 <= h < n && HostReserves(conf[..n][h]);
      assert HostReserves(conf[h]);
    }
  }

  /** Every start names a reservation: a replica's own slot, or the first one the deploy made. */
  ghost predicate Anchored(s: Start, a: Alloc) {
    if s.recorded then exists r :: r in a.reserved && r.deferred && r.owner == s.id && r.lo == s.offset
    else s.made != [] ==> s.made[0] in a.reserved && s.made[0].lo == s.offset
  }

  ghost predicate ValidPlan(p: Plan) {
    && ValidAlloc(p.alloc)
    && (forall s :: s in p.starts ==> Anchored(s, p.alloc) && (!s.recorded ==> MadeAsConf(s)))
    && (forall s :: s in p.starts && !s.recorded && s.made != [] ==> s.offset < p.alloc.offset)
    && (forall i, j ::
           0 <= i < j < |p.starts| && !p.starts[i].recorded && !p.starts[j].recorded && p.starts[i].made != [] ==>
          p.starts[i].offset < p.starts[j].offset)
  }

  lemma {:induction false} AnchoredExtends(s: Start, a: Alloc, b: Alloc)
    requires Anchored(s, a) && Extends(b, a)
    ensures Anchored(s, b)
  {
    assert forall r :: r in a.reserved ==> r in b.reserved by {
      forall r | r in a.reserved ensures r in b.reserved {
        var k :| 0 <= k < |a.reserved| && a.reserved[k] == r;
        assert b.reserved[..|a.reserved|][k] == b.reserved[k];
      }
    }
  }

  /** The first reservation a deploy makes starts at the offset it found. */
  lemma {:induction false} FirstMadeStartsAtOffset(a: Alloc, b: Alloc)
    requires ValidAlloc(a) && ValidAlloc(b) && Extends(b, a)
    ensures MadeBy(a, b) != [] ==>
      MadeBy(a, b)[0] in b.reserved && MadeBy(a, b)[0].lo == a.offset && a.offset < b.offset
  {
    if |a.reserved| < |b.reserved| {
      PrefixTiles(b.reserved, b.offset, |a.reserved|);
      assert MadeBy(a, b)[0] == b.reserved[|a.reserved|];
      TilesTo(a.reserved, a.offset, b.reserved[|a.reserved|].lo);
      TilingCoversOnce(b.reserved, b.offset, a.offset);
    }
  }

  lemma {:induction false} PrefixTiles(reserved: seq<Reserved>, n: nat, k: nat)
    requires Tiles(reserved, n) && k < |reserved|
    ensures Tiles(reserved[..k], reserved[k].lo)
  {
    var m := |reserved| - 1;
    if k < m {
      PrefixTiles(reserved[..m], reserved[m].lo, k);
      assert reserved[..m][..k] == reserved[..k] && reserved[..m][k] == reserved[k];
    }
  }

  lemma {:induction false} TilesTo(reserved: seq<Reserved>, n: nat, m: nat)
    requires Tiles(reserved, n) && Tiles(reserved, m)
    ensures n == m
  {
  }

  /** A start at or past the offset reached so far comes after every earlier one. */
  lemma {:induction false} StartsGrow(p: Plan, last: Start)
    requires ValidPlan(p) && (last.recorded || p.alloc.offset <= last.offset)
    ensures var starts := p.starts + [last];
      forall i, j :: 0 <= i < j < |starts| && !starts[i].recorded && !starts[j].recorded && starts[i].made != [] ==>
        starts[i].offset < starts[j].offset
  {
    forall i | 0 <= i < |p.starts| && !p.starts[i].recorded && p.starts[i].made != []
      ensures p.starts[i].offset < p.alloc.offset
    {
      assert p.starts[i] in p.starts;
    }
  }

  lemma {:induction false} PlanDeployValid(p: Plan, d: Deploy, existing: set<EnvFile>)
    requires ValidPlan(p)
    ensures ValidPlan(PlanDeploy(p, d, existing))
    ensures Extends(PlanDeploy(p, d, existing).alloc, p.alloc)
    ensures PlanDeploy(p, d, existing).alloc.offset
         == p.alloc.offset + if AllExist(d.id, existing) && d.id !in p.alloc.table then ConfUnits(d.conf) else 0
  {
    var q := PlanDeploy(p, d, existing);
    ConfTiles(p.alloc, d.id, d.conf);
    ConfFirst(p.alloc, d.id, d.conf);
    var b := ReserveConf(p.alloc, d.id, d.conf);
    FirstMadeStartsAtOffset(p.alloc, b);
    forall s | s in p.starts ensures Anchored(s, q.alloc) { AnchoredExtends(s, p.alloc, q.alloc); }
    if AllExist(d.id, existing) {
      var last := q.starts[|p.starts|];
      assert q.starts == p.starts + [last];
      assert Anchored(last, q.alloc);
      StartsGrow(p, last);
    }
  }

  /**
   * The allocation of a whole run: the reservations tile the offsets from 0 to the final `portOffset`,
   * which is exactly what the reserving deploys need; skipped deploys and recorded replicas take nothing.
   */
  lemma {:induction false} RunTiles(deploys: seq<Deploy>, existing: set<EnvFile>)
    ensures var p := PlanAll(deploys, existing);
      ValidPlan(p) && p.alloc.offset == ReservedUnits(deploys, existing)
  {
    if deploys != [] {
      var n := |deploys| - 1;
      RunTiles(deploys[..n], existing);
      PlanDeployValid(PlanAll(deploys[..n], existing), deploys[n], existing);
    }
  }

  /**
   * Two deploys that own their start get different offsets: deploys whose first port is an ordinary path's,
   * and recorded replicas of different ids.
   */
  lemma {:induction false} StartsDiffer(deploys: seq<Deploy>, existing: set<EnvFile>, i: nat, j: nat)
    requires var p := PlanAll(deploys, existing);
      && i < j < |p.starts| && OwnsItsStart(p.starts[i]) && OwnsItsStart(p.starts[j])
      && (p.starts[i].recorded && p.starts[j].recorded ==> p.starts[i].id != p.starts[j].id)
    ensures var p := PlanAll(deploys, existing); p.starts[i].offset != p.starts[j].offset
  {
    RunTiles(deploys, existing);
    var p := PlanAll(deploys, existing);
    var a, b := p.starts[i], p.starts[j];
    if a.recorded || b.recorded {
      assert a in p.starts && b in p.starts;
      assert Anchored(a, p.alloc) && Anchored(b, p.alloc);
      var x := AnchorOf(a, p.alloc);
      var y := AnchorOf(b, p.alloc);
      DifferentReservationsStartApart(p.alloc, x, y);
    }
  }

  ghost function AnchorOf(s: Start, a: Alloc): (r: Reserved)
    requires Anchored(s, a) && OwnsItsStart(s) && (!s.recorded ==> MadeAsConf(s))
    ensures r in a.reserved && r.lo == s.offset && r.deferred == s.recorded && (s.recorded ==> r.owner == s.id)
  {
    if s.recorded then
      var r :| r in a.reserved && r.deferred && r.owner == s.id && r.lo == s.offset; r
    else s.made[0]
  }

  lemma {:induction false} DifferentReservationsStartApart(a: Alloc, x: Reserved, y: Reserved)
    requires ValidAlloc(a) && x in a.reserved && y in a.reserved && x != y
    ensures x.lo != y.lo
  {
    TilingCoversOnce(a.reserved, a.offset, 0);
    var i :| 0 <= i < |a.reserved| && a.reserved[i] == x;
    var j :| 0 <= j < |a.reserved| && a.reserved[j] == y;
    LenPositive(a.reserved, a.offset, i);
    LenPositive(a.reserved, a.offset, j);
  }

  lemma {:induction false} LenPositive(reserved: seq<Reserved>, n: nat, k: nat)
    requires Tiles(reserved, n) && k < |reserved|
    ensures 1 <= reserved[k].len
  {
    var m := |reserved| - 1;
    if k < m {
      LenPositive(reserved[..m], reserved[m].lo, k);
      assert reserved[..m][k] == reserved[k];
    }
  }

  /**
   * The exception is exact, and read off the conf: one of the replica slots a deploy opens starts where the deploy
   * does if and only if the first host that reserves anything has only single-replica paths.
   */
  lemma {:induction false} SharesStartExactly(a: Alloc, id: string, conf: ServerConf)
    requires ValidAlloc(a)
    ensures (exists r :: r in MadeBy(a, ReserveConf(a, id, conf)) && r.deferred && r.lo == a.offset) <==>
      StartsDeferred(conf)
  {
    var b := ReserveConf(a, id, conf);
    var made := MadeBy(a, b);
    ConfTiles(a, id, conf);
    ConfFirst(a, id, conf);
    FirstMadeStartsAtOffset(a, b);
    if made != [] { assert made[0] in made && made[0] == b.reserved[|a.reserved|]; }
    if exists r :: r in made && r.deferred && r.lo == a.offset {
      var r :| r in made && r.deferred && r.lo == a.offset;
      var k :| 0 <= k < |made| && made[k] == r;
      assert b.reserved[|a.reserved| + k] == r;
      if r != made[0] { DifferentReservationsStartApart(b, r, made[0]); }
    }
  }

  // ----- who shares a port -------------------------------------------------------------------

  /** The deploys a conf opens slots for, in the order of the slots. */
  function ReplicaIds(id: string, replicas: seq<string>): seq<string> {
    if replicas == [] then []
    else ReplicaIds(id, replicas[..|replicas| - 1]) + [ReplicaId(id, replicas[|replicas| - 1])]
  }

  function HostReplicas(id: string, paths: HostConf): seq<string> {
    if paths == [] then []
    else
      var p := paths[|paths| - 1];
      HostReplicas(id, paths[..|paths| - 1]) + if Deferred(p) then ReplicaIds(id, p.replicas.value) else []
  }

  function ConfReplicas(id: string, conf: ServerConf): seq<string> {
    if conf == [] then [] else ConfReplicas(id, conf[..|conf| - 1]) + HostReplicas(id, conf[|conf| - 1])
  }

  /** The slots some processed deploys open, in order; a recorded replica opens none. */
  function Opened(starts: seq<Start>): seq<string> {
    if starts == [] then []
    else
      var s := starts[|starts| - 1];
      Opened(starts[..|starts| - 1]) + if s.recorded then [] else ConfReplicas(s.id, s.conf)
  }

  /** The owners of the deferred reservations, in order. */
  function Owners(reserved: seq<Reserved>): seq<string> {
    if reserved == [] then []
    else
      var r := reserved[|reserved| - 1];
      Owners(reserved[..|reserved| - 1]) + if r.deferred then [r.owner] else []
  }

  /** The start of the last slot reserved for a deploy. */
  function LastOf(reserved: seq<Reserved>, id: string): Option<nat> {
    if reserved == [] then None
    else
      var r := reserved[|reserved| - 1];
      if r.deferred && r.owner == id then Some(r.lo) else LastOf(reserved[..|reserved| - 1], id)
  }

  /** The side table holds the last slot of each replica. */
  ghost predicate TableIsLast(a: Alloc) {
    forall id :: LastOf(a.reserved, id) == if id in a.table then Some(a.table[id]) else None
  }

  lemma {:induction false} ReserveRecords(a: Alloc, owner: string, deferred: bool, peer: bool)
    requires TableIsLast(a)
    ensures var b := Reserve(a, owner, deferred, peer);
      TableIsLast(b) && Owners(b.reserved) == Owners(a.reserved) + if deferred then [owner] else []
  {
    var b := Reserve(a, owner, deferred, peer);
    assert b.reserved[..|b.reserved| - 1] == a.reserved;
    assert forall id :: LastOf(a.reserved, id) == if id in a.table then Some(a.table[id]) else None;
  }

  lemma {:induction false} OrdinaryRecords(a: Alloc, id: string, paths: HostConf)
    requires TableIsLast(a)
    ensures var b := ReserveOrdinary(a, id, paths); TableIsLast(b) && Owners(b.reserved) == Owners(a.reserved)
  {
    if paths != [] {
      var n := |paths| - 1;
      OrdinaryRecords(a, id, paths[..n]);
      ReserveRecords(ReserveOrdinary(a, id, paths[..n]), id, false, paths[n].peer);
    }
  }

  lemma {:induction false} ReplicasRecord(a: Alloc, id: string, replicas: seq<string>, peer: bool)
    requires TableIsLast(a)
    ensures var b := ReserveReplicas(a, id, replicas, peer);
      TableIsLast(b) && Owners(b.reserved) == Owners(a.reserved) + ReplicaIds(id, replicas)
  {
    if replicas != [] {
      var n := |replicas| - 1;
      ReplicasRecord(a, id, replicas[..n], peer);
      ReserveRecords(ReserveReplicas(a, id, replicas[..n], peer), ReplicaId(id, replicas[n]), true, peer);
    }
  }

  lemma {:induction false} DeferredRecord(a: Alloc, id: string, paths: HostConf)
    requires TableIsLast(a)
    ensures var b := ReserveDeferred(a, id, paths);
      TableIsLast(b) && Owners(b.reserved) == Owners(a.reserved) + HostReplicas(id, paths)
  {
    if paths != [] {
      var n := |paths| - 1;
      DeferredRecord(a, id, paths[..n]);
      if Deferred(paths[n]) {
        ReplicasRecord(ReserveDeferred(a, id, paths[..n]), id, paths[n].replicas.value, paths[n].peer);
      }
    }
  }

  lemma {:induction false} ConfRecords(a: Alloc, id: string, conf: ServerConf)
    requires TableIsLast(a)
    ensures var b := ReserveConf(a, id, conf);
      TableIsLast(b) && Owners(b.reserved) == Owners(a.reserved) + ConfReplicas(id, conf)
  {
    if conf != [] {
      var n := |conf| - 1;
      ConfRecords(a, id, conf[..n]);
      var before := ReserveConf(a, id, conf[..n]);
      OrdinaryRecords(before, id, conf[n]);
      DeferredRecord(ReserveOrdinary(before, id, conf[n]), id, conf[n]);
    }
  }

  lemma {:induction false} RunRecords(deploys: seq<Deploy>, existing: set<EnvFile>)
    ensures TableIsLast(PlanAll(deploys, existing).alloc)
  {
    if deploys != [] {
      var n := |deploys| - 1;
      RunRecords(deploys[..n], existing);
      ConfRecords(PlanAll(deploys[..n], existing).alloc, deploys[n].id, deploys[n].conf);
    }
  }

  lemma {:induction false} OwnersAppend(x: seq<Reserved>, y: seq<Reserved>)
    ensures Owners(x + y) == Owners(x) + Owners(y)
  {
    if y == [] {
      assert x + y == x;
    } else {
      OwnersAppend(x, y[..|y| - 1]);
      assert (x + y)[..|x + y| - 1] == x + y[..|y| - 1];
    }
  }

  lemma {:induction false} LastOfBelow(reserved: seq<Reserved>, n: nat, id: string)
    requires Tiles(reserved, n)
    ensures LastOf(reserved, id).Some? ==> LastOf(reserved, id).value < n
  {
    if reserved != [] { LastOfBelow(reserved[..|reserved| - 1], reserved[|reserved| - 1].lo, id); }
  }

  /** The last slot of a replica is a given reservation exactly when that is one and no later one has its owner. */
  lemma {:induction false} LastOfExactly(reserved: seq<Reserved>, n: nat, k: nat, id: string)
    requires Tiles(reserved, n) && k < |reserved|
    ensures LastOf(reserved, id) == Some(reserved[k].lo)
       <==> reserved[k].deferred && reserved[k].owner == id && id !in Owners(reserved[k + 1..])
  {
    var m := |reserved| - 1;
    LastOfBelow(reserved[..m], reserved[m].lo, id);
    if k == m {
      assert reserved[k + 1..] == [];
    } else {
      LastOfExactly(reserved[..m], reserved[m].lo, k, id);
      assert reserved[..m][k] == reserved[k];
      assert reserved[k + 1..][..|reserved[k + 1..]| - 1] == reserved[..m][k + 1..];
      assert reserved[k + 1..][|reserved[k + 1..]| - 1] == reserved[m];
      TilingCoversOnce(reserved, n, 0);
      LenPositive(reserved, n, k);
    }
  }

  /** What a start reserved begins at its offset and holds the slots of its conf; a recorded replica has nothing. */
  ghost predicate Complete(s: Start) {
    if s.recorded then s.made == []
    else Owners(s.made) == ConfReplicas(s.id, s.conf) && (s.made != [] ==> s.made[0].lo == s.offset)
  }

  /** Where the reservations of a start lie, and what the starts after it opened. */
  ghost predicate PlacedAt(reserved: seq<Reserved>, starts: seq<Start>, i: nat, n: nat)
    requires i < |starts|
  {
    var s := starts[i];
    && n + |s.made| <= |reserved| && reserved[n..n + |s.made|] == s.made
    && Complete(s) && Owners(reserved[n + |s.made|..]) == Opened(starts[i + 1..])
  }

  lemma {:induction false} PlacedNew(reserved: seq<Reserved>, starts: seq<Start>, s: Start)
    requires Complete(s)
    ensures PlacedAt(reserved + s.made, starts + [s], |starts|, |reserved|)
  {
    assert (reserved + s.made)[|reserved| + |s.made|..] == [];
  }

  lemma {:induction false} PlacedKept(reserved: seq<Reserved>, starts: seq<Start>, i: nat, n: nat, s: Start)
    requires i < |starts| && PlacedAt(reserved, starts, i, n) && Complete(s)
    ensures PlacedAt(reserved + s.made, starts + [s], i, n)
  {
    var end, later := n + |starts[i].made|, starts[i + 1..];
    assert (starts + [s])[i + 1..] == later + [s];
    assert (later + [s])[..|later|] == later;
    assert (reserved + s.made)[end..] == reserved[end..] + s.made;
    assert (reserved + s.made)[n..end] == reserved[n..end];
    OwnersAppend(reserved[end..], s.made);
    if s.recorded { assert Opened(later) + [] == Opened(later) && Owners(s.made) == []; }
    assert Opened(later + [s]) == Owners(reserved[end..]) + Owners(s.made);
  }

  lemma {:induction false} SameTail(a: seq<string>, b: seq<string>, c: seq<string>)
    requires a + b == a + c
    ensures b == c
  {
    assert b == (a + b)[|a|..] && c == (a + c)[|a|..];
  }

  lemma {:induction false} MadeIsComplete(a: Alloc, d: Deploy)
    requires ValidAlloc(a) && TableIsLast(a)
    ensures var b := ReserveConf(a, d.id, d.conf);
      && b.reserved == a.reserved + MadeBy(a, b)
      && Complete(Start(d.id, d.conf, a.offset, false, MadeBy(a, b)))
  {
    var b := ReserveConf(a, d.id, d.conf);
    ConfTiles(a, d.id, d.conf);
    ConfRecords(a, d.id, d.conf);
    FirstMadeStartsAtOffset(a, b);
    assert b.reserved == a.reserved + MadeBy(a, b);
    OwnersAppend(a.reserved, MadeBy(a, b));
    SameTail(Owners(a.reserved), Owners(MadeBy(a, b)), ConfReplicas(d.id, d.conf));
  }

  /** One deploy adds its start, complete, and what that reserved; a skipped one adds neither. */
  lemma {:induction false} DeployAdds(p: Plan, d: Deploy, existing: set<EnvFile>)
    requires ValidAlloc(p.alloc) && TableIsLast(p.alloc)
    ensures var q := PlanDeploy(p, d, existing);
      if AllExist(d.id, existing) then
        && q.starts != [] && q.starts == p.starts + [q.starts[|q.starts| - 1]] && Complete(q.starts[|q.starts| - 1])
        && q.alloc.reserved == p.alloc.reserved + q.starts[|q.starts| - 1].made
      else q.starts == p.starts && q.alloc == p.alloc
  {
    MadeIsComplete(p.alloc, d);
  }

  lemma {:induction false} StartPlaced(deploys: seq<Deploy>, existing: set<EnvFile>, i: nat) returns (n: nat)
    requires i < |PlanAll(deploys, existing).starts|
    ensures PlacedAt(PlanAll(deploys, existing).alloc.reserved, PlanAll(deploys, existing).starts, i, n)
  {
    var m := |deploys| - 1;
    var p, q := PlanAll(deploys[..m], existing), PlanAll(deploys, existing);
    RunTiles(deploys[..m], existing);
    RunRecords(deploys[..m], existing);
    DeployAdds(p, deploys[m], existing);
    if i < |p.starts| {
      n := StartPlaced(deploys[..m], existing, i);
      if q.starts != p.starts { PlacedKept(p.alloc.reserved, p.starts, i, n, q.starts[|p.starts|]); }
    } else {
      n := |p.alloc.reserved|;
      PlacedNew(p.alloc.reserved, p.starts, q.starts[i]);
    }
  }

  /** The first of some slots is a replica's, and none of the others is. */
  predicate HeadsOnly(slots: seq<string>, id: string) {
    slots != [] && slots[0] == id && id !in slots[1..]
  }

  /** A reservation is the last slot of a replica exactly when its slot heads those from there on, alone. */
  lemma {:induction false} LastOfHeads(reserved: seq<Reserved>, end: nat, s: Start, later: seq<string>, n: nat,
      id: string)
    requires Tiles(reserved, end) && s.made != [] && n + |s.made| <= |reserved| && reserved[n..n + |s.made|] == s.made
    requires Owners(reserved[n + |s.made|..]) == later
    ensures LastOf(reserved, id) == Some(s.made[0].lo) <==> s.made[0].deferred && HeadsOnly(Owners(s.made) + later, id)
  {
    var first := s.made[0];
    assert reserved[n] == first;
    LastOfExactly(reserved, end, n, id);
    assert reserved[n + 1..] == s.made[1..] + reserved[n + |s.made|..];
    OwnersAppend(s.made[1..], reserved[n + |s.made|..]);
    assert s.made == [first] + s.made[1..];
    OwnersAppend([first], s.made[1..]);
    if first.deferred {
      assert [first][..0] == [] && Owners([first]) == [first.owner];
      assert Owners(s.made) + later == [first.owner] + (Owners(s.made[1..]) + later);
    }
  }

  /** The table points at the start of a deploy exactly when its first port is the last slot of the replica. */
  lemma {:induction false} TableMeets(p: Plan, i: nat, n: nat, id: string)
    requires ValidPlan(p) && TableIsLast(p.alloc) && i < |p.starts| && PlacedAt(p.alloc.reserved, p.starts, i, n)
    requires !p.starts[i].recorded && ConfReserves(p.starts[i].conf)
    ensures (id in p.alloc.table && p.alloc.table[id] == p.starts[i].offset) <==>
            StartsDeferred(p.starts[i].conf)
            && HeadsOnly(ConfReplicas(p.starts[i].id, p.starts[i].conf) + Opened(p.starts[i + 1..]), id)
  {
    var s := p.starts[i];
    assert s in p.starts && MadeAsConf(s) && s.made != [];
    LastOfHeads(p.alloc.reserved, p.alloc.offset, s, Opened(p.starts[i + 1..]), n, id);
    assert LastOf(p.alloc.reserved, id) == if id in p.alloc.table then Some(p.alloc.table[id]) else None;
  }

  lemma {:induction false} RecordedStartsLower(p: Plan, j: nat)
    requires ValidPlan(p) && j < |p.starts| && p.starts[j].recorded
    ensures p.starts[j].offset < p.alloc.offset
  {
    var s, a := p.starts[j], p.alloc;
    assert s in p.starts && Anchored(s, a);
    var r :| r in a.reserved && r.deferred && r.owner == s.id && r.lo == s.offset;
    var k :| 0 <= k < |a.reserved| && a.reserved[k] == r;
    TilingCoversOnce(a.reserved, a.offset, 0);
    LenPositive(a.reserved, a.offset, k);
  }

  /** What has to hold of two starts, in order, for them to share their offset. */
  predicate Meet(starts: seq<Start>, i: nat, j: nat)
    requires i < |starts| && j < |starts|
  {
    && i < j && StartsDeferred(starts[i].conf)
    && HeadsOnly(ConfReplicas(starts[i].id, starts[i].conf) + Opened(starts[i + 1..j]), starts[j].id)
  }

  ghost predicate ShareAsSaid(starts: seq<Start>, i: nat, j: nat)
    requires i < |starts| && j < |starts|
  {
    starts[i].offset == starts[j].offset <==> Meet(starts, i, j)
  }

  lemma {:induction false} ShareKept(starts: seq<Start>, s: Start, i: nat, j: nat)
    requires i < |starts| && j < |starts| && ShareAsSaid(starts, i, j)
    ensures ShareAsSaid(starts + [s], i, j)
  {
    if i < j { assert (starts + [s])[i + 1..j] == starts[i + 1..j]; }
  }

  lemma {:induction false} LastStartMeets(p: Plan, d: Deploy, existing: set<EnvFile>, i: nat, j: nat, n: nat)
    requires ValidPlan(p) && TableIsLast(p.alloc) && AllExist(d.id, existing)
    requires var starts := PlanDeploy(p, d, existing).starts;
      && i < |starts| && j < |starts| && !starts[i].recorded && starts[j].recorded && ConfReserves(starts[i].conf)
      && (i == |p.starts| || j == |p.starts|)
    requires i < |p.starts| ==> PlacedAt(p.alloc.reserved, p.starts, i, n)
    ensures ShareAsSaid(PlanDeploy(p, d, existing).starts, i, j)
  {
    var starts := PlanDeploy(p, d, existing).starts;
    if j < |p.starts| {
      RecordedStartsLower(p, j);
    } else {
      TableMeets(p, i, n, starts[j].id);
      assert starts[i + 1..j] == p.starts[i + 1..];
    }
  }

  /**
   * Who shares a port, over every run: a deploy that reserves ports and a replica started from a recorded offset get
   * one offset if and only if the deploy comes first, the first host it reserves for has only single-replica paths,
   * and of the slots opened from there up to the replica the first is the replica's and no other is.
   */
  lemma {:induction false} StartsMeetExactly(deploys: seq<Deploy>, existing: set<EnvFile>, i: nat, j: nat)
    requires var starts := PlanAll(deploys, existing).starts;
      && i < |starts| && j < |starts| && !starts[i].recorded && starts[j].recorded && ConfReserves(starts[i].conf)
    ensures var starts := PlanAll(deploys, existing).starts;
      starts[i].offset == starts[j].offset <==> Meet(starts, i, j)
  {
    var m := |deploys| - 1;
    var p := PlanAll(deploys[..m], existing);
    RunTiles(deploys[..m], existing);
    RunRecords(deploys[..m], existing);
    DeployAdds(p, deploys[m], existing);
    if i < |p.starts| && j < |p.starts| {
      StartsMeetExactly(deploys[..m], existing, i, j);
      if AllExist(deploys[m].id, existing) {
        ShareKept(p.starts, PlanDeploy(p, deploys[m], existing).starts[|p.starts|], i, j);
      }
    } else {
      var n := 0;
      if i < |p.starts| { n := StartPlaced(deploys[..m], existing, i); }
      LastStartMeets(p, deploys[m], existing, i, j, n);
    }
    assert ShareAsSaid(PlanDeploy(p, deploys[m], existing).starts, i, j);
  }

  /** The smallest such deploy: one host with nothing but a single-replica path. */
  lemma {:induction false} ReplicaTakesParentPort(existing: set<EnvFile>)
    requires AllExist("dd", existing) && AllExist("dd-r1", existing)
    ensures var p := PlanAll([Deploy("dd", [[PathConf(true, Some(["/r1"]), false)]]), Deploy("dd-r1", [])], existing);
      |p.starts| == 2 && p.starts[0].offset == p.starts[1].offset
  {
    var paths := [PathConf(true, Some(["/r1"]), false)];
    var d, replica := Deploy("dd", [paths]), Deploy("dd-r1", []);
    assert ReplicaId("dd", "/r1") == "dd-r1";
    assert paths[..0] == [] && ["/r1"][..0] == [] && d.conf[..0] == [];
    assert ReserveConf(NEW_ALLOC, "dd", []) == NEW_ALLOC && ReserveOrdinary(NEW_ALLOC, "dd", paths) == NEW_ALLOC;
    var a := ReserveReplicas(NEW_ALLOC, "dd", ["/r1"], false);
    assert a == Reserve(NEW_ALLOC, "dd-r1", true, false);
    assert ReserveDeferred(NEW_ALLOC, "dd", paths) == a;
    assert ReserveConf(NEW_ALLOC, "dd", d.conf) == a && a.table["dd-r1"] == 0;
    assert [d, replica][..1] == [d] && [d][..0] == [];
    var p1 := PlanDeploy(Plan(NEW_ALLOC, map[], []), d, existing);
    assert PlanAll([d], existing) == p1 && p1.alloc == a && |p1.starts| == 1;
    assert PlanAll([d, replica], existing) == PlanDeploy(p1, replica, existing);
  }

  /** The families of the three environments share no port while every offset is below 1000. */
  lemma FamiliesStayApart(e: Env, f: Env, a: nat, b: nat)
    requires a < 1000 && b < 1000 && BasePort(e) + a == BasePort(f) + b
    ensures e == f && a == b
  {
  }

  // ----- the files ---------------------------------------------------------------------------

  type Values = map<string, string>
  type Files = map<EnvFile, Values>

  function Digit(d: nat): char
    requires d < 10
  {
    "0123456789"[d]
  }

  function Decimal(n: nat): string {
    if n < 10 then [Digit(n)] else Decimal(n / 10) + [Digit(n % 10)]
  }

  /** Different numbers are written differently. */
  lemma {:induction false} DecimalInjective(a: nat, b: nat)
    requires Decimal(a) == Decimal(b)
    ensures a == b
    decreases a
  {
    var x, y := Decimal(a), Decimal(b);
    assert x[|x| - 1] == Digit(a % 10) && y[|y| - 1] == Digit(b % 10);
    DecimalLength(a);
    DecimalLength(b);
    if a >= 10 {
      assert x[..|x| - 1] == Decimal(a / 10) && y[..|y| - 1] == Decimal(b / 10);
      DecimalInjective(a / 10, b / 10);
    }
  }

  lemma {:induction false} DecimalLength(n: nat)
    ensures |Decimal(n)| >= 1 && (|Decimal(n)| == 1 <==> n < 10)
  {
    if n >= 10 { DecimalLength(n / 10); }
  }

  lemma {:induction false} WriteEnvsAt(writes: map<EnvFile, nat>, id: string, offset: nat, envs: seq<Env>,
      existing: set<EnvFile>, f: EnvFile)
    ensures var after := WriteEnvs(writes, id, offset, envs, existing);
      && (f.id != id ==> (f in after <==> f in writes) && (f in writes ==> after[f] == writes[f]))
      && (f.id == id && f.env in envs && (forall env :: env in envs ==> EnvFile(id, env) in existing) ==>
            f in after && after[f] == BasePort(f.env) + offset)
    ensures f.id == id && f.env !in envs && f in writes ==>
              f in WriteEnvs(writes, id, offset, envs, existing)
              && WriteEnvs(writes, id, offset, envs, existing)[f] == writes[f]
    decreases |envs|
  {
    if envs != [] && EnvFile(id, envs[0]) in existing {
      WriteEnvsAt(writes[EnvFile(id, envs[0]) := BasePort(envs[0]) + offset], id, offset, envs[1..], existing, f);
    }
  }

  ghost predicate DistinctIds(deploys: seq<Deploy>) {
    forall i, j :: 0 <= i < j < |deploys| ==> deploys[i].id != deploys[j].id
  }

  /** What a run writes for a fully processed deploy is the base port of each environment plus its offset. */
  lemma {:induction false} StartsAreWritten(deploys: seq<Deploy>, existing: set<EnvFile>, s: Start, env: Env)
    requires DistinctIds(deploys) && s in PlanAll(deploys, existing).starts
    ensures var writes := PlanAll(deploys, existing).writes;
      EnvFile(s.id, env) in writes && writes[EnvFile(s.id, env)] == BasePort(env) + s.offset
    ensures exists d :: d in deploys && d.id == s.id
  {
    var n := |deploys| - 1;
    if n >= 0 {
      var p := PlanAll(deploys[..n], existing);
      var offset := EffectiveOffset(p.alloc, deploys[n].id);
      WriteEnvsAt(p.writes, deploys[n].id, offset, ENVS, existing, EnvFile(s.id, env));
      assert ENVS == [Production, Development, Test] && env in ENVS;
      if s in p.starts {
        StartsAreWritten(deploys[..n], existing, s, env);
        var d :| d in deploys[..n] && d.id == s.id;
        var i :| 0 <= i < n && deploys[..n][i] == d;
        assert deploys[i].id != deploys[n].id && deploys[i] in deploys;
      } else {
        assert deploys[n] in deploys;
      }
    }
  }

  lemma {:induction false} DifferentPortsPrintApart(e: Env, f: Env, a: nat, b: nat)
    requires a < 1000 && b < 1000 && (e != f || a != b)
    ensures Decimal(BasePort(e) + a) != Decimal(BasePort(f) + b)
  {
    if BasePort(e) + a == BasePort(f) + b { FamiliesStayApart(e, f, a, b); }
    DecimalDiffers(BasePort(e) + a, BasePort(f) + b);
  }

  lemma {:induction false} DecimalDiffers(x: nat, y: nat)
    requires x != y
    ensures Decimal(x) != Decimal(y)
  {
    if Decimal(x) == Decimal(y) { DecimalInjective(x, y); }
  }

  ghost predicate WrittenAt(p: Plan, i: nat, e: Env)
    requires i < |p.starts|
  {
    var file := EnvFile(p.starts[i].id, e);
    file in p.writes && p.writes[file] == BasePort(e) + p.starts[i].offset
  }

  lemma {:induction false} StartIsWritten(deploys: seq<Deploy>, existing: set<EnvFile>, i: nat, e: Env)
    requires DistinctIds(deploys) && i < |PlanAll(deploys, existing).starts|
    ensures WrittenAt(PlanAll(deploys, existing), i, e)
  {
    StartsAreWritten(deploys, existing, PlanAll(deploys, existing).starts[i], e);
  }

  lemma {:induction false} PairPrintsApart(p: Plan, i: nat, j: nat, e: Env, f: Env)
    requires i < |p.starts| && j < |p.starts| && WrittenAt(p, i, e) && WrittenAt(p, j, f)
    requires p.starts[i].offset < 1000 && p.starts[j].offset < 1000
    requires e != f || p.starts[i].offset != p.starts[j].offset
    ensures Decimal(p.writes[EnvFile(p.starts[i].id, e)]) != Decimal(p.writes[EnvFile(p.starts[j].id, f)])
  {
    DifferentPortsPrintApart(e, f, p.starts[i].offset, p.starts[j].offset);
  }

  /**
   * No two written ports are equal, across deploys and environments: for deploys of different ids that own
   * their start, as long as every offset is below 1000.
   */
  lemma {:induction false} PortsDiffer(deploys: seq<Deploy>, existing: set<EnvFile>, i: nat, j: nat, e: Env, f: Env)
    requires DistinctIds(deploys)
    requires var starts := PlanAll(deploys, existing).starts;
      && i < |starts| && j < |starts| && (i < j || (i == j && e != f)) && starts[i].offset < 1000
          && starts[j].offset < 1000
      && OwnsItsStart(starts[i]) && OwnsItsStart(starts[j])
      && (i < j && starts[i].recorded && starts[j].recorded ==> starts[i].id != starts[j].id)
    ensures var p := PlanAll(deploys, existing);
      && WrittenAt(p, i, e) && WrittenAt(p, j, f)
      && Decimal(p.writes[EnvFile(p.starts[i].id, e)]) != Decimal(p.writes[EnvFile(p.starts[j].id, f)])
  {
    StartIsWritten(deploys, existing, i, e);
    StartIsWritten(deploys, existing, j, f);
    if i < j { StartsDiffer(deploys, existing, i, j); }
    PairPrintsApart(PlanAll(deploys, existing), i, j, e, f);
  }

  /** Each written file gets its port under `PORT` and keeps every other value. */
  function Apply(writes: map<EnvFile, nat>, files: Files): Files {
    map f | f in files :: if f in writes then files[f]["PORT" := Decimal(writes[f])] else files[f]
  }

  /** A second run writes what the first one wrote; nothing but `PORT` moved, and no file appeared or went. */
  lemma {:induction false} SyncIsRepeatable(deploys: seq<Deploy>, files: Files)
    ensures var writes := PlanAll(deploys, files.Keys).writes;
      var after := Apply(writes, files);
      && after.Keys == files.Keys
      && Apply(PlanAll(deploys, after.Keys).writes, after) == after
      && (forall f, k :: f in files && k != "PORT" ==>
            (k in after[f] <==> k in files[f]) && (k in files[f] ==> after[f][k] == files[f][k]))
  {
    var writes := PlanAll(deploys, files.Keys).writes;
    var after := Apply(writes, files);
    assert after.Keys == files.Keys;
    forall f | f in files ensures Apply(writes, after)[f] == after[f] {}
  }

  // ----- the command -------------------------------------------------------------------------

  class EnvStore {
    var files: Files

    constructor (files: Files)
      ensures this.files == files
    {
      this.files := files;
    }

    /** Writes the `PORT` of one existing file. */
    method WritePort(file: EnvFile, port: nat, ghost writes: map<EnvFile, nat>, ghost original: Files)
      requires file in files && files == Apply(writes, original)
      modifies this
      ensures files == Apply(writes[file := port], original)
    {
      assert files[file]["PORT" := Decimal(port)] == original[file]["PORT" := Decimal(port)];
      files := files[file := files[file]["PORT" := Decimal(port)]];
    }

    /** Writes the `PORT` of a deploy's files, production first; the first missing one skips the deploy. */
    method WriteDeploy(id: string, offset: nat, ghost writes: map<EnvFile, nat>,
        ghost original: Files) returns (skipDeploy: bool)
      requires files == Apply(writes, original)
      modifies this
      ensures files == Apply(WriteEnvs(writes, id, offset, ENVS, original.Keys), original)
      ensures skipDeploy <==> !AllExist(id, original.Keys)
    {
      ghost var done: map<EnvFile, nat> := writes;
      for k := 0 to |ENVS|
        invariant files == Apply(done, original)
        invariant forall n :: 0 <= n < k ==> EnvFile(id, ENVS[n]) in original.Keys
        invariant WriteEnvs(writes, id, offset, ENVS, original.Keys)
            == WriteEnvs(done, id, offset, ENVS[k..], original.Keys)
      {
        var env := ENVS[k];
        assert ENVS[k..][0] == env && ENVS[k..][1..] == ENVS[k + 1..];
        assert files.Keys == original.Keys;
        if EnvFile(id, env) !in files {
          assert env in ENVS;
          return true;
        }
        WritePort(EnvFile(id, env), BasePort(env) + offset, done, original);
        done := done[EnvFile(id, env) := BasePort(env) + offset];
      }
      return false;
    }

    /** Synchronizes the port of every deploy in the order they are listed. */
    method SyncEnvPort(deploys: seq<Deploy>) returns (portOffset: nat)
      modifies this
      ensures files == Apply(PlanAll(deploys, old(files.Keys)).writes, old(files))
      ensures portOffset == PlanAll(deploys, old(files.Keys)).alloc.offset
    {
      ghost var existing := files.Keys;
      portOffset := 0;
      var singleReplicaPortOffsets: map<string, nat> := map[];
      assert files == Apply(map[], files);
      for i := 0 to |deploys|
        invariant files.Keys == existing
        invariant files == Apply(PlanAll(deploys[..i], existing).writes, old(files))
        invariant portOffset == PlanAll(deploys[..i], existing).alloc.offset
        invariant singleReplicaPortOffsets == PlanAll(deploys[..i], existing).alloc.table
      {
        assert deploys[..i + 1][..i] == deploys[..i];
        var d := deploys[i];
        var effective := if d.id in singleReplicaPortOffsets then singleReplicaPortOffsets[d.id] else portOffset;
        ghost var p := PlanAll(deploys[..i], existing);
        var skipDeploy := WriteDeploy(d.id, effective, p.writes, old(files));
        if skipDeploy { continue; }
        if d.id in singleReplicaPortOffsets { continue; }
        portOffset, singleReplicaPortOffsets := ReserveHosts(d, portOffset, singleReplicaPortOffsets, p.alloc);
      }
      assert deploys[..|deploys|] == deploys;
    }
  }

  /** The hosts of one conf; `a` is the allocation the running values stand for. */
  method ReserveHosts(d: Deploy, offset: nat, table: map<string, nat>, ghost a: Alloc)
    returns (portOffset: nat, singleReplicaPortOffsets: map<string, nat>)
    requires offset == a.offset && table == a.table
    ensures var b := ReserveConf(a, d.id, d.conf); portOffset == b.offset && singleReplicaPortOffsets == b.table
  {
    portOffset, singleReplicaPortOffsets := offset, table;
    for h := 0 to |d.conf|
      invariant var b := ReserveConf(a, d.id, d.conf[..h]);
        portOffset == b.offset && singleReplicaPortOffsets == b.table
    {
      assert d.conf[..h + 1][..h] == d.conf[..h];
      portOffset, singleReplicaPortOffsets :=
        ReservePaths(d.id, d.conf[h], portOffset, singleReplicaPortOffsets, ReserveConf(a, d.id, d.conf[..h]));
    }
    assert d.conf[..|d.conf|] == d.conf;
  }

  /** One host: its ordinary paths at once, its single-replica slots after them. */
  method ReservePaths(id: string, paths: HostConf, offset: nat, table: map<string, nat>, ghost a: Alloc)
    returns (portOffset: nat, singleReplicaPortOffsets: map<string, nat>)
    requires offset == a.offset && table == a.table
    ensures var b := ReserveDeferred(ReserveOrdinary(a, id, paths), id, paths);
      portOffset == b.offset && singleReplicaPortOffsets == b.table
  {
    portOffset, singleReplicaPortOffsets := offset, table;
    var deferredSlots: HostConf := [];
    for k := 0 to |paths|
      invariant var b := ReserveOrdinary(a, id, paths[..k]);
        portOffset == b.offset && singleReplicaPortOffsets == b.table
      invariant deferredSlots == SlotsOf(paths[..k])
    {
      assert paths[..k + 1][..k] == paths[..k];
      if paths[k].singleReplica && paths[k].replicas.Some? {
        deferredSlots := deferredSlots + [paths[k]];
        continue;
      }
      portOffset := portOffset + 1;
      if paths[k].peer { portOffset := portOffset + 1; }
    }
    assert paths[..|paths|] == paths;
    ghost var mid := ReserveOrdinary(a, id, paths);
    SlotsAreDeferred(paths);
    SlotsReserveTheSame(mid, id, paths);
    for k := 0 to |deferredSlots|
      invariant var b := ReserveDeferred(mid, id, deferredSlots[..k]);
        portOffset == b.offset && singleReplicaPortOffsets == b.table
    {
      assert deferredSlots[..k + 1][..k] == deferredSlots[..k];
      portOffset, singleReplicaPortOffsets :=
        ReserveSlot(id, deferredSlots[k], portOffset, singleReplicaPortOffsets,
          ReserveDeferred(mid, id, deferredSlots[..k]));
    }
    assert deferredSlots[..|deferredSlots|] == deferredSlots;
  }

  /** The replicas of one slot, each recorded under the deploy it will start. */
  method ReserveSlot(id: string, slot: PathConf, offset: nat, table: map<string, nat>, ghost a: Alloc)
    returns (portOffset: nat, singleReplicaPortOffsets: map<string, nat>)
    requires Deferred(slot) && offset == a.offset && table == a.table
    ensures var b := ReserveReplicas(a, id, slot.replicas.value, slot.peer);
      portOffset == b.offset && singleReplicaPortOffsets == b.table
  {
    portOffset, singleReplicaPortOffsets := offset, table;
    var replicas := slot.replicas.value;
    for n := 0 to |replicas|
      invariant var b := ReserveReplicas(a, id, replicas[..n], slot.peer);
        portOffset == b.offset && singleReplicaPortOffsets == b.table
    {
      assert replicas[..n + 1][..n] == replicas[..n];
      var replicaDeployId := ReplicaId(id, replicas[n]);
      singleReplicaPortOffsets := singleReplicaPortOffsets[replicaDeployId := portOffset];
      portOffset := portOffset + 1;
      if slot.peer { portOffset := portOffset + 1; }
    }
    assert replicas[..|replicas|] == replicas;
  }

  /** `deferredSingleReplicaSlots` of one host. */
  function SlotsOf(paths: HostConf): HostConf {
    if paths == [] then []
    else
      var p := paths[|paths| - 1];
      SlotsOf(paths[..|paths| - 1]) + if Deferred(p) then [p] else []
  }

  lemma {:induction false} SlotsAreDeferred(paths: HostConf)
    ensures forall k :: 0 <= k < |SlotsOf(paths)| ==> Deferred(SlotsOf(paths)[k])
  {
    if paths != [] { SlotsAreDeferred(paths[..|paths| - 1]); }
  }

  lemma {:induction false} DeferredSnoc(a: Alloc, id: string, slots: HostConf, p: PathConf)
    requires Deferred(p)
    ensures ReserveDeferred(a, id, slots + [p])
         == ReserveReplicas(ReserveDeferred(a, id, slots), id, p.replicas.value, p.peer)
  {
    assert (slots + [p])[..|slots|] == slots;
  }

  lemma {:induction false} SlotsReserveTheSame(a: Alloc, id: string, paths: HostConf)
    ensures ReserveDeferred(a, id, SlotsOf(paths)) == ReserveDeferred(a, id, paths)
  {
    if paths != [] {
      var n := |paths| - 1;
      SlotsReserveTheSame(a, id, paths[..n]);
      assert paths == paths[..n] + [paths[n]];
      if Deferred(paths[n]) {
        DeferredSnoc(a, id, SlotsOf(paths[..n]), paths[n]);
        DeferredSnoc(a, id, paths[..n], paths[n]);
      } else {
        assert SlotsOf(paths) == SlotsOf(paths[..n]);
      }
    }
  }
}
