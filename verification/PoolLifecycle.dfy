/** `Service.Setup`, `Remove` and `RecoverIncompleteSetup` (`internal/refsworkspace/pool.go`,
    `pool_transaction.go`, `recovery.go`) as a commit protocol. Host files are durable. The volume inside
    the VHDX has durable contents and, while attached, volatile contents: a detach or a crash keeps any
    part of the volatile changes, and a flush that succeeds promises nothing unless it is honest. `faults`
    bounds the failures the environment still injects, and the history records every state. */
module PoolLifecycle {
  import opened Leases

  /** Pool metadata; the identity fields are filled in as setup learns them. `Torn` is an unreadable file. */
  datatype Record = Record(token: nat, vhdx: Option<nat>, volume: Option<nat>) | Torn

  /** Directories of the synthetic clone probe: none, of the shape an interrupted setup leaves, or other
      entries with its name prefix. */
  datatype Probe = NoProbe | Genuine | Foreign

  /** The volume: `pool.json`, the complete directory layout, canonical baselines, probe directories, any
      other entry of the managed directories, and any other entry of the pool's or the volume's root. */
  datatype Contents = Contents(
    pool: Option<Record>, layout: bool, baselines: bool, probe: Probe, managed: bool, strays: bool)

  const EMPTY := Contents(None, false, false, NoProbe, false, false)

  /** What Remove accepts with a `pool.json` and recovery without one. Canonical baselines and whatever
      lies in the two roots go with a committed pool; recovery wants everything empty, except that an
      interrupted setup may have left its probe. */
  predicate Disposable(c: Contents, pool: Option<Record>) {
    && c.pool == pool && c.layout && !c.managed
    && (if pool.Some? then c.probe == NoProbe else !c.baselines && c.probe != Foreign && !c.strays)
  }

  /** The storage root holds the VHDX, the two records, the mount directory and perhaps other entries. */
  datatype World = World(
    vhdx: Option<nat>, volumeId: nat, durable: Contents, mounted: Option<Contents>,
    pending: Option<Record>, owner: Option<Record>, mount: bool, clutter: bool)

  /** An authoritative owner is backed by the same durable `pool.json` for as long as the VHDX exists,
      whatever a crash does to the volatile contents. */
  ghost predicate Sound(w: World) {
    && (w.vhdx.Some? && w.owner.Some? ==> w.durable.pool == w.owner)
    && (w.vhdx.Some? && w.owner.Some? && w.mounted.Some? ==> w.mounted.value.pool == w.durable.pool)
    && (w.pending.Some? && w.owner.Some? ==> w.pending == w.owner)
    && (w.mounted.Some? ==> w.vhdx.Some?)
  }

  /** A VHDX has an ownership record. */
  ghost predicate Owned(w: World) {
    w.vhdx.Some? ==> w.pending.Some? || w.owner.Some?
  }

  /** How one step may change the world: the owner appears only on a detached volume, as the pending
      record that the durable `pool.json` equals; the VHDX is deleted only when detached, its records stay
      for that step, and a committed pool goes only when no managed entry but canonical baselines is left. */
  ghost predicate Legal(a: World, b: World) {
    && (a.owner == None && b.owner.Some? ==> b.owner == a.pending && a.vhdx.Some? && a.durable.pool == a.pending && a.mounted == None)
    && (a.vhdx.Some? && b.vhdx == None ==>
          && a.mounted == None && b.pending == a.pending && b.owner == a.owner
          && (a.owner.Some? && a.pending == None ==>
                a.durable.pool == a.owner && a.durable.layout && !a.durable.managed && a.durable.probe == NoProbe))
  }

  ghost predicate Good(history: seq<World>) {
    && (forall i :: 0 <= i < |history| ==> Sound(history[i]))
    && (forall i :: 0 <= i < |history| - 1 ==> Legal(history[i], history[i + 1]))
  }

  ghost predicate AllOwned(history: seq<World>) {
    forall i :: 0 <= i < |history| ==> Owned(history[i])
  }

  method AnyMixture(a: Contents, b: Contents) returns (d: Contents)
    ensures Mixture(d, a, b)
  {
    var p: bool, l: bool, c: bool, s: bool, m: bool, r: bool := *, *, *, *, *, *;
    d := Contents(if p then a.pool else b.pool, if l then a.layout else b.layout,
                  if c then a.baselines else b.baselines, if s then a.probe else b.probe,
                  if m then a.managed else b.managed, if r then a.strays else b.strays);
  }

  /** The two ways a VHDX can lose its record: a creation that failed left its file and the cleanup, which
      knows of no file, removed the pending record; or the commit removed the pending name, was told that
      it had not, and took the owner back as well. */
  datatype Cause = LeakedCreation | TornCommit

  /** `at` is the place in the history of the first VHDX without a record. */
  datatype Loss = Loss(at: nat, cause: Cause)

  ghost predicate Kept(history: seq<World>, loss: Option<Loss>) {
    match loss
    case None => AllOwned(history)
    case Some(l) => l.at < |history| && !Owned(history[l.at]) && AllOwned(history[..l.at])
  }

  /** A VHDX creation that fails leaves no file, may leave one, or does. */
  datatype Creation = Clean | MayLeave | Leaves

  /** Any mixture of what was durable and what was only volatile. */
  ghost predicate Mixture(d: Contents, durable: Contents, volatile: Contents) {
    && (d.pool == durable.pool || d.pool == volatile.pool)
    && (d.layout == durable.layout || d.layout == volatile.layout)
    && (d.baselines == durable.baselines || d.baselines == volatile.baselines)
    && (d.probe == durable.probe || d.probe == volatile.probe)
    && (d.managed == durable.managed || d.managed == volatile.managed)
    && (d.strays == durable.strays || d.strays == volatile.strays)
  }

  /** One operation of a command, whatever became of it. */
  datatype Op =
    | MakeMount | CheckMount | CreateRecord | CreateDisk | IdentifyDisk | CheckDisk
    | WriteTemporary(record: Record) | PublishRecord(record: Record)
    | MountVolume | CheckVolume | MakeLayout | MakeProbe | CloneProbe | RemoveProbe
    | WriteTemporaryPool | PublishPool(record: Record) | ReadBack | FlushVolume | DetachVolume | InspectPool
    | LinkOwner | UnlinkPending | UnlinkOwner | SyncOwner | MeasureResidual | UnlinkDisk | UnlinkMount | UnlinkRoot

  datatype Command = DoSetup(fileId: nat, token: nat) | DoRemove | DoRecover

  lemma Associative(a: seq<Op>, b: seq<Op>, c: seq<Op>)
    ensures a + b + c == a + (b + c)
  {
  }

  class Host {
    var world: World
    var faults: nat
    const honestFlush: bool
    const creation: Creation
    /** Removals and links of host files may take effect although they report a failure. */
    const tears: bool
    var history: seq<World>
    ghost var loss: Option<Loss>
    ghost var trace: seq<Op>
    ghost var begun: seq<Command>
    /** What the last mount that failed reported of the disk. */
    ghost var released: bool

    constructor (world: World, faults: nat, honestFlush: bool, creation: Creation, tears: bool)
      requires Sound(world) && Owned(world)
      ensures Recorded() && loss == None && history == [world]
      ensures this.world == world && this.faults == faults && this.honestFlush == honestFlush
      ensures this.creation == creation && this.tears == tears && trace == [] && begun == []
    {
      this.world, this.faults, this.honestFlush, this.creation, this.tears := world, faults, honestFlush, creation, tears;
      history, loss, trace, begun, released := [world], None, [], [], false;
    }

    ghost predicate Recorded()
      reads this
    {
      history != [] && history[|history| - 1] == world && Good(history) && Kept(history, loss)
    }

    twostate predicate Extended()
      reads this
    {
      Recorded() && old(history) <= history && faults <= old(faults)
    }

    /** A part of a command that succeeds has done all of this, and nothing failed. */
    twostate predicate Did(ok: bool, ops: seq<Op>)
      reads this
    {
      ok ==> faults == old(faults) && trace == old(trace) + ops
    }

    method Become(w: World)
      requires Recorded() && Sound(w) && Legal(world, w) && (Owned(w) || loss.Some?)
      modifies this`world, this`history
      ensures Extended() && world == w
      ensures history == old(history) + [w]
    {
      world := w;
      history := history + [w];
      assert forall i :: 0 <= i < |old(history)| ==> history[i] == old(history)[i];
      assert history[..|old(history)|] == old(history);
      assert loss.Some? ==> history[..loss.value.at] == old(history)[..loss.value.at];
    }

    /** A step that takes the last record from a VHDX. */
    method LoseRecord(w: World, ghost cause: Cause)
      requires Recorded() && Sound(w) && Legal(world, w) && !Owned(w)
      modifies this`world, this`history, this`loss
      ensures Extended() && world == w
      ensures loss == if old(loss).Some? then old(loss) else Some(Loss(|old(history)|, cause))
    {
      world := w;
      history := history + [w];
      if loss == None {
        loss := Some(Loss(|history| - 1, cause));
      }
      assert forall i :: 0 <= i < |old(history)| ==> history[i] == old(history)[i];
      assert history[..|old(history)|] == old(history);
      assert old(loss).Some? ==> history[..loss.value.at] == old(history)[..loss.value.at];
    }

    method Fails(op: Op) returns (failed: bool)
      modifies this`faults, this`trace
      ensures (if failed then faults + 1 else faults) == old(faults) && trace == old(trace) + [op]
    {
      trace := trace + [op];
      failed := *;
      failed := failed && faults > 0;
      if failed {
        faults := faults - 1;
      }
    }

    /** An operation that reaches `w` or fails without effect. */
    method Change(w: World, op: Op) returns (ok: bool)
      requires Recorded() && Sound(w) && Legal(world, w) && (Owned(w) || loss.Some?)
      modifies this`world, this`history, this`faults, this`trace
      ensures trace == old(trace) + [op]
      ensures Extended() && (if ok then faults else faults + 1) == old(faults)
      ensures world == if ok then w else old(world)
      ensures ok ==> history == old(history) + [w]
    {
      var failed := Fails(op);
      if !failed {
        Become(w);
      }
      ok := !failed;
    }

    /** A file write that may have happened although it reported a failure. */
    method Write(w: World, op: Op) returns (ok: bool)
      requires Recorded() && Sound(w) && Legal(world, w) && (Owned(w) || loss.Some?)
      modifies this`world, this`history, this`faults, this`trace
      ensures trace == old(trace) + [op]
      ensures Extended() && (if ok then faults else faults + 1) == old(faults)
      ensures (ok ==> world == w) && (world == w || world == old(world))
      ensures ok ==> history == old(history) + [w]
    {
      ok := Change(w, op);
      var effect: bool := *;
      if !ok && effect {
        Become(w);
      }
    }

    /** A removal or a link of a host file: clean failures unless the host tears. */
    method Namespace(w: World, op: Op) returns (ok: bool)
      requires Recorded() && Sound(w) && Legal(world, w) && (Owned(w) || loss.Some?)
      modifies this`world, this`history, this`faults, this`trace
      ensures trace == old(trace) + [op]
      ensures Extended() && (if ok then faults else faults + 1) == old(faults)
      ensures (ok ==> world == w) && (world == w || world == old(world))
      ensures !ok && !tears ==> world == old(world)
    {
      if tears {
        ok := Write(w, op);
      } else {
        ok := Change(w, op);
      }
    }

    /** A removal that may take the last record from a VHDX; `cause` says why it would. */
    method RemoveRecord(w: World, ghost cause: Cause, op: Op) returns (ok: bool)
      requires Recorded() && Sound(w) && Legal(world, w) && w != world
      modifies this`world, this`history, this`faults, this`loss, this`trace
      ensures trace == old(trace) + [op]
      ensures Extended() && (if ok then faults else faults + 1) == old(faults)
      ensures (ok ==> world == w) && (world == w || world == old(world))
      ensures !ok && !tears ==> world == old(world)
      ensures loss == if world == w && !Owned(w) && old(loss) == None then Some(Loss(|old(history)|, cause)) else old(loss)
    {
      var failed := Fails(op);
      var effect: bool := *;
      ok := !failed;
      if ok || (tears && effect) {
        if w.vhdx.Some? && w.pending == None && w.owner == None {
          LoseRecord(w, cause);
        } else {
          Become(w);
        }
      }
    }

    /** Attaches the volume: its volatile contents start as the durable ones. After a failure the disk may
        have stayed attached unless the error says `released`. */
    method Mount() returns (ok: bool, released: bool)
      requires Recorded() && world.vhdx.Some?
      modifies this`world, this`history, this`faults, this`trace, this`released
      ensures !ok ==> this.released == released
      ensures trace == old(trace) + [MountVolume]
      ensures Extended()
      ensures !ok ==> faults < old(faults) || old(world.mounted.Some?)
      ensures ok ==> old(world.mounted) == None && faults == old(faults)
                     && world == old(world).(mounted := Some(old(world.durable)))
      ensures !ok ==> world == old(world) || (!released && world == old(world).(mounted := Some(old(world.durable))))
      ensures !ok && released ==> world.mounted == None
    {
      if world.mounted.Some? {
        trace := trace + [MountVolume];
        this.released := false;
        return false, false;
      }
      var failed := Fails(MountVolume);
      released := *;
      if !failed || !released {
        Become(world.(mounted := Some(world.durable)));
      }
      ok := !failed;
      if !ok {
        this.released := released;
      }
    }

    /** Detaches; unflushed changes survive in part. A failed detach may have detached nevertheless. */
    method Detach() returns (ok: bool)
      requires Recorded() && world.mounted.Some?
      modifies this`world, this`history, this`faults, this`trace
      ensures trace == old(trace) + [DetachVolume]
      ensures Extended() && (!ok <==> faults < old(faults))
      ensures ok ==> world.mounted == None
      ensures world == old(world)
              || (world == old(world).(durable := world.durable, mounted := None)
                  && Mixture(world.durable, old(world.durable), old(world.mounted.value)))
    {
      var failed := Fails(DetachVolume);
      var effect: bool := *;
      ok := !failed;
      if ok || effect {
        Crash();
      }
    }

    /** Power loss at this point: host files stay, the volume loses any part of what was not durable. */
    method Crash()
      requires Recorded()
      modifies this`world, this`history
      ensures Extended() && world.mounted == None
      ensures world == old(world).(durable := world.durable, mounted := None)
      ensures if old(world.mounted) == None then world.durable == old(world.durable)
              else Mixture(world.durable, old(world.durable), old(world.mounted.value))
    {
      if world.mounted.Some? {
        var d := AnyMixture(world.durable, world.mounted.value);
        Become(world.(durable := d, mounted := None));
      }
    }

    /** Back to a world of the recorded past: everything after it has not happened. */
    method Rewind(k: nat)
      requires Recorded() && k < |history|
      modifies this`world, this`history, this`loss
      ensures Recorded() && history == old(history)[..k + 1]
      ensures loss == old(loss) || (loss == None && old(loss).Some? && k < old(loss).value.at)
    {
      if loss.Some? && loss.value.at > k {
        loss := None;
        assert forall i :: 0 <= i <= k ==> history[i] == history[..old(loss).value.at][i];
      } else if loss.Some? {
        assert history[..k + 1][..loss.value.at] == history[..loss.value.at];
      }
      world, history := history[k], history[..k + 1];
    }

    /** Power loss inside a command that began when the history had `from` worlds: some recorded world since
        then is the last one reached. */
    method PowerLoss(from: nat)
      requires Recorded() && 0 < from <= |history|
      modifies this`world, this`history, this`loss
      ensures Recorded() && old(history)[..from] <= history && world.mounted == None
      ensures loss == old(loss) || (loss == None && old(loss).Some? && from <= old(loss).value.at)
    {
      var k: nat := *;
      if k < from - 1 || k >= |history| {
        k := |history| - 1;
      }
      Rewind(k);
      assert old(history)[..from] <= history;
      Crash();
    }
  }

  // ---------------------------------------------------------------- Remove and RecoverIncompleteSetup

  predicate Identified(r: Record) { r.Record? && r.vhdx.Some? && r.volume.Some? }

  /** A pool that Remove takes down: the mount directory, one readable authoritative owner, its own VHDX and
      volume, the same durable `pool.json`, and nothing but canonical baselines left in the managed
      directories. */
  ghost predicate Removable(w: World) {
    && w.mount && w.pending == None && w.owner.Some? && Identified(w.owner.value) && w.mounted == None
    && w.vhdx == w.owner.value.vhdx && w.owner.value.volume == Some(w.volumeId)
    && w.durable.pool == w.owner && w.durable.layout && !w.durable.managed && w.durable.probe == NoProbe
  }

  /** A setup that recovery may undo: the mount directory, exactly one readable record that already names the VHDX and the
      volume, the complete layout, empty but for a probe directory, and no `pool.json`. */
  ghost predicate Recoverable(w: World) {
    var record := if w.owner.Some? then w.owner else w.pending;
    && w.mount && (w.owner == None || w.pending == None) && record.Some? && Identified(record.value) && w.mounted == None
    && w.vhdx == record.value.vhdx && record.value.volume == Some(w.volumeId)
    && w.durable.pool == None && w.durable.layout && !w.durable.managed && !w.durable.baselines
    && w.durable.probe in {NoProbe, Genuine} && !w.durable.strays
  }

  function AtRest(w: World): World { w.(mounted := None) }

  /** A command that fails its tests leaves everything but the mount as it was, and what it may leave
      mounted holds nothing new. */
  twostate predicate Refused(host: Host)
    reads host
  {
    && AtRest(host.world) == AtRest(old(host.world))
    && host.world.mounted in {None, old(host.world.mounted), Some(host.world.durable)}
  }

  /** `FileIdentity` compared with the record. */
  method SameVHDX(host: Host, record: Record) returns (ok: bool)
    requires host.Recorded()
    modifies host`faults, host`trace
    ensures host.Extended()
    ensures !ok <==> !(record.Record? && record.vhdx.Some? && host.world.vhdx == record.vhdx) || host.faults < old(host.faults)
    ensures host.Did(ok, [CheckDisk])
  {
    var failed := host.Fails(CheckDisk);
    ok := record.Record? && record.vhdx.Some? && host.world.vhdx == record.vhdx && !failed;
  }

  const INSPECT_OPS := [MountVolume, InspectPool, DetachVolume]

  /** What taking a pool down does: it is looked at, and only then do VHDX, record and directories go. */
  function TakeDownOps(record: Op): seq<Op> {
    [CheckDisk] + (INSPECT_OPS + TakeDownTail(record))
  }

  function TakeDownTail(record: Op): seq<Op> { [CheckDisk, UnlinkDisk, record] + [UnlinkMount, UnlinkRoot] }

  lemma TailInOrder(t: seq<Op>, record: Op)
    ensures t + [CheckDisk] + [UnlinkDisk] + [record] + [UnlinkMount, UnlinkRoot] == t + TakeDownTail(record)
  {
    assert [CheckDisk] + [UnlinkDisk] + [record] == [CheckDisk, UnlinkDisk, record];
    Associative(t, [CheckDisk], [UnlinkDisk]);
    Associative(t, [CheckDisk] + [UnlinkDisk], [record]);
    Associative(t, [CheckDisk, UnlinkDisk, record], [UnlinkMount, UnlinkRoot]);
  }

  lemma TakenDown(t: seq<Op>, record: Op)
    ensures t + [CheckDisk] + INSPECT_OPS + TakeDownTail(record) == t + TakeDownOps(record)
  {
    Associative(t + [CheckDisk], INSPECT_OPS, TakeDownTail(record));
    Associative(t, [CheckDisk], INSPECT_OPS + TakeDownTail(record));
  }

  /** Mounts an existing pool, reads what `inspected` decides on, and detaches again: the world is left as
      it was, so a judgement on the mounted contents holds for the durable ones. */
  method InspectMounted(host: Host, record: Record, wantPool: Option<Record>) returns (ok: bool)
    requires host.Recorded() && host.world.vhdx.Some? && Identified(record)
    modifies host`world, host`history, host`faults, host`trace, host`released
    ensures host.Extended()
    ensures ok ==> host.world == old(host.world) && host.world.mounted == None
                   && record.volume == Some(host.world.volumeId)
                   && Disposable(host.world.durable, wantPool)
    ensures !ok ==> host.faults < old(host.faults) || old(host.world.mounted.Some?)
                    || record.volume != Some(old(host.world.volumeId))
                    || !Disposable(old(host.world.durable), wantPool)
    ensures AtRest(host.world) == AtRest(old(host.world))
    ensures host.world.mounted in {None, old(host.world.mounted), Some(host.world.durable)}
    ensures host.Did(ok, INSPECT_OPS)
    ensures host.trace == old(host.trace) + INSPECT_OPS || (!ok && host.trace == old(host.trace) + [MountVolume])
  {
    var mounted, released := host.Mount();
    if !mounted {
      return false;
    }
    var contents := host.world.mounted.value;
    var failed := host.Fails(InspectPool);
    var sound := !failed && record.volume == Some(host.world.volumeId)
                 && Disposable(contents, wantPool);
    var closed := host.Detach();
    ok := sound && closed;
    assert host.trace == old(host.trace) + INSPECT_OPS;
  }

  /** What is in the storage root besides the mount directory. */
  predicate Entries(w: World) { w.pending.Some? || w.owner.Some? || w.vhdx.Some? || w.clutter }

  /** Why Setup refuses before it does anything: the root is not empty. */
  predicate Occupied(w: World) { w.mount || Entries(w) }

  /** The last step of a command: the mount directory goes, then the root, which must be empty by now. */
  method RemoveDirectories(host: Host) returns (ok: bool)
    requires host.Recorded() && (Owned(host.world) || host.loss.Some?)
    modifies host`world, host`history, host`faults, host`trace, host`released
    ensures host.Extended() && host.world == old(host.world).(mount := host.world.mount)
    ensures ok ==> !Occupied(host.world)
    ensures !ok ==> host.faults < old(host.faults) || Entries(host.world)
    ensures host.faults == old(host.faults) ==> !host.world.mount
    ensures old(host.world.mount) ==> host.Did(ok, [UnlinkMount, UnlinkRoot])
  {
    if host.world.mount {
      ok := host.Namespace(host.world.(mount := false), UnlinkMount);
      if !ok { return; }
    }
    var failed := host.Fails(UnlinkRoot);
    ok := !failed && !Entries(host.world);
  }

  /** The deletions, from the second look at the VHDX on: its record is the owner of a committed pool, the
      pending one otherwise. */
  method TakeDown(host: Host, record: Record, committed: bool) returns (ok: bool)
    requires host.Recorded() && host.world.mounted == None && host.world.mount && host.world.vhdx.Some?
    requires record.Record? && record.vhdx == host.world.vhdx
    requires if committed then host.world.owner == Some(record) && host.world.pending == None && Disposable(host.world.durable, Some(record))
             else host.world.owner == None && host.world.pending == Some(record)
    modifies host`world, host`history, host`faults, host`trace, host`released
    ensures host.Extended() && host.Did(ok, TakeDownTail(if committed then UnlinkOwner else UnlinkPending))
    ensures ok ==> !Occupied(host.world)
    ensures host.world.vhdx.Some? ==> host.world == old(host.world)
    ensures host.faults == old(host.faults) ==>
              host.world == old(host.world).(vhdx := None, owner := None, pending := None, mount := false)
              && (ok <==> !old(host.world.clutter))
  {
    ghost var t := host.trace;
    ok := SameVHDX(host, record);
    if !ok { return; }
    ok := host.Namespace(host.world.(vhdx := None), UnlinkDisk);
    if !ok { return; }
    if committed {
      ok := host.Namespace(host.world.(owner := None), UnlinkOwner);
    } else {
      ok := host.Namespace(host.world.(pending := None), UnlinkPending);
    }
    if !ok { return; }
    ok := RemoveDirectories(host);
    TailInOrder(t, if committed then UnlinkOwner else UnlinkPending);
  }

  /** With no fault left, Remove takes down exactly the removable pools, and succeeds unless the root holds
      anything else, which it finds out last. Otherwise nothing durable changes before the VHDX goes. */
  method RemovePool(host: Host) returns (ok: bool)
    requires host.Recorded()
    modifies host`world, host`history, host`faults, host`trace, host`released
    ensures host.Extended()
    ensures ok ==> !Occupied(host.world)
    ensures old(host.faults) == 0 ==> (ok <==> old(Removable(host.world) && !host.world.clutter))
    ensures old(host.faults) == 0 && old(Removable(host.world)) ==>
              host.world == old(host.world).(vhdx := None, owner := None, mount := false)
    ensures host.world.vhdx == None && old(host.world.vhdx.Some?) ==> old(Removable(host.world))
    ensures host.world.vhdx.Some? ==> host.world.pending == old(host.world.pending) && host.world.owner == old(host.world.owner)
    ensures !old(Removable(AtRest(host.world))) ==> Refused(host)
    ensures host.Did(ok, TakeDownOps(UnlinkOwner))
  {
    if host.world.pending.Some? || !host.world.mount || host.world.owner == None || !Identified(host.world.owner.value) {
      return false;
    }
    var record := host.world.owner.value;
    ghost var t := host.trace;
    ok := SameVHDX(host, record);
    if !ok {
      return false;
    }
    ok := InspectMounted(host, record, Some(record));
    if !ok {
      return false;
    }
    ok := TakeDown(host, record, true);
    TakenDown(t, UnlinkOwner);
  }

  /** With no fault left, recovery takes down exactly the recoverable setups, and succeeds unless the root
      holds anything else. Whatever fails, it never deletes a VHDX whose durable contents hold a
      `pool.json`. */
  method RecoverIncompleteSetup(host: Host) returns (ok: bool)
    requires host.Recorded()
    modifies host`world, host`history, host`faults, host`trace, host`released
    ensures host.Extended()
    ensures ok ==> !Occupied(host.world)
    ensures old(host.faults) == 0 ==> (ok <==> old(Recoverable(host.world) && !host.world.clutter))
    ensures old(host.faults) == 0 && old(Recoverable(host.world)) ==>
              host.world == old(host.world).(vhdx := None, pending := None, mount := false)
    ensures host.world.vhdx == None && old(host.world.vhdx.Some?) ==> old(Recoverable(host.world)) && old(host.world.durable.pool) == None
    ensures host.world.vhdx.Some? ==> host.world.pending == old(host.world.pending) && host.world.owner == old(host.world.owner)
    ensures !old(Recoverable(AtRest(host.world))) ==> Refused(host)
    ensures host.Did(ok, TakeDownOps(UnlinkPending))
  {
    var w := host.world;
    if !w.mount || (w.owner.Some? && w.pending.Some?) {
      return false;
    }
    var selected := if w.owner.Some? then w.owner else w.pending;
    if selected == None || !Identified(selected.value) {
      return false;
    }
    ghost var t := host.trace;
    ok := SameVHDX(host, selected.value);
    if !ok {
      return false;
    }
    ok := InspectMounted(host, selected.value, None);
    if !ok {
      return false;
    }
    // An existing VHDX with an owner has its `pool.json`, so the record is the pending one.
    assert host.world.owner == None;
    ok := TakeDown(host, selected.value, false);
    TakenDown(t, UnlinkPending);
  }

  // ---------------------------------------------------------------- Setup

  /** The variables `Setup` shares with its deferred cleanup. `open` says that a mounted handle is held. */
  datatype Transaction = Transaction(
    createdVHDX: bool, identity: Option<nat>, open: bool, cleanupSafe: bool, cleanupUncertain: bool, committedOwner: bool)

  /** How the transaction variables describe the world before the owner is committed. `leaked` says that a
      failing creation left its file, of which the transaction knows nothing. */
  ghost predicate Tracks(w: World, tx: Transaction, token: nat, leaked: bool) {
    && !tx.committedOwner && w.mount && (w.owner.Some? ==> w.owner == w.pending)
    && (w.pending.Some? ==> w.pending.value.Record? && w.pending.value.token == token)
    && (tx.createdVHDX ==> w.vhdx.Some?) && (tx.identity.Some? ==> tx.createdVHDX && w.vhdx == tx.identity)
    && (leaked ==> !tx.createdVHDX && w.vhdx.Some? && w.owner == None && w.pending.Some?)
    && (w.vhdx.Some? ==> tx.createdVHDX || leaked)
    && (tx.open ==> w.mounted.Some?)
    && (tx.cleanupSafe ==> w.mounted == None)
  }

  /** With its pending record still in place and no owner yet. */
  ghost predicate Building(w: World, tx: Transaction, token: nat) {
    Tracks(w, tx, token, false) && w.pending.Some? && w.owner == None
  }

  const FRESH := Transaction(false, None, false, true, false, false)

  /** The operation at which a part of a command failed. */
  function Last(trace: seq<Op>): Op
    requires trace != []
  {
    trace[|trace| - 1]
  }

  /** The variables of `Setup` after a failure at `op`. A VHDX that was not identified is not removed; a mount
      that failed says whether it let the disk go; a detach that failed leaves it uncertain; behind any
      other operation on the mounted volume the cleanup has to detach first. */
  function At(op: Op, fileId: nat, released: bool, mounted: bool): Transaction {
    match op
    case CreateDisk => FRESH
    case IdentifyDisk => Transaction(true, None, false, false, false, false)
    case WriteTemporary(record) => Transaction(true, Some(fileId), record.Record? && record.volume.Some?, !(record.Record? && record.volume.Some?), false, false)
    case PublishRecord(record) => Transaction(true, Some(fileId), record.Record? && record.volume.Some?, !(record.Record? && record.volume.Some?), false, false)
    case MountVolume => Transaction(true, Some(fileId), false, released, false, false)
    case DetachVolume => Transaction(true, Some(fileId), mounted, false, true, false)
    case CheckDisk => Transaction(true, Some(fileId), false, true, false, false)
    case _ => Transaction(true, Some(fileId), true, false, false, false)
  }

  function RecordOps(record: Record): seq<Op> { [WriteTemporary(record), PublishRecord(record)] }

  function CreateOps(fileId: nat, token: nat): seq<Op> {
    [CreateDisk, IdentifyDisk] + RecordOps(Record(token, Some(fileId), None))
  }

  const PROBE_OPS := [MakeProbe, CloneProbe, RemoveProbe]

  function PoolFileOps(metadata: Record): seq<Op> { [WriteTemporaryPool, PublishPool(metadata)] + [ReadBack, FlushVolume] }

  function FillOps(metadata: Record): seq<Op> {
    [CheckVolume, MakeLayout] + (PROBE_OPS + (RecordOps(metadata) + PoolFileOps(metadata)))
  }

  function WriteOps(metadata: Record): seq<Op> { [MountVolume] + (FillOps(metadata) + [DetachVolume]) }

  const PROVE_OPS := [CheckDisk] + INSPECT_OPS

  function BuildOps(fileId: nat, token: nat, volumeId: nat): seq<Op> {
    CreateOps(fileId, token) + (WriteOps(Record(token, Some(fileId), Some(volumeId))) + PROVE_OPS)
  }

  const COMMIT_OPS := [LinkOwner, UnlinkPending, SyncOwner]

  function TransactionOps(fileId: nat, token: nat, volumeId: nat): seq<Op> {
    BuildOps(fileId, token, volumeId) + (COMMIT_OPS + [MeasureResidual])
  }

  /** Everything a successful setup does, in order. */
  function SetupOps(fileId: nat, token: nat, volumeId: nat): seq<Op> {
    [MakeMount, CheckMount, CreateRecord] + TransactionOps(fileId, token, volumeId)
  }

  /** `CreateDynamic`. The native call closes its handle last, so it can fail with the file in place. */
  method CreateDynamic(host: Host, fileId: nat) returns (ok: bool, ghost leaked: bool)
    requires host.Recorded() && host.world.vhdx == None && host.world.pending.Some? && host.world.owner == None
    requires host.world.mounted == None
    modifies host`world, host`history, host`faults, host`trace, host`released
    ensures host.Extended()
    ensures host.world == if ok || leaked then old(host.world).(vhdx := Some(fileId), durable := EMPTY) else old(host.world)
    ensures !(ok && leaked) && (leaked ==> host.creation != Clean) && (host.creation == Leaves ==> leaked)
    ensures !ok && host.creation != Leaves ==> host.faults < old(host.faults)
    ensures ok || host.creation == Leaves ==> host.faults == old(host.faults)
    ensures host.Did(ok, [CreateDisk])
    ensures host.trace == old(host.trace) + [CreateDisk]
  {
    var created := host.world.(vhdx := Some(fileId), durable := EMPTY);
    if host.creation == Leaves {
      host.Become(created);
      host.trace := host.trace + [CreateDisk];
      return false, true;
    }
    ok := host.Change(created, CreateDisk);
    leaked := false;
    var left: bool := *;
    if !ok && host.creation == MayLeave && left {
      host.Become(created);
      leaked := true;
    }
  }

  /** `writeJSONDurableAtomic` on the pending record: a temporary file in the root, renamed over it. After a
      failure its removal is tried once, and what comes of it is not looked at. */
  method UpdatePending(host: Host, record: Record) returns (ok: bool)
    requires host.Recorded() && host.world.pending.Some? && host.world.owner == None
    modifies host`world, host`history, host`faults, host`trace, host`released
    ensures host.Extended() && host.world == old(host.world).(pending := host.world.pending, clutter := host.world.clutter)
    ensures host.world.pending in {old(host.world.pending), Some(record)}
    ensures ok ==> host.world.pending == Some(record) && host.world.clutter == old(host.world.clutter)
    ensures !ok <==> host.faults < old(host.faults)
    ensures host.Did(ok, RecordOps(record))
    ensures !ok && host.faults + 1 == old(host.faults) ==> host.world.clutter == old(host.world.clutter)
    ensures |old(host.trace)| < |host.trace| && (!ok ==> Last(host.trace) in {WriteTemporary(record), PublishRecord(record)})
    ensures ok ==> host.history == old(host.history) + [old(host.world).(clutter := true)] + [host.world]
  {
    var before := host.world.clutter;
    ok := host.Write(host.world.(clutter := true), WriteTemporary(record));
    if ok {
      ok := host.Write(host.world.(pending := Some(record), clutter := before), PublishRecord(record));
    }
    if !ok && host.world.clutter != before {
      var removed := host.Namespace(host.world.(clutter := before), WriteTemporary(record));
    }
  }

  /** Creates the VHDX, learns its identity and records it in the pending owner. */
  method CreateVHDX(host: Host, fileId: nat, token: nat) returns (ok: bool, tx: Transaction, ghost leaked: bool)
    requires host.Recorded() && Building(host.world, FRESH, token) && host.world.mounted == None
    modifies host`world, host`history, host`faults, host`trace, host`released
    ensures host.Extended() && Tracks(host.world, tx, token, leaked) && host.world.owner == None && host.world.pending.Some?
    ensures ok ==> tx == Transaction(true, Some(fileId), false, false, false, false) && host.world.mounted == None
                   && !leaked && host.world.pending == Some(Record(token, Some(fileId), None))
                   && host.world.clutter == old(host.world.clutter)
    ensures leaked ==> !ok && tx == FRESH && host.creation != Clean
    ensures host.creation == Leaves ==> leaked && host.faults == old(host.faults)
    ensures !ok && host.creation != Leaves ==> host.faults < old(host.faults)
    ensures host.Did(ok, CreateOps(fileId, token))
    ensures host.world.volumeId == old(host.world.volumeId)
    ensures !ok ==> |old(host.trace)| < |host.trace| && tx == At(Last(host.trace), fileId, host.released, host.world.mounted.Some?)
  {
    tx := FRESH;
    ghost var t := host.trace;
    ok, leaked := CreateDynamic(host, fileId);
    if !ok { return; }
    tx := tx.(createdVHDX := true, cleanupSafe := false);
    var unidentified := host.Fails(IdentifyDisk);
    if unidentified {
      return false, tx, leaked;
    }
    tx := tx.(identity := Some(fileId), cleanupSafe := true);
    ok := UpdatePending(host, Record(token, Some(fileId), None));
    Associative(t, [CreateDisk, IdentifyDisk], RecordOps(Record(token, Some(fileId), None)));
    if ok {
      tx := tx.(cleanupSafe := false);
    }
  }

  /** First mount, layout, clone probe, identities, `pool.json` and its read-back, flush, detach. */
  method WriteVolume(host: Host, before: Transaction, fileId: nat, token: nat) returns (ok: bool, tx: Transaction, metadata: Record)
    requires host.Recorded() && Building(host.world, before, token) && host.world.mounted == None
    requires before == Transaction(true, Some(fileId), false, false, false, false)
    modifies host`world, host`history, host`faults, host`trace, host`released
    ensures host.Extended() && Building(host.world, tx, token)
    ensures metadata == Record(token, Some(fileId), Some(host.world.volumeId))
    ensures ok ==> tx == before.(cleanupSafe := true) && host.world.mounted == None && host.world.pending == Some(metadata)
                   && host.world.clutter == old(host.world.clutter)
    ensures ok && host.honestFlush ==> host.world.durable.pool == Some(metadata) && host.world.durable.layout
    ensures !ok ==> host.faults < old(host.faults)
    ensures host.Did(ok, WriteOps(metadata))
    ensures host.world.volumeId == old(host.world.volumeId)
    ensures !ok ==> |old(host.trace)| < |host.trace| && tx == At(Last(host.trace), fileId, host.released, host.world.mounted.Some?)
  {
    tx, metadata := before, Record(token, Some(fileId), Some(host.world.volumeId));
    var released;
    ghost var t := host.trace;
    ok, released := host.Mount();
    if !ok {
      tx := tx.(cleanupSafe := released);
      return;
    }
    tx := tx.(open := true);
    ok := FillVolume(host, metadata, token, tx);
    if !ok { return; }
    ok := host.Detach();
    if !ok {
      tx := tx.(cleanupUncertain := true, open := host.world.mounted.Some?);
      return;
    }
    tx := tx.(open := false, cleanupSafe := true);
    Associative(t + [MountVolume], FillOps(metadata), [DetachVolume]);
    Associative(t, [MountVolume], FillOps(metadata) + [DetachVolume]);
  }

  /** The operations on the mounted volume. */
  predicate FailsInside(op: Op, metadata: Record) {
    || op in {CheckVolume, MakeLayout, MakeProbe, RemoveProbe, ReadBack, FlushVolume, WriteTemporaryPool}
    || op in {WriteTemporary(metadata), PublishRecord(metadata), PublishPool(metadata)}
  }

  /** Layout, clone probe, the record with the volume's identity, and `pool.json`, on the mounted volume. */
  method FillVolume(host: Host, metadata: Record, token: nat, ghost tx: Transaction) returns (ok: bool)
    requires host.Recorded() && Building(host.world, tx, token) && tx.open
    requires metadata.Record? && metadata.token == token && metadata.volume.Some?
    modifies host`world, host`history, host`faults, host`trace, host`released
    ensures host.Extended() && Building(host.world, tx, token) && host.world.volumeId == old(host.world.volumeId)
    ensures ok ==> host.world.pending == Some(metadata) && host.world.clutter == old(host.world.clutter)
    ensures ok && host.honestFlush ==> host.world.durable == host.world.mounted.value
                                       && host.world.durable.pool == Some(metadata) && host.world.durable.layout
    ensures !ok ==> host.faults < old(host.faults)
    ensures host.Did(ok, FillOps(metadata))
    ensures !ok ==> |old(host.trace)| < |host.trace| && FailsInside(Last(host.trace), metadata)
  {
    ghost var t := host.trace;
    var unusable := host.Fails(CheckVolume);  // volume validation
    if unusable { return false; }
    ok := host.Write(host.world.(mounted := Some(host.world.mounted.value.(layout := true))), MakeLayout);
    if !ok { return; }
    ok := ProbeCloning(host, token, tx);
    if !ok { return; }
    ok := UpdatePending(host, metadata);
    if !ok { return; }
    ok := WritePoolFile(host, metadata, token, tx);
    Filled(t, metadata);
  }

  lemma Filled(t: seq<Op>, metadata: Record)
    ensures t + [CheckVolume] + [MakeLayout] + PROBE_OPS + RecordOps(metadata) + PoolFileOps(metadata) == t + FillOps(metadata)
  {
    var file, record := PoolFileOps(metadata), RecordOps(metadata);
    Associative(t, [CheckVolume, MakeLayout], PROBE_OPS + (record + file));
    Associative(t + [CheckVolume, MakeLayout], PROBE_OPS, record + file);
    Associative(t + [CheckVolume, MakeLayout] + PROBE_OPS, record, file);
    Associative(t, [CheckVolume], [MakeLayout]);
    assert [CheckVolume] + [MakeLayout] == [CheckVolume, MakeLayout];
  }

  /** `syntheticCloneProbe`: a probe directory comes and, unless the probe is interrupted, goes. */
  method ProbeCloning(host: Host, token: nat, ghost tx: Transaction) returns (ok: bool)
    requires host.Recorded() && Building(host.world, tx, token) && tx.open
    modifies host`world, host`history, host`faults, host`trace, host`released
    ensures host.Extended() && Building(host.world, tx, token) && host.world.volumeId == old(host.world.volumeId)
    ensures host.world.pending == old(host.world.pending) && host.world.vhdx == old(host.world.vhdx)
    ensures host.world.clutter == old(host.world.clutter)
    ensures host.world.mounted.value.layout == old(host.world.mounted.value.layout)
    ensures !ok ==> host.faults < old(host.faults)
    ensures host.Did(ok, PROBE_OPS)
    ensures !ok ==> |old(host.trace)| < |host.trace| && Last(host.trace) in {MakeProbe, RemoveProbe}
    ensures ok ==> host.world.mounted.value.probe == NoProbe
                   && host.history == old(host.history) + [old(host.world).(mounted := Some(old(host.world.mounted.value).(probe := Genuine)))] + [host.world]
  {
    ok := host.Write(host.world.(mounted := Some(host.world.mounted.value.(probe := Genuine))), MakeProbe);
    if !ok { return; }
    var failed := host.Fails(CloneProbe);
    var cleaned := host.Write(host.world.(mounted := Some(host.world.mounted.value.(probe := NoProbe))), RemoveProbe);
    ok := !failed && cleaned;
  }

  /** `writeJSONDurableAtomic` on `pool.json`: the temporary file may stay behind in the pool's root. */
  method PublishPoolFile(host: Host, metadata: Record, token: nat, ghost tx: Transaction) returns (ok: bool)
    requires host.Recorded() && Building(host.world, tx, token) && tx.open
    modifies host`world, host`history, host`faults, host`trace, host`released
    ensures host.Extended() && Building(host.world, tx, token)
    ensures host.world == old(host.world).(mounted := host.world.mounted)
    ensures var was, now := old(host.world.mounted.value), host.world.mounted.value;
            && now == was.(pool := now.pool, strays := now.strays) && now.pool in {was.pool, Some(metadata)}
            && (ok ==> now == was.(pool := Some(metadata)))
    ensures !ok <==> host.faults < old(host.faults)
    ensures host.Did(ok, [WriteTemporaryPool, PublishPool(metadata)])
    ensures !ok && host.faults + 1 == old(host.faults) ==> host.world.mounted.value.strays == old(host.world.mounted.value.strays)
    ensures |old(host.trace)| < |host.trace| && (!ok ==> Last(host.trace) in {WriteTemporaryPool, PublishPool(metadata)})
  {
    var was, w := host.world.mounted.value, host.world;
    ok := WriteAndRename(host, metadata);
    if !ok && host.world == w.(mounted := Some(was.(strays := true))) {
      var removed := host.Namespace(w, WriteTemporaryPool);
    }
  }

  /** The temporary file, and the rename that makes it `pool.json`. */
  method WriteAndRename(host: Host, metadata: Record) returns (ok: bool)
    requires host.Recorded() && host.world.mounted.Some? && host.world.owner == None && Owned(host.world)
    modifies host`world, host`history, host`faults, host`trace, host`released
    ensures host.Extended() && host.Did(ok, [WriteTemporaryPool, PublishPool(metadata)])
    ensures var was, done := old(host.world), old(host.world.mounted.value.(pool := Some(metadata)));
            host.world in {was, was.(mounted := Some(was.mounted.value.(strays := true))), was.(mounted := Some(done))}
    ensures ok ==> host.world.mounted == Some(old(host.world.mounted.value.(pool := Some(metadata))))
    ensures !ok ==> host.faults + 1 == old(host.faults)
    ensures |old(host.trace)| < |host.trace| && (!ok ==> Last(host.trace) in {WriteTemporaryPool, PublishPool(metadata)})
    ensures ok ==> host.history == old(host.history) + [old(host.world).(mounted := Some(old(host.world.mounted.value).(strays := true)))] + [host.world]
  {
    var was, w := host.world.mounted.value, host.world;
    ok := host.Write(w.(mounted := Some(was.(strays := true))), WriteTemporaryPool);
    if ok {
      ok := host.Write(w.(mounted := Some(was.(pool := Some(metadata)))), PublishPool(metadata));
    }
  }

  /** `pool.json` on the mounted volume, its read-back, and a flush that may promise more than it keeps. */
  method WritePoolFile(host: Host, metadata: Record, token: nat, ghost tx: Transaction) returns (ok: bool)
    requires host.Recorded() && Building(host.world, tx, token) && tx.open && host.world.pending == Some(metadata)
    requires host.world.mounted.value.layout
    modifies host`world, host`history, host`faults, host`trace, host`released
    ensures host.Extended() && Building(host.world, tx, token) && host.world.volumeId == old(host.world.volumeId)
    ensures host.world.clutter == old(host.world.clutter)
    ensures ok ==> host.world.pending == Some(metadata) && host.world.mounted.Some?
    ensures ok && host.honestFlush ==> host.world.durable == host.world.mounted.value
                                       && host.world.durable.pool == Some(metadata) && host.world.durable.layout
    ensures !ok ==> host.faults < old(host.faults)
    ensures host.Did(ok, PoolFileOps(metadata))
    ensures !ok ==> |old(host.trace)| < |host.trace| && Last(host.trace) in {WriteTemporaryPool, PublishPool(metadata), ReadBack, FlushVolume}
  {
    ghost var t := host.trace;
    ok := PublishPoolFile(host, metadata, token, tx);
    if !ok { return; }
    var differs := host.Fails(ReadBack);  // read-back, identity comparison, layout
    if differs { return false; }
    var kept: bool := *;
    if kept || host.honestFlush {
      host.Become(host.world.(durable := host.world.mounted.value));
    }
    var unflushed := host.Fails(FlushVolume);
    ok := !unflushed;
    Associative(t, [WriteTemporaryPool, PublishPool(metadata)], [ReadBack, FlushVolume]);
  }

  /** Reattaches and accepts the pool only if the contents that survived the detach equal the record. */
  method ProveDurable(host: Host, before: Transaction, metadata: Record, fileId: nat, token: nat) returns (ok: bool, tx: Transaction)
    requires host.Recorded() && Building(host.world, before, token) && before.cleanupSafe && !before.open
    requires before == Transaction(true, Some(fileId), false, true, false, false)
    requires host.world.vhdx.Some? && host.world.pending == Some(metadata)
    modifies host`world, host`history, host`faults, host`trace, host`released
    ensures host.Extended() && Building(host.world, tx, token)
    ensures ok ==> tx == before && host.world == old(host.world)
                   && host.world.durable.pool == Some(metadata) && host.world.durable.layout
    ensures !ok ==> host.faults < old(host.faults)
                    || old(host.world.durable.pool) != Some(metadata) || !old(host.world.durable.layout)
    ensures host.Did(ok, PROVE_OPS)
    ensures host.world.volumeId == old(host.world.volumeId)
    ensures !ok ==> |old(host.trace)| < |host.trace| && tx == At(Last(host.trace), fileId, host.released, host.world.mounted.Some?)
  {
    tx := before;
    var moved := host.Fails(CheckDisk);  // identity revalidation
    if moved { return false, tx; }
    tx := tx.(cleanupSafe := false);
    var released;
    ok, released := host.Mount();
    if !ok {
      tx := tx.(cleanupSafe := released);
      return;
    }
    tx := tx.(open := true);
    var unready := host.Fails(InspectPool);  // volume identity, readiness, residual measurement
    var contents := host.world.mounted.value;
    if unready || contents.pool != Some(metadata) || !contents.layout {
      return false, tx;
    }
    ok := host.Detach();
    if !ok {
      tx := tx.(cleanupUncertain := true, open := host.world.mounted.Some?);
      return;
    }
    tx := tx.(open := false, cleanupSafe := true);
  }

  /** `commitPendingOwner`: link, remove the pending name, sync; `linked` is its first result. `torn` says
      that the removal of the pending name took effect although it failed, `undone` that the rollback then
      removed the owner. */
  method CommitPendingOwner(host: Host, metadata: Record) returns (ok: bool, linked: bool, ghost torn: bool, ghost undone: bool)
    requires host.Recorded() && host.world.owner == None && host.world.pending == Some(metadata)
    requires host.world.vhdx.Some? && host.world.mounted == None && host.world.durable.pool == Some(metadata)
    modifies host`world, host`history, host`faults, host`loss, host`trace, host`released
    ensures host.Extended() && host.world == old(host.world).(owner := host.world.owner, pending := host.world.pending)
    ensures host.world.owner in {None, Some(metadata)} && host.world.pending in {None, Some(metadata)}
    ensures ok ==> linked && host.world.owner == Some(metadata) && host.world.pending == None
    ensures !host.tears ==> (linked <==> host.world.owner == Some(metadata)) && (!linked ==> host.world == old(host.world))
    ensures !linked && host.world.owner.Some? ==> host.world.pending.Some?
    ensures !ok ==> host.faults < old(host.faults)
    ensures torn || undone ==> host.tears
    ensures old(host.loss) == None ==> (host.loss.Some? <==> torn && undone) && (host.loss.Some? ==> host.loss.value.cause == TornCommit)
    ensures old(host.loss).Some? ==> host.loss == old(host.loss)
    ensures host.Did(ok, COMMIT_OPS)
    ensures !ok ==> |old(host.trace)| < |host.trace| && Last(host.trace) in {LinkOwner, UnlinkOwner, SyncOwner}
  {
    torn, undone := false, false;
    ok := host.Namespace(host.world.(owner := Some(metadata)), LinkOwner);
    if !ok {
      return false, false, torn, undone;
    }
    ok := host.Namespace(host.world.(pending := None), UnlinkPending);
    if !ok {
      torn := host.world.pending == None;
      var rolledBack := host.RemoveRecord(host.world.(owner := None), TornCommit, UnlinkOwner);
      undone := torn && host.world.owner == None;
      return false, !rolledBack, torn, undone;
    }
    var unsynced := host.Fails(SyncOwner);
    return !unsynced, true, torn, undone;
  }

  /** The deferred cleanup of a failed setup: close, then the VHDX it created, then its pending record,
      whose removal `dropped` reports, then the directories. After a leaked creation that record was the
      only one. */
  method CleanUp(host: Host, before: Transaction, token: nat, ghost leaked: bool) returns (ghost dropped: bool)
    requires host.Recorded() && (before.committedOwner || Tracks(host.world, before, token, leaked))
    requires before.committedOwner ==> !before.open && !leaked
    modifies host`world, host`history, host`faults, host`loss, host`trace, host`released
    ensures host.Extended() && host.world.owner == old(host.world.owner)
    ensures before.committedOwner ==> host.world == old(host.world) && !dropped
    ensures dropped ==> host.world.pending == None
    ensures leaked ==> host.world.vhdx == old(host.world.vhdx)
    ensures leaked && before == FRESH && host.faults == old(host.faults) ==> dropped
    ensures Undoable(before) && host.faults == old(host.faults)
            ==> host.world.pending == None && !host.world.mount && (!leaked ==> host.world.vhdx == None)
    ensures host.loss == old(host.loss)
            || (leaked && dropped && old(host.loss) == None && host.loss.Some? && host.loss.value.cause == LeakedCreation)
    ensures leaked && dropped ==> host.loss.Some?
  {
    dropped := false;
    var tx := before;
    if tx.open {
      var closed := host.Detach();
      if closed {
        tx := tx.(open := false);
        if !tx.cleanupUncertain { tx := tx.(cleanupSafe := true); }
      } else {
        tx := tx.(cleanupSafe := false);
      }
    }
    if !tx.committedOwner && tx.cleanupSafe {
      if tx.createdVHDX {
        var removed := RemoveCreated(host, tx, token);
        if !removed { return; }
      }
      dropped := DropPending(host, leaked);
    }
  }

  /** The end of the cleanup: the pending record, then the directories. */
  method DropPending(host: Host, ghost leaked: bool) returns (ghost dropped: bool)
    requires host.Recorded()
    requires host.world.vhdx.Some? ==> leaked
    requires leaked ==> host.world.vhdx.Some? && host.world.owner == None && host.world.pending.Some?
    modifies host`world, host`history, host`faults, host`loss, host`trace, host`released
    ensures host.Extended() && host.world == old(host.world).(pending := host.world.pending, mount := host.world.mount)
    ensures dropped ==> host.world.pending == None
    ensures host.faults == old(host.faults) ==> host.world.pending == None && !host.world.mount && (leaked ==> dropped)
    ensures if leaked && dropped && old(host.loss) == None then host.loss.Some? && host.loss.value.cause == LeakedCreation
            else host.loss == old(host.loss)
    ensures leaked && dropped ==> host.loss.Some?
    ensures host.world.pending.Some? ==> host.world.mount == old(host.world.mount)
  {
    dropped := false;
    if host.world.pending.Some? {
      var removed := host.RemoveRecord(host.world.(pending := None), LeakedCreation, UnlinkPending);
      dropped := host.world.pending == None;
      if !removed { return; }
    }
    var cleared := RemoveDirectories(host);
  }

  /** The created VHDX goes if it still has the recorded identity. */
  method RemoveCreated(host: Host, tx: Transaction, token: nat) returns (ok: bool)
    requires host.Recorded() && Tracks(host.world, tx, token, false) && tx.createdVHDX && tx.cleanupSafe
    modifies host`world, host`history, host`faults, host`trace, host`released
    ensures host.Extended() && host.world == old(host.world).(vhdx := host.world.vhdx)
    ensures ok ==> host.world.vhdx == None
    ensures !ok ==> host.faults < old(host.faults) || tx.identity == None
    ensures host.Did(ok, [CheckDisk, UnlinkDisk])
  {
    var unidentified := host.Fails(CheckDisk);
    if unidentified || tx.identity == None || host.world.vhdx != tx.identity {
      return false;
    }
    ok := host.Namespace(host.world.(vhdx := None), UnlinkDisk);
  }

  /** What the environment did in one setup that can cost a VHDX its record, the variables its cleanup found,
      and whether the cleanup met a failure. */
  datatype Outcomes = Outcomes(leaked: bool, dropped: bool, torn: bool, undone: bool, failed: Option<Transaction>, cleanupFailed: bool) {
    predicate Lossy() { (leaked && dropped) || (torn && undone) }
  }

  const QUIET := Outcomes(false, false, false, false, None, false)

  /** Up to the proof that the written volume is durable: nothing here costs a record or makes an owner. */
  method BuildVolume(host: Host, fileId: nat, token: nat)
    returns (ok: bool, tx: Transaction, metadata: Record, ghost leaked: bool)
    requires host.Recorded() && Building(host.world, FRESH, token) && host.world.mounted == None
    modifies host`world, host`history, host`faults, host`trace, host`released
    ensures host.Extended() && Tracks(host.world, tx, token, leaked)
    ensures host.world.owner == None && host.world.pending.Some?
    ensures ok ==> tx == Transaction(true, Some(fileId), false, true, false, false) && !leaked
                   && metadata == Record(token, Some(fileId), Some(host.world.volumeId))
                   && host.world.pending == Some(metadata) && host.world.vhdx == Some(fileId) && host.world.mounted == None
                   && host.world.durable.pool == Some(metadata) && host.world.durable.layout
                   && host.world.clutter == old(host.world.clutter)
    ensures !ok && host.honestFlush && host.creation != Leaves ==> host.faults < old(host.faults)
    ensures leaked ==> !ok && tx == FRESH && host.creation != Clean
    ensures host.creation == Leaves ==> leaked && host.faults == old(host.faults)
    ensures host.Did(ok, BuildOps(fileId, token, host.world.volumeId)) && host.world.volumeId == old(host.world.volumeId)
    ensures !ok ==> |old(host.trace)| < |host.trace| && tx == At(Last(host.trace), fileId, host.released, host.world.mounted.Some?)
  {
    metadata := Torn;
    ghost var t := host.trace;
    ok, tx, leaked := CreateVHDX(host, fileId, token);
    if !ok { return; }
    ok, tx, metadata := WriteVolume(host, tx, fileId, token);
    if !ok { return; }
    ok, tx := ProveDurable(host, tx, metadata, fileId, token);
    Associative(t + CreateOps(fileId, token), WriteOps(metadata), PROVE_OPS);
    Associative(t, CreateOps(fileId, token), WriteOps(metadata) + PROVE_OPS);
  }

  /** The transaction between the pending record and the committed owner. */
  method RunSetup(host: Host, fileId: nat, token: nat) returns (ok: bool, tx: Transaction, ghost seen: Outcomes)
    requires host.Recorded() && Building(host.world, FRESH, token) && host.world.mounted == None
    modifies host`world, host`history, host`faults, host`loss, host`trace, host`released
    ensures host.Extended() && !seen.dropped
    ensures tx.committedOwner ==> !tx.open && !seen.leaked && (!host.tears ==> host.world.owner.Some?)
    ensures !tx.committedOwner ==> Tracks(host.world, tx, token, seen.leaked) && !ok
    ensures ok ==> Committed(host.world, token, fileId) && host.world.clutter == old(host.world.clutter)
    ensures !ok && host.honestFlush && host.creation != Leaves ==> host.faults < old(host.faults)
    ensures seen.leaked ==> tx == FRESH && host.creation != Clean && host.world.owner == None
    ensures host.creation == Leaves ==> seen.leaked && host.faults == old(host.faults)
    ensures seen.torn || seen.undone ==> host.tears
    ensures old(host.loss) == None ==> (host.loss.Some? <==> seen.torn && seen.undone)
    ensures old(host.loss).Some? ==> host.loss == old(host.loss)
    ensures host.Did(ok, TransactionOps(fileId, token, host.world.volumeId)) && host.world.volumeId == old(host.world.volumeId)
    ensures seen.failed == None && !seen.cleanupFailed
    ensures !ok ==> |old(host.trace)| < |host.trace|
                    && (Last(host.trace) in {LinkOwner, UnlinkPending, UnlinkOwner, SyncOwner, MeasureResidual}
                        || tx == At(Last(host.trace), fileId, host.released, host.world.mounted.Some?))
  {
    seen := QUIET;
    ghost var t := host.trace;
    ghost var leaked, torn, undone;
    var metadata, linked;
    ok, tx, metadata, leaked := BuildVolume(host, fileId, token);
    seen := seen.(leaked := leaked);
    if !ok { return; }
    ok, linked, torn, undone := CommitPendingOwner(host, metadata);
    seen := seen.(torn := torn, undone := undone);
    tx := tx.(committedOwner := linked);
    if ok {
      var unmeasured := host.Fails(MeasureResidual);  // post-detach residual
      ok := !unmeasured;
      Associative(t + BuildOps(fileId, token, host.world.volumeId), COMMIT_OPS, [MeasureResidual]);
      Associative(t, BuildOps(fileId, token, host.world.volumeId), COMMIT_OPS + [MeasureResidual]);
    }
  }

  /** A pool that Setup may report: its owner names it and equals the durable `pool.json`. */
  ghost predicate Committed(w: World, token: nat, vhdx: nat) {
    && w.owner == Some(Record(token, Some(vhdx), Some(w.volumeId))) && w.pending == None
    && w.vhdx == Some(vhdx) && w.mount && w.mounted == None && w.durable.pool == w.owner && w.durable.layout
  }

  /** `prepareSetupRoot` on an empty root, and the token: the mount directory is there before any record,
      and no cleanup is registered yet. */
  method PrepareRoot(host: Host) returns (ok: bool)
    requires host.Recorded() && !Occupied(host.world)
    modifies host`world, host`history, host`faults, host`trace, host`released
    ensures host.Extended() && (!ok <==> host.faults < old(host.faults))
    ensures host.world == old(host.world).(mount := host.world.mount) && (ok ==> host.world.mount)
    ensures host.Did(ok, [MakeMount, CheckMount])
    ensures |old(host.trace)| < |host.trace| && Last(host.trace) in {MakeMount, CheckMount}
  {
    ok := host.Write(host.world.(mount := true), MakeMount);
    if !ok { return; }
    var unfit := host.Fails(CheckMount);  // reparse test, token
    ok := !unfit;
  }

  /** The exclusive creation of the pending record; a failure may leave it, readable or not, and leaves the
      mount directory. */
  method CreatePending(host: Host, token: nat) returns (ok: bool)
    requires host.Recorded() && !Entries(host.world) && host.world.mount && host.world.mounted == None
    modifies host`world, host`history, host`faults, host`trace, host`released
    ensures host.Extended() && (!ok <==> host.faults < old(host.faults))
    ensures ok ==> Building(host.world, FRESH, token)
    ensures host.world == old(host.world).(pending := host.world.pending)
    ensures host.Did(ok, [CreateRecord])
    ensures |old(host.trace)| < |host.trace| && Last(host.trace) == CreateRecord
  {
    ok := host.Write(host.world.(pending := Some(Record(token, None, None))), CreateRecord);
    var torn: bool := *;
    if !ok && host.world.pending == None && torn {
      host.Become(host.world.(pending := Some(Torn)));
    }
  }

  /** What the cleanup of a failed setup undoes completely, unless it fails itself: there is no owner yet, the
      VHDX is identified, and the disk is known to be detached or can be detached without doubt. */
  predicate Undoable(tx: Transaction) {
    !tx.committedOwner && (tx.createdVHDX ==> tx.identity.Some?) && (if tx.open then !tx.cleanupUncertain else tx.cleanupSafe)
  }

  /** Success means a committed, detached, durable pool; with an honest flush and no failure a setup on a
      clean host succeeds. It costs a VHDX its record if and only if a failing creation left the file and
      the cleanup then removed the pending record, or the commit lost both names. */
  method Setup(host: Host, fileId: nat, token: nat) returns (ok: bool, ghost seen: Outcomes)
    requires host.Recorded()
    modifies host`world, host`history, host`faults, host`loss, host`trace, host`released
    ensures host.Extended()
    ensures ok ==> Committed(host.world, token, fileId) && !host.world.clutter
    ensures old(Occupied(host.world)) ==> !ok && host.world == old(host.world) && seen == QUIET
    ensures !ok && host.honestFlush && host.creation != Leaves ==> host.faults < old(host.faults) || old(Occupied(host.world))
    ensures old(host.loss) == None ==> (AllOwned(host.history) <==> !seen.Lossy()) && (host.loss == None <==> !seen.Lossy())
    ensures old(host.loss).Some? ==> host.loss == old(host.loss)
    ensures (seen.leaked ==> host.creation != Clean) && (seen.torn ==> host.tears)
    ensures seen.leaked && seen.dropped ==> host.world.vhdx.Some? && host.world.pending == None && host.world.owner == None
    ensures host.creation == Leaves && old(!Occupied(host.world) && host.faults == 0) ==> seen.leaked && seen.dropped
    ensures host.Did(ok, SetupOps(fileId, token, host.world.volumeId))
    ensures !ok && !old(Occupied(host.world)) && seen.failed == None ==>
              |old(host.trace)| < |host.trace| && Last(host.trace) in {MakeMount, CheckMount, CreateRecord}
    ensures seen.failed.Some? && !seen.cleanupFailed && Undoable(seen.failed.value) ==>
              !ok && host.world.pending == None && !host.world.mount && (!seen.leaked ==> host.world.vhdx == None)
  {
    seen := QUIET;
    if Occupied(host.world) {
      return false, seen;
    }
    ghost var t := host.trace;
    ok := PrepareRoot(host);
    if !ok { return; }
    ok := CreatePending(host, token);
    if !ok { return; }
    var tx;
    ok, tx, seen := RunSetup(host, fileId, token);
    Associative(t, [MakeMount, CheckMount, CreateRecord], TransactionOps(fileId, token, host.world.volumeId));
    assert [MakeMount, CheckMount] + [CreateRecord] == [MakeMount, CheckMount, CreateRecord];
    Associative(t, [MakeMount, CheckMount], [CreateRecord]);
    if !ok {
      ghost var before := host.faults;
      ghost var dropped := CleanUp(host, tx, token, seen.leaked);
      seen := seen.(dropped := dropped, failed := Some(tx), cleanupFailed := host.faults < before);
    }
  }

  const BARE := World(None, 0, EMPTY, None, None, None, false, false)

  /** The failing case, run: on a bare host where creation fails with the file in place and nothing else
      fails, Setup leaves a VHDX without any record. */
  method LeakedCreationLosesRecord() returns (host: Host)
    ensures fresh(host) && host.Recorded() && !AllOwned(host.history)
    ensures host.world.vhdx.Some? && host.world.pending == None && host.world.owner == None
  {
    host := new Host(BARE, 0, true, Leaves, false);
    var ok, seen := Setup(host, 1, 1);
  }

  /** Another failing case, run: power is lost behind the first step of a setup. An empty mount directory is
      all there is, and every later command refuses it. */
  method MountDirectoryBlocksSetup() returns (host: Host)
    ensures fresh(host) && host.Recorded() && host.world == BARE.(mount := true) && Blocked(host.world)
  {
    host := new Host(BARE, 0, true, Clean, false);
    var ok := PrepareRoot(host);
    host.Crash();
  }

  function OpsOf(command: Command, volumeId: nat): seq<Op> {
    match command
    case DoSetup(fileId, token) => SetupOps(fileId, token, volumeId)
    case DoRemove => TakeDownOps(UnlinkOwner)
    case DoRecover => TakeDownOps(UnlinkPending)
  }

  method RunCommand(host: Host, command: Command) returns (ok: bool, ghost seen: Outcomes)
    requires host.Recorded()
    modifies host
    ensures host.Extended()
    ensures old(host.loss) == None ==> (host.loss == None <==> !seen.Lossy())
    ensures old(host.loss).Some? ==> host.loss == old(host.loss)
    ensures (seen.leaked ==> host.creation != Clean) && (seen.torn ==> host.tears)
    ensures old(Blocked(host.world)) ==> Refused(host)
    ensures host.begun == old(host.begun) + [command]
    ensures ok ==> host.trace == old(host.trace) + OpsOf(command, host.world.volumeId)
    ensures ok ==> if command.DoSetup? then Committed(host.world, command.token, command.fileId) else !Occupied(host.world)
  {
    seen := QUIET;
    host.begun := host.begun + [command];
    match command
    case DoSetup(fileId, token) =>
      ok, seen := Setup(host, fileId, token);
    case DoRemove => ok := RemovePool(host);
    case DoRecover => ok := RecoverIncompleteSetup(host);
  }

  ghost predicate NoneLossy(seen: seq<Outcomes>) {
    forall i :: 0 <= i < |seen| ==> !seen[i].Lossy()
  }

  /** Any sequence of commands, each failing anywhere and each possibly cut by a power loss at any world it
      reached, after which the next command finds what survived. The history stays good, and every VHDX in
      it has a record if and only if no setup was lossy: no failing creation left a file whose record the
      cleanup removed, and no commit lost both names. A setup cut before that point was not. */
  method RunCommands(host: Host, commands: seq<Command>) returns (ghost seen: seq<Outcomes>)
    requires host.Recorded()
    modifies host
    ensures host.Recorded() && old(host.history) <= host.history && |seen| == |commands|
    ensures old(AllOwned(host.history)) ==> (AllOwned(host.history) <==> NoneLossy(seen))
    ensures !old(AllOwned(host.history)) ==> !AllOwned(host.history)
    ensures host.creation == Clean && !host.tears ==> NoneLossy(seen)
    ensures host.begun == old(host.begun) + commands[..|commands|]
  {
    seen := [];
    for i := 0 to |commands|
      invariant host.begun == old(host.begun) + commands[..i]
      invariant host.Recorded() && old(host.history) <= host.history && |seen| == i
      invariant old(host.loss) == None ==> (host.loss == None <==> NoneLossy(seen))
      invariant old(host.loss).Some? ==> host.loss == old(host.loss)
      invariant host.creation == Clean && !host.tears ==> NoneLossy(seen)
    {
      ghost var before, loss, earlier := host.history, host.loss, seen;
      var from := |host.history|;
      var ok;
      ghost var outcome;
      ok, outcome := RunCommand(host, commands[i]);
      var powerLoss: bool := *;
      if powerLoss {
        host.PowerLoss(from);
        if host.loss == None {
          outcome := QUIET;
        }
      }
      seen := seen + [outcome];
      SeenSnoc(earlier, outcome);
      assert old(host.history) <= before;
      assert commands[..i + 1] == commands[..i] + [commands[i]];
    }
  }

  lemma SeenSnoc(seen: seq<Outcomes>, outcome: Outcomes)
    ensures NoneLossy(seen + [outcome]) <==> NoneLossy(seen) && !outcome.Lossy()
  {
    assert (seen + [outcome])[|seen|] == outcome;
    assert forall i :: 0 <= i < |seen| ==> (seen + [outcome])[i] == seen[i];
  }

  /** A world that no command accepts: something stands in the way of Setup, and neither removal nor
      recovery takes it down. */
  ghost predicate Blocked(w: World) {
    Occupied(w) && !Removable(AtRest(w)) && !Recoverable(AtRest(w)) && w.mounted in {None, Some(w.durable)}
  }

  /** Blocked is for ever: no sequence of commands changes anything but what is mounted. */
  method RunBlocked(host: Host, commands: seq<Command>)
    requires host.Recorded() && Blocked(host.world)
    modifies host
    ensures host.Recorded() && Blocked(host.world) && AtRest(host.world) == AtRest(old(host.world))
    ensures host.begun == old(host.begun) + commands[..|commands|]
  {
    for i := 0 to |commands|
      invariant host.begun == old(host.begun) + commands[..i]
      invariant host.Recorded() && Blocked(host.world) && AtRest(host.world) == AtRest(old(host.world))
    {
      var ok;
      ghost var outcome;
      ok, outcome := RunCommand(host, commands[i]);
      assert commands[..i + 1] == commands[..i] + [commands[i]];
      var crash: bool := *;
      if crash {
        host.Crash();
      }
    }
  }

  /** Which interrupted worlds are blocked: anything in the root without a VHDX, be it a record, the mount
      directory or a temporary file; a VHDX without record or mount directory; both records; an unreadable
      or incomplete record; `pool.json` without owner, or a stray entry beside it. */
  lemma BlockedWorlds(w: World)
    requires Sound(w) && Occupied(w) && w.mounted == None
    requires || (w.vhdx.Some? && w.pending == None && w.owner == None) || w.vhdx == None || (w.pending.Some? && w.owner.Some?)
             || (w.owner == None && !Identified(w.pending.value)) || (w.owner == None && w.durable.pool.Some?)
             || !w.mount || (w.owner == None && w.durable.strays)
    ensures Blocked(w)
  {
  }

  /** Once an owner exists, the VHDX it names existed and held the same durable `pool.json` when it was
      linked: looking back from any state with an owner, some earlier step linked it under that proof, or
      the history began with it. */
  lemma {:induction false} OwnerWasProved(history: seq<World>, j: nat)
    requires Good(history) && j < |history| && history[0].owner == None && history[j].owner.Some?
    ensures exists i :: 0 <= i < j && LinkedAt(history, i)
  {
    if history[j - 1].owner.Some? {
      OwnerWasProved(history, j - 1);
    } else {
      assert Legal(history[j - 1], history[j]);
      assert LinkedAt(history, j - 1);
    }
  }

  ghost predicate LinkedAt(history: seq<World>, i: nat)
    requires i + 1 < |history|
  {
    var a, b := history[i], history[i + 1];
    a.owner == None && b.owner.Some? && b.owner == a.pending && a.durable.pool == b.owner && a.vhdx.Some? && a.mounted == None
  }
}
