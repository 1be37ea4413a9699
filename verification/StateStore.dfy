/**
 The file-backed risk state: cached contents, reload detection by modification time and size, and saves through
 a temporary file and a rename (internal/riskcontrol/state_store.go).
 */
module StateStore {
  import opened Basics

  datatype Persisted = Persisted(updatedAtMS: int,
                                 lastIntentMS: map<string, int>,
                                 fails: map<string, int>,
                                 cooldownUntilMS: map<string, int>,
                                 rejectReason: map<string, string>)

  const EMPTY := Persisted(0, map[], map[], map[], map[])

  /** What `os.Stat` tells about the file. */
  datatype Meta = Meta(modTime: int, size: int)

  datatype File = File(meta: Meta, contents: Persisted)

  /**
   How the system calls of one operation turn out: the load may fail to stat, read or decode; the save may fail
   before its rename has taken effect; the stat after the rename may fail.
   */
  datatype Io = Io(statOk: bool, readOk: bool, decodeOk: bool, renamed: bool, restatOk: bool, newMeta: Meta) {
    predicate LoadOk() {
      statOk && readOk && decodeOk
    }
  }

  /** The store's memory together with the file it is backed by. */
  datatype World = World(state: Persisted, cached: Option<Meta>, disk: Option<File>)

  datatype Mutation =
    | SetLastIntent(key: string, tsMS: int)
    | SetRejectReason(key: string, reason: string)
    | RecordSuccess(key: string)
    | RecordFailure(key: string, threshold: int, cooldownForMS: int)

  function Mutate(s: Persisted, m: Mutation, now: int): Persisted {
    match m
    case SetLastIntent(key, tsMS) => s.(lastIntentMS := s.lastIntentMS[key := tsMS])
    case SetRejectReason(key, reason) => s.(rejectReason := s.rejectReason[key := reason])
    case RecordSuccess(key) => s.(fails := s.fails[key := 0])
    case RecordFailure(key, threshold, cooldownForMS) =>
      var n := Get(s.fails, key) + 1;
      s.(fails := s.fails[key := n],
         cooldownUntilMS := if threshold > 0 && n >= threshold && cooldownForMS > 0
                            then s.cooldownUntilMS[key := now + cooldownForMS] else s.cooldownUntilMS)
  }

  /** What the store remembers about the file is what the file is. */
  predicate InSync(w: World) {
    w.cached == if w.disk.Some? then Some(w.disk.value.meta) else None
  }

  /** A load has nothing to read: there is no file, or it is the one that is remembered. */
  predicate Settled(w: World) {
    w.disk.None? || InSync(w)
  }

  function Load(w: World, io: Io): World {
    if !io.statOk then w
    else if w.disk.None? then (if w.cached.Some? then w.(cached := None, state := EMPTY) else w)
    else if w.cached == Some(w.disk.value.meta) || !io.readOk || !io.decodeOk then w
    else w.(cached := Some(w.disk.value.meta), state := w.disk.value.contents)
  }

  function Save(w: World, now: int, io: Io): World {
    var state := w.state.(updatedAtMS := now);
    if !io.renamed then w.(state := state)
    else World(state, if io.restatOk then Some(io.newMeta) else w.cached, Some(File(io.newMeta, state)))
  }

  /** Every mutating method loads, changes one entry, and saves. */
  function Operate(w: World, m: Mutation, now: int, io: Io): World {
    var loaded := Load(w, io);
    Save(loaded.(state := Mutate(loaded.state, m, now)), now, io)
  }

  /**
   A recorded failure adds one, and from a positive threshold on it starts a cooldown of positive length at that time.
   */
  lemma FailureMutation(s: Persisted, key: string, threshold: int, cooldownForMS: int, now: int)
    ensures var s' := Mutate(s, RecordFailure(key, threshold, cooldownForMS), now);
            var n := Get(s.fails, key) + 1;
            && s'.fails == s.fails[key := n] && s'.lastIntentMS == s.lastIntentMS && s'.rejectReason == s.rejectReason
            && (1 <= threshold <= n && 1 <= cooldownForMS ==>
                  s'.cooldownUntilMS == s.cooldownUntilMS[key := now + cooldownForMS])
            && (threshold < 1 || n < threshold || cooldownForMS < 1 ==> s'.cooldownUntilMS == s.cooldownUntilMS)
  {
  }

  /**
   A load never touches the file. If nothing fails it leaves the store in sync, with the file's contents if it had not
   been read in this version, and with an empty state if a file that had been read is gone; a second one does nothing.
   */
  lemma LoadSettles(w: World, io: Io)
    ensures var w' := Load(w, io);
            && w'.disk == w.disk
            && (io.LoadOk() ==>
                  && InSync(w') && Load(w', io) == w'
                  && (w.disk.Some? && w.cached != Some(w.disk.value.meta) ==> w'.state == w.disk.value.contents)
                  && (w.disk.None? && w.cached.Some? ==> w'.state == EMPTY)
                  && (InSync(w) ==> w' == w))
            && (!io.statOk ==> w' == w)
            && (w.disk.Some? && !io.LoadOk() ==> w' == w)
  {
  }

  class Disk {
    var file: Option<File>

    constructor (file: Option<File>)
      ensures this.file == file
    {
      this.file := file;
    }
  }

  class RiskStateStore {
    const disk: Disk
    var state: Persisted
    var lastExists: bool
    var lastMeta: Meta

    /** A new store has read nothing yet, whether or not the file exists. */
    constructor (disk: Disk)
      ensures this.disk == disk && Current() == World(EMPTY, None, disk.file)
    {
      this.disk := disk;
      state, lastExists, lastMeta := EMPTY, false, Meta(ZERO_TIME, 0);
    }

    function Current(): World
      reads this, disk
    {
      World(state, if lastExists then Some(lastMeta) else None, disk.file)
    }

    method LoadIfChanged(io: Io) returns (changed: bool, ok: bool)
      modifies this
      ensures Current() == Load(old(Current()), io)
      ensures ok <==> io.statOk && (Settled(old(Current())) || (io.readOk && io.decodeOk))
      ensures changed <==>
              && ok && !InSync(old(Current()))
              && (disk.file.None? || old(!lastExists || state != disk.file.value.contents))
    {
      changed, ok := false, true;
      if !io.statOk {
        ok := false;
      } else if disk.file.None? {
        if lastExists {
          state, lastExists, lastMeta := EMPTY, false, Meta(ZERO_TIME, 0);
          changed := true;
        }
      } else {
        var meta := disk.file.value.meta;
        if lastExists && meta.modTime == lastMeta.modTime && meta.size == lastMeta.size {
          return;
        }
        if !io.readOk || !io.decodeOk {
          ok := false;
          return;
        }
        var next := disk.file.value.contents;
        changed := !lastExists || state != next;
        state, lastExists, lastMeta := next, true, meta;
      }
    }

    method SaveNow(now: int, io: Io) returns (ok: bool)
      modifies this, disk
      ensures Current() == Save(old(Current()), now, io)
      ensures ok == io.renamed
    {
      state := state.(updatedAtMS := now);
      if !io.renamed {
        return false;
      }
      disk.file := Some(File(io.newMeta, state));
      if io.restatOk {
        lastExists, lastMeta := true, io.newMeta;
      }
      ok := true;
    }

    method GetCooldownUntilMS(key: string, io: Io) returns (until: int)
      modifies this
      ensures Current() == Load(old(Current()), io) && until == Get(state.cooldownUntilMS, key)
    {
      var _, _ := LoadIfChanged(io);
      until := Get(state.cooldownUntilMS, key);
    }

    method GetConsecutiveFails(key: string, io: Io) returns (n: int)
      modifies this
      ensures Current() == Load(old(Current()), io) && n == Get(state.fails, key)
    {
      var _, _ := LoadIfChanged(io);
      n := Get(state.fails, key);
    }

    method GetLastIntentMS(key: string, io: Io) returns (tsMS: int)
      modifies this
      ensures Current() == Load(old(Current()), io) && tsMS == Get(state.lastIntentMS, key)
    {
      var _, _ := LoadIfChanged(io);
      tsMS := Get(state.lastIntentMS, key);
    }

    method SetLastIntentMS(now: int, key: string, tsMS: int, io: Io) returns (ok: bool)
      modifies this, disk
      ensures Current() == Operate(old(Current()), SetLastIntent(key, tsMS), now, io) && ok == io.renamed
    {
      var _, _ := LoadIfChanged(io);
      state := state.(lastIntentMS := state.lastIntentMS[key := tsMS]);
      ok := SaveNow(now, io);
    }

    method SetLastRejectReason(now: int, key: string, reason: string, io: Io) returns (ok: bool)
      modifies this, disk
      ensures Current() == Operate(old(Current()), SetRejectReason(key, reason), now, io) && ok == io.renamed
    {
      var _, _ := LoadIfChanged(io);
      state := state.(rejectReason := state.rejectReason[key := reason]);
      ok := SaveNow(now, io);
    }

    method NoteSuccess(now: int, key: string, io: Io) returns (ok: bool)
      modifies this, disk
      ensures Current() == Operate(old(Current()), RecordSuccess(key), now, io) && ok == io.renamed
    {
      var _, _ := LoadIfChanged(io);
      state := state.(fails := state.fails[key := 0]);
      ok := SaveNow(now, io);
    }

    method NoteFailure(now: int, key: string, threshold: int, cooldownForMS: int, io: Io)
      returns (cooldownUntilMS: int, failCount: int, ok: bool)
      modifies this, disk
      ensures Current() == Operate(old(Current()), RecordFailure(key, threshold, cooldownForMS), now, io)
      ensures failCount == Get(state.fails, key) && ok == io.renamed
      ensures cooldownUntilMS ==
              if threshold > 0 && failCount >= threshold && cooldownForMS > 0 then now + cooldownForMS else 0
    {
      var _, _ := LoadIfChanged(io);
      failCount := Get(state.fails, key) + 1;
      cooldownUntilMS := 0;
      state := state.(fails := state.fails[key := failCount]);
      if threshold > 0 && failCount >= threshold && cooldownForMS > 0 {
        var until := now + cooldownForMS;
        state := state.(cooldownUntilMS := state.cooldownUntilMS[key := until]);
        cooldownUntilMS := until;
      }
      ok := SaveNow(now, io);
    }
  }

  // ---------------------------------------------------------------- nothing is lost

  /** Reloading would not change the state. */
  predicate Recoverable(w: World) {
    InSync(w) || (w.disk.Some? && w.disk.value.contents == w.state)
  }

  datatype Op = Op(mutation: Mutation, now: int, io: Io)

  function Run(w: World, ops: seq<Op>): World {
    if ops == [] then w else
      var op := ops[|ops| - 1];
      Operate(Run(w, ops[..|ops| - 1]), op.mutation, op.now, op.io)
  }

  /** All mutations applied in order, with no file at all. */
  function Applied(s: Persisted, ops: seq<Op>): Persisted {
    if ops == [] then s else
      var op := ops[|ops| - 1];
      Mutate(Applied(s, ops[..|ops| - 1]), op.mutation, op.now).(updatedAtMS := op.now)
  }

  lemma OperateKeeps(w: World, m: Mutation, now: int, io: Io)
    requires Recoverable(w)
    requires io.renamed || io.LoadOk() || InSync(w)
    ensures var w' := Operate(w, m, now, io);
            && Recoverable(w')
            && w'.state == Mutate(w.state, m, now).(updatedAtMS := now)
            && w'.disk == (if io.renamed then Some(File(io.newMeta, w'.state)) else w.disk)
            && (InSync(w) && (io.renamed ==> io.restatOk) ==> InSync(w'))
  {
  }

  /** The state on disk after the last save that got through. */
  function LastSaved(w: World, ops: seq<Op>): Option<Persisted> {
    if ops == [] then (if w.disk.Some? then Some(w.disk.value.contents) else None)
    else if ops[|ops| - 1].io.renamed then Some(Applied(w.state, ops))
    else LastSaved(w, ops[..|ops| - 1])
  }

  ghost predicate NoDoubleFault(w: World, ops: seq<Op>) {
    forall k :: 0 <= k < |ops| ==> ops[k].io.renamed || ops[k].io.LoadOk() || InSync(Run(w, ops[..k]))
  }

  /**
   As long as no operation both fails to load a changed file and fails to save, every mutation applied so far is
   in memory, and the file holds exactly the state of the last save that got through.
   */
  lemma {:induction false} NoUpdateIsLost(w: World, ops: seq<Op>)
    requires Recoverable(w) && NoDoubleFault(w, ops)
    ensures Recoverable(Run(w, ops))
    ensures Run(w, ops).state == Applied(w.state, ops)
    ensures LastSaved(w, ops) == if Run(w, ops).disk.Some? then Some(Run(w, ops).disk.value.contents) else None
  {
    if ops != [] {
      var init, op := ops[..|ops| - 1], ops[|ops| - 1];
      forall k | 0 <= k < |init| ensures init[k].io.renamed || init[k].io.LoadOk() || InSync(Run(w, init[..k])) {
        assert init[..k] == ops[..k] && init[k] == ops[k];
      }
      NoUpdateIsLost(w, init);
      OperateKeeps(Run(w, init), op.mutation, op.now, op.io);
    }
  }

  /**
   In particular, a single writer whose stat after each rename succeeds loses nothing to failed saves or failed
   loads, and a fresh store on the same file reads back the state of the last successful save.
   */
  lemma {:induction false} SingleWriterKeepsAll(w: World, ops: seq<Op>, io: Io)
    requires InSync(w) && forall k :: 0 <= k < |ops| ==> (ops[k].io.renamed ==> ops[k].io.restatOk)
    requires io.LoadOk()
    ensures InSync(Run(w, ops)) && Run(w, ops).state == Applied(w.state, ops)
    ensures Load(World(EMPTY, None, Run(w, ops).disk), io).state ==
            if LastSaved(w, ops).Some? then LastSaved(w, ops).value else EMPTY
  {
    if ops != [] {
      var init, op := ops[..|ops| - 1], ops[|ops| - 1];
      assert forall k :: 0 <= k < |init| ==> init[k] == ops[k];
      SingleWriterKeepsAll(w, init, io);
      OperateKeeps(Run(w, init), op.mutation, op.now, op.io);
    }
  }

  /**
   The double fault does lose an update: with a changed file that could not be loaded and a save that did not get
   through, the next good load brings back the state from before the operation.
   */
  lemma DoubleFaultLosesUpdate(w: World, m: Mutation, now: int, io: Io, next: Io)
    requires Recoverable(w) && !InSync(w) && w.disk.Some?
    requires !io.LoadOk() && !io.renamed && next.LoadOk()
    ensures Load(Operate(w, m, now, io), next).state == w.state
  {
  }

  /** Such a state is reached by one failed stat after a rename, for a file whose metadata changed. */
  lemma FailedRestatLeavesSync(w: World, m: Mutation, now: int, io: Io)
    requires InSync(w) && io.renamed && !io.restatOk
    ensures var w' := Operate(w, m, now, io);
            Recoverable(w') && w'.disk.Some? && (InSync(w') <==> w.disk.Some? && w.disk.value.meta == io.newMeta)
  {
  }
}
