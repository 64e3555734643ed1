/**
 The encrypted volume of one H1 attempt. Every host command may succeed, fail, or fail after
 taking effect (a timeout), and every inspection of the host may fail; cleanup may be called
 again and again. `Host` is what the machine looks like, the class is the program that has
 to stay honest about it.
 */
module AttemptVolume {
  import opened Wrappers

  datatype Swap = Swap(path: string, priority: int)

  const SWAPS := [Swap("/www/swap", -2), Swap("/swapfile-stage9", -3)]
  const DISABLED := "|/bin/false"
  const DISABLING := "|/bin/false\n"

  datatype Keyslot = Keyslot(number: int, key: seq<int>)

  /** The backing file: its identity, whether it holds a LUKS header, and the keyslots in that header. */
  datatype Backing = Backing(id: int, header: bool, keyslots: seq<Keyslot>)

  function Numbers(slots: seq<Keyslot>): seq<int> { seq(|slots|, i requires 0 <= i < |slots| => slots[i].number) }

  function KeyslotsFor(key: seq<int>, numbers: seq<int>): seq<Keyslot> {
    seq(|numbers|, i requires 0 <= i < |numbers| => Keyslot(numbers[i], key))
  }

  /** Some keyslot yields to the key. */
  predicate Opens(b: Backing, key: seq<int>) {
    exists i :: 0 <= i < |b.keyslots| && b.keyslots[i].key == key
  }

  /** What a trial of a key says: a header without keyslots answers differently from one with other keys. */
  datatype KeyAnswer = Accepted | NoKeyFits | NoUsableKeyslot

  function AnswerTo(b: Backing, key: seq<int>): KeyAnswer {
    if Opens(b, key) then Accepted else if b.keyslots != [] then NoKeyFits else NoUsableKeyslot
  }

  /** `residue` is what the disk blocks of an unlinked backing file held when it was unlinked. */
  datatype Host = Host(
    swaps: seq<Swap>, core: string,
    backing: Option<Backing>, residue: Option<Backing>,
    loop: bool, mapper: bool, filesystem: bool, directory: Option<int>, mounted: bool)

  /** Priorities are the kernel's business: the swap list after a swap command is arbitrary. */
  datatype Command =
    | SwapOff(path: string, after: seq<Swap>)
    | SwapOn(path: string, after: seq<Swap>)
    | WriteCore(text: string)
    | CreateBacking(id: int)
    | LuksFormat(key: seq<int>, numbers: seq<int>)
    | LuksOpen(key: seq<int>)
    | MakeFilesystem
    | MakeDirectory(id: int)
    | Mount
    | Unmount
    | LuksClose(detached: bool)
    | LuksErase
    | RemoveDirectory
    | Unlink

  predicate Enabled(h: Host, c: Command) {
    match c
    case SwapOff(_, _) => true
    case SwapOn(_, _) => true
    case WriteCore(_) => true
    case CreateBacking(_) => h.backing.None?
    case LuksFormat(_, _) => h.backing.Some? && !h.mapper
    case LuksOpen(key) => h.backing.Some? && h.backing.value.header && Opens(h.backing.value, key) && !h.mapper
    case MakeFilesystem => h.mapper && !h.mounted
    case MakeDirectory(_) => h.directory.None?
    case Mount => h.mapper && h.filesystem && h.directory.Some? && !h.mounted
    case Unmount => h.mounted
    case LuksClose(_) => h.mapper && !h.mounted
    case LuksErase => h.backing.Some? && h.backing.value.header
    case RemoveDirectory => h.directory.Some? && !h.mounted
    case Unlink => h.backing.Some?
  }

  function Effect(h: Host, c: Command): Host
    requires Enabled(h, c)
  {
    match c
    case SwapOff(_, after) => h.(swaps := after)
    case SwapOn(_, after) => h.(swaps := after)
    case WriteCore(text) => h.(core := text)
    case CreateBacking(id) => h.(backing := Some(Backing(id, false, [])), filesystem := false)
    case LuksFormat(key, numbers) =>
      h.(backing := Some(h.backing.value.(header := true, keyslots := KeyslotsFor(key, numbers))))
    case LuksOpen(_) => h.(mapper := true, loop := true)
    case MakeFilesystem => h.(filesystem := true)
    case MakeDirectory(id) => h.(directory := Some(id))
    case Mount => h.(mounted := true)
    case Unmount => h.(mounted := false)
    case LuksClose(detached) => h.(mapper := false, loop := h.loop && !detached)
    case LuksErase => h.(backing := Some(h.backing.value.(keyslots := [])))
    case RemoveDirectory => h.(directory := None)
    case Unlink => h.(backing := None, residue := h.backing)
  }

  function Without(swaps: seq<Swap>, path: string): seq<Swap> {
    if swaps == [] then []
    else if swaps[0].path == path then Without(swaps[1..], path)
    else [swaps[0]] + Without(swaps[1..], path)
  }

  /** The kernel gives descending negative priorities in the order in which swaps are turned on. */
  function TurnedOn(swaps: seq<Swap>, path: string): seq<Swap> { swaps + [Swap(path, -2 - |swaps|)] }

  predicate OnRecord(h: Host, owned: Option<int>) { h.backing.Some? && owned == Some(h.backing.value.id) }

  /** What is attached is the volume on record, and the mount directory made for it is in place. */
  predicate Dismantlable(h: Host, owned: Option<int>, mountOwned: Option<int>) {
    && OnRecord(h, owned)
    && (h.mounted || h.mapper ==> h.backing.value.header && h.mapper && h.loop)
    && (h.loop ==> h.mapper)
    && (mountOwned.Some? ==> h.directory == mountOwned)
  }

  /** What is attached is the volume on record, and no directory but the one made for it is in the way. */
  predicate Destroyable(h: Host, owned: Option<int>, mountOwned: Option<int>) {
    Dismantlable(h, owned, mountOwned) && (h.directory.Some? ==> h.directory == mountOwned)
  }

  /** The swaps to be turned on again. */
  function Missing(stopped: seq<Swap>, active: seq<Swap>): seq<Swap> {
    if stopped == [] then []
    else
      var n := |stopped| - 1;
      Missing(stopped[..n], active) + (if stopped[n] in active then [] else [stopped[n]])
  }

  function AllOn(swaps: seq<Swap>, missing: seq<Swap>): seq<Swap> {
    if missing == [] then swaps else TurnedOn(AllOn(swaps, missing[..|missing| - 1]), missing[|missing| - 1].path)
  }

  /** The commands turn on the first of the swaps, in order. */
  predicate TurnsOnInOrder(commands: seq<Command>, swaps: seq<Swap>) {
    && |commands| <= |swaps|
    && forall i :: 0 <= i < |commands| ==> commands[i].SwapOn? && commands[i].path == swaps[i].path
  }

  lemma NoneMissing(active: seq<Swap>, swaps: seq<Swap>)
    ensures Missing([], active) == [] && AllOn(swaps, []) == swaps && TurnsOnInOrder([], Missing([], active))
    ensures forall stopped :: TurnsOnInOrder([], Missing(stopped, active))
  {
  }

  lemma OneMoreMissing(stopped: seq<Swap>, i: nat, active: seq<Swap>, swaps: seq<Swap>)
    requires i < |stopped|
    ensures var before, after := Missing(stopped[..i], active), Missing(stopped[..i + 1], active);
      && (if stopped[i] in active then after == before else after == before + [stopped[i]])
      && (stopped[i] !in active ==> AllOn(swaps, after) == TurnedOn(AllOn(swaps, before), stopped[i].path))
      && after <= Missing(stopped, active)
  {
    assert stopped[..i + 1][..i] == stopped[..i];
    var before, after := Missing(stopped[..i], active), Missing(stopped[..i + 1], active);
    if stopped[i] !in active { assert after[..|after| - 1] == before; }
    MissingGrows(stopped, i + 1, active);
  }

  lemma {:induction false} MissingGrows(stopped: seq<Swap>, i: nat, active: seq<Swap>)
    requires i <= |stopped|
    ensures Missing(stopped[..i], active) <= Missing(stopped, active)
    decreases |stopped|
  {
    if i < |stopped| {
      MissingGrows(stopped[..|stopped| - 1], i, active);
      assert stopped[..|stopped| - 1][..i] == stopped[..i];
    } else {
      assert stopped[..i] == stopped;
    }
  }

  lemma OneMoreTurnsOn(commands: seq<Command>, c: Command, swaps: seq<Swap>)
    requires TurnsOnInOrder(commands, swaps) && |commands| < |swaps|
    requires c.SwapOn? && c.path == swaps[|commands|].path
    ensures TurnsOnInOrder(commands + [c], swaps)
  {
  }

  lemma OneMoreAttempt(before: seq<Command>, after: seq<Command>, n: nat)
    requires |after| == |before| + 1 && after[..|before|] == before && n <= |before|
    ensures after[n..] == before[n..] + [after[|before|]] && after[..n] == before[..n]
  {
  }

  /** The swaps a machine may have. */
  predicate SwapsKnown(swaps: seq<Swap>) { swaps == [] || swaps == SWAPS }

  lemma StopsTheNext(swaps: seq<Swap>, i: nat)
    requires SwapsKnown(swaps) && i < |swaps|
    ensures Without(swaps[i..], swaps[i].path) == swaps[i + 1..]
  {
    assert i == 0 || i == 1;
    assert SWAPS[1..][1..] == [];
  }

  /** A machine on which an attempt can be prepared. */
  predicate CleanMachine(h: Host) {
    SwapsKnown(h.swaps) && h.backing.None? && h.directory.None? && !h.mapper && !h.mounted
  }

  /** What a command comes to when nothing goes wrong in the world. */
  predicate Regular(h: Host, c: Command) {
    match c
    case SwapOff(path, after) => after == Without(h.swaps, path)
    case SwapOn(path, after) => after == TurnedOn(h.swaps, path)
    case LuksFormat(_, numbers) => numbers == [0]
    case LuksClose(detached) => detached
    case _ => true
  }

  /** Whatever the command, nothing need go wrong with it. */
  lemma EveryCommandHasARegularOutcome(h: Host, c: Command)
    ensures match c
      case SwapOff(path, _) => exists after :: Regular(h, SwapOff(path, after))
      case SwapOn(path, _) => exists after :: Regular(h, SwapOn(path, after))
      case LuksFormat(key, _) => exists numbers :: Regular(h, LuksFormat(key, numbers))
      case LuksClose(_) => exists detached :: Regular(h, LuksClose(detached))
      case _ => Regular(h, c)
  {
    match c
    case SwapOff(path, _) => assert Regular(h, SwapOff(path, Without(h.swaps, path)));
    case SwapOn(path, _) => assert Regular(h, SwapOn(path, TurnedOn(h.swaps, path)));
    case LuksFormat(key, _) => assert Regular(h, LuksFormat(key, [0]));
    case LuksClose(_) => assert Regular(h, LuksClose(true));
    case _ =>
  }

  /** Nothing of the volume is left attached or named. */
  predicate Gone(h: Host) {
    !h.mounted && !h.mapper && !h.loop && h.backing.None? && h.directory.None?
  }

  /** If the unlinked file held a LUKS header, no keyslot was left in it, so no key opens it. */
  predicate Erased(h: Host) {
    h.residue.Some? && (h.residue.value.header ==> h.residue.value.keyslots == [])
  }

  /** Whatever key is tried on the header that was left, there is no usable keyslot. */
  ghost predicate YieldsToNoKey(h: Host) {
    h.residue.Some? && h.residue.value.header ==>
      forall key :: AnswerTo(h.residue.value, key).NoUsableKeyslot? && !Opens(h.residue.value, key)
  }

  lemma ErasedYieldsToNoKey(h: Host)
    requires Erased(h)
    ensures YieldsToNoKey(h)
  {
    forall key | h.residue.value.header
      ensures AnswerTo(h.residue.value, key).NoUsableKeyslot? && !Opens(h.residue.value, key)
    {
    }
  }

  function StripLeft(s: string): string {
    if s != "" && s[0] in " \t\n\r" then StripLeft(s[1..]) else s
  }

  function StripRight(s: string): string {
    if s != "" && s[|s| - 1] in " \t\n\r" then StripRight(s[..|s| - 1]) else s
  }

  function Strip(s: string): string { StripRight(StripLeft(s)) }

  lemma DisablingDisables()
    ensures Strip(DISABLING) == DISABLED
  {
    assert DISABLING[..|DISABLING| - 1] == DISABLED;
    assert StripLeft(DISABLING) == DISABLING;
    assert StripRight(DISABLING) == StripRight(DISABLED) == DISABLED;
  }

  datatype Observation = Observation(
    keyslotsBefore: Option<seq<int>>, keyslotsAfter: Option<seq<int>>, oldKeyRejected: bool,
    destroyed: bool, swapRestored: bool, coreRestored: bool)

  /** The erased header and the rejection of the old key are on record. */
  predicate RejectionRecorded(o: Observation) { o.keyslotsAfter == Some([]) && o.oldKeyRejected }

  /**
   Everything is gone, nothing readable was left, and if there was a header, the old key was tried and
   rejected.
   */
  predicate Destroyed(o: Observation, h: Host) {
    Gone(h) && Erased(h) && (h.residue.value.header ==> RejectionRecorded(o))
  }

  lemma ProtectionCommandsSpareTheVolume(o: Observation, h: Host, c: Command)
    requires Enabled(h, c) && (c.SwapOff? || c.SwapOn? || c.WriteCore?)
    ensures Destroyed(o, Effect(h, c)) == Destroyed(o, h)
  {
  }

  /** Ok, or an exception raised to the caller. */
  datatype Status = Ok | Raised {
    predicate IsFailure() { Raised? }
    function PropagateFailure(): Status { this }
  }

  ghost predicate Zeroed(a: array?<int>)
    reads a
  {
    a != null ==> forall i :: 0 <= i < a.Length ==> a[i] == 0
  }

  class H1SnapshotAttemptVolume {
    var host: Host
    var observation: Observation
    var owned: Option<int>
    var mountOwned: Option<int>
    var key: array?<int>
    var lock: bool
    var originalCore: Option<string>
    var originalSwaps: Option<seq<Swap>>
    var stopped: seq<Swap>
    var started: bool
    var ready: bool
    var cleaned: bool

    /** History: the key buffer ever made, what was ever run, and the host as it was when the lock was released. */
    ghost var buffer: array?<int>
    ghost var swapsTouched: bool
    ghost var coreTouched: bool
    ghost var everLocked: bool
    ghost var releasedIn: Option<Host>

    /** Every command attempted, and whether anything went wrong that was not for the program to decide. */
    ghost var attempted: seq<Command>
    ghost var disturbed: bool

    /** The key lives exactly while the buffer does, and is zero once it is dropped. */
    ghost predicate KeyFacts()
      reads `key, `buffer, buffer
    {
      (key != null ==> key == buffer) && (key == null ==> Zeroed(buffer))
    }

    /** `destroyed` is on record only when it is so. */
    ghost predicate DestroyedFacts()
      reads `observation, `owned, `host
    {
      observation.destroyed ==> owned.None? && Destroyed(observation, host)
    }

    /** Swap list and core pattern are what was saved, or were never touched. */
    ghost predicate Settled(h: Host)
      reads `originalSwaps, `originalCore, `swapsTouched, `coreTouched
    {
      && (if originalSwaps.Some? then h.swaps == originalSwaps.value else !swapsTouched)
      && (if originalCore.Some? then h.core == originalCore.value else !coreTouched)
    }

    /** The lock is given up only when the key is cleared and the machine is as it was. */
    ghost predicate LockFacts()
      reads `lock, `started, `everLocked, `releasedIn, `cleaned, `key, `owned, `ready
      reads `originalSwaps, `originalCore, `swapsTouched, `coreTouched
    {
      && (lock ==> started && everLocked)
      && (lock || !everLocked ==> releasedIn.None?)
      && (everLocked && !lock ==> cleaned && releasedIn.Some? && Settled(releasedIn.value))
      && (cleaned ==> !lock && key == null && owned.None? && !ready)
      && (owned.Some? ==> lock && key != null)
      && (swapsTouched ==> originalSwaps.Some?)
      && (coreTouched ==> originalCore.Some?)
    }

    ghost predicate Valid()
      reads `host, `observation, `owned, `key, `buffer, buffer, `lock, `started, `ready, `cleaned
      reads `originalSwaps, `originalCore, `swapsTouched, `coreTouched, `everLocked, `releasedIn
    {
      KeyFacts() && DestroyedFacts() && LockFacts() && (!started ==> owned.None? && !observation.destroyed)
    }

    /** The state of a volume object nobody has used. */
    ghost predicate Unused()
      reads this
    {
      && !everLocked && key == null && buffer == null && originalSwaps.None? && originalCore.None?
      && stopped == [] && owned.None? && mountOwned.None? && !lock
    }

    constructor (initial: Host)
      ensures Valid() && host == initial && !started && !cleaned && !observation.destroyed
      ensures Unused() && attempted == [] && !disturbed
    {
      host := initial;
      observation := Observation(None, None, false, false, false, false);
      owned, mountOwned, originalCore, originalSwaps := None, None, None, None;
      key, buffer, stopped := null, null, [];
      lock, started, ready, cleaned := false, false, false, false;
      swapsTouched, coreTouched, everLocked, releasedIn := false, false, false, None;
      attempted, disturbed := [], false;
    }

    /* ---- The outside world ---- */

    /** Nothing is done to swap or core before it is saved, and nothing to the volume once it is destroyed. */
    ghost predicate Permitted(c: Command)
      reads `originalSwaps, `originalCore, `observation
    {
      match c
      case SwapOff(_, _) => originalSwaps.Some?
      case SwapOn(_, _) => originalSwaps.Some?
      case WriteCore(_) => originalCore.Some?
      case _ => !observation.destroyed
    }

    /** A command may work, fail, or take effect and still be reported as failed. */
    method Attempt(c: Command) returns (status: Status)
      modifies `host, `attempted, `disturbed
      ensures status.Ok? ==> Enabled(old(host), c) && host == Effect(old(host), c)
      ensures host == old(host) || (Enabled(old(host), c) && host == Effect(old(host), c))
      ensures old(DestroyedFacts()) && (c.SwapOff? || c.SwapOn? || c.WriteCore? || !observation.destroyed) ==>
        DestroyedFacts()
      ensures attempted == old(attempted) + [c] && (old(disturbed) ==> disturbed)
      ensures !disturbed ==> Regular(old(host), c) && (status.Ok? <==> Enabled(old(host), c))
      ensures !disturbed && status.Raised? ==> host == old(host)
      ensures status.Ok? && Regular(old(host), c) ==> disturbed == old(disturbed)
    {
      hide Effect, Enabled, Destroyed, Regular;
      var works: bool, reported: bool := *, *;
      attempted := attempted + [c];
      disturbed := disturbed || !works || !reported || !Regular(host, c);
      works := works && Enabled(host, c);
      status := if works && reported then Ok else Raised;
      if works {
        if c.SwapOff? || c.SwapOn? || c.WriteCore? { ProtectionCommandsSpareTheVolume(observation, host, c); }
        host := Effect(host, c);
      }
    }

    /** Runs a command, keeping in mind whether swap or core pattern was ever touched. */
    method Run(c: Command) returns (status: Status)
      modifies `host, `swapsTouched, `coreTouched, `attempted, `disturbed
      ensures status.Ok? ==> Enabled(old(host), c) && host == Effect(old(host), c)
      ensures host == old(host) || (Enabled(old(host), c) && host == Effect(old(host), c))
      ensures swapsTouched == (old(swapsTouched) || c.SwapOff? || c.SwapOn?)
      ensures coreTouched == (old(coreTouched) || c.WriteCore?)
      ensures old(Valid() && !cleaned && Permitted(c)) ==> KeyFacts()
      ensures old(Valid() && !cleaned && Permitted(c)) ==> DestroyedFacts()
      ensures old(Valid() && !cleaned && Permitted(c)) ==> LockFacts()
      ensures attempted == old(attempted) + [c] && (old(disturbed) ==> disturbed)
      ensures !disturbed ==> Regular(old(host), c) && (status.Ok? <==> Enabled(old(host), c))
      ensures !disturbed && status.Raised? ==> host == old(host)
      ensures status.Ok? && Regular(old(host), c) ==> disturbed == old(disturbed)
    {
      hide KeyFacts, Settled, Effect, Enabled, DestroyedFacts, Destroyed, Regular;
      swapsTouched := swapsTouched || c.SwapOff? || c.SwapOn?;
      coreTouched := coreTouched || c.WriteCore?;
      status := Attempt(c);
    }

    /** Reads the host; reading may fail, and the facts read must hold. */
    method Inspect(fact: bool) returns (status: Status)
      modifies `disturbed
      ensures status.Ok? ==> fact
      ensures old(disturbed) ==> disturbed
      ensures !disturbed ==> (status.Ok? <==> fact)
      ensures status.Ok? ==> disturbed == old(disturbed)
    {
      var readable: bool := *;
      disturbed := disturbed || !readable;
      status := if readable && fact then Ok else Raised;
    }

    /* ---- Acquiring ---- */

    method AcquireLock() returns (status: Status)
      requires Valid() && started && !everLocked && !cleaned
      modifies `lock, `everLocked, `disturbed
      ensures Valid() && (status.Ok? ==> lock) && (old(disturbed) ==> disturbed)
      ensures !disturbed ==> (status.Ok? <==> host.backing.None? && host.directory.None? && !host.mapper)
    {
      hide Strip;
      :- Inspect(true); // root, directory and lock file as required, and the lock is free
      lock, everLocked := true, true;
      :- Inspect(host.backing.None? && host.directory.None? && !host.mapper);
      return Ok;
    }

    /** A core pattern was saved, and the one in place is not the disabled one. */
    predicate CoreIsForeign()
      reads `originalCore, `host
    {
      originalCore.Some? && Strip(host.core) != DISABLED
    }

    /** Whatever was saved is what the given machine had. */
    ghost predicate SavedFrom(h: Host)
      reads `originalSwaps, `originalCore
    {
      && (originalSwaps.Some? ==> originalSwaps.value == h.swaps)
      && (originalCore.Some? ==> originalCore.value == h.core)
    }

    method SaveSwaps() returns (status: Status)
      requires Valid() && lock && originalSwaps.None? && originalCore.None?
      modifies `originalSwaps, `disturbed
      ensures Valid() && SavedFrom(host) && (old(disturbed) ==> disturbed)
      ensures status.Ok? ==> originalSwaps.Some?
      ensures !disturbed ==> originalSwaps.Some? && (status.Ok? <==> host.swaps == [] || host.swaps == SWAPS)
    {
      hide Strip;
      :- Inspect(true); // free disk space, and the swap list
      originalSwaps := Some(host.swaps);
      status := Inspect(host.swaps == [] || host.swaps == SWAPS);
    }

    /** If the write has no effect, the pattern in place is foreign from then on, unless it was the disabled one. */
    method DisableCore() returns (status: Status)
      requires Valid() && lock && originalCore.None? && SavedFrom(host)
      modifies `host, `swapsTouched, `coreTouched, `attempted, `disturbed, `originalCore
      ensures Valid() && SameVolume(host, old(host)) && host.swaps == old(host).swaps && SavedFrom(old(host))
      ensures status.Ok? ==> originalCore.Some? && Strip(host.core) == DISABLED
      ensures originalCore.Some? && host.core == old(host).core && Strip(old(host).core) != DISABLED ==>
        status.Raised? && CoreIsForeign()
      ensures old(disturbed) ==> disturbed
      ensures !disturbed ==> status.Ok? && host.core == DISABLING
    {
      hide Strip, KeyFacts, DestroyedFacts, Settled;
      DisablingDisables();
      :- Inspect(true); // free memory, and the core pattern
      originalCore := Some(host.core);
      :- Run(WriteCore(DISABLING));
      status := Inspect(Strip(host.core) == DISABLED);
    }

    /** Turns one swap off, on record before it is tried. */
    method StopSwap(swap: Swap) returns (status: Status)
      requires Valid() && !cleaned && originalSwaps.Some?
      modifies `host, `swapsTouched, `coreTouched, `attempted, `disturbed, `stopped
      ensures Valid() && host == old(host).(swaps := host.swaps)
      ensures stopped == old(stopped) + [swap] && (old(disturbed) ==> disturbed)
      ensures !disturbed ==> status.Ok? && host.swaps == Without(old(host).swaps, swap.path)
    {
      hide LockFacts, KeyFacts, DestroyedFacts, Without;
      stopped := stopped + [swap];
      var after: seq<Swap> := *;
      status := Run(SwapOff(swap.path, after));
    }

    method StopSwaps() returns (status: Status)
      requires Valid() && lock && !cleaned && originalSwaps.Some?
      modifies `host, `swapsTouched, `coreTouched, `attempted, `disturbed, `stopped
      ensures Valid() && SameVolume(host, old(host)) && host.core == old(host).core
      ensures status.Ok? ==> host.swaps == []
      ensures old(disturbed) ==> disturbed
      ensures !disturbed && old(host).swaps == originalSwaps.value && SwapsKnown(old(host).swaps) ==>
        status.Ok? && stopped == old(stopped) + originalSwaps.value
    {
      hide Valid, Without, SwapsKnown;
      var i := 0;
      assert originalSwaps.value[0..] == originalSwaps.value;
      while i < |originalSwaps.value|
        invariant 0 <= i <= |originalSwaps.value| && stopped == old(stopped) + originalSwaps.value[..i]
        invariant Valid() && SameVolume(host, old(host)) && host.core == old(host).core
        invariant old(disturbed) ==> disturbed
        invariant !disturbed && old(host).swaps == originalSwaps.value && SwapsKnown(old(host).swaps) ==>
          host.swaps == originalSwaps.value[i..]
      {
        if SwapsKnown(originalSwaps.value) { StopsTheNext(originalSwaps.value, i); }
        :- StopSwap(originalSwaps.value[i]);
        i := i + 1;
      }
      status := Inspect(host.swaps == []);
    }

    /** Saves and switches off core dumps and swap. */
    method Protect() returns (status: Status)
      requires Valid() && lock && !cleaned && originalSwaps.None? && originalCore.None?
      modifies `host, `swapsTouched, `coreTouched, `attempted, `disturbed, `originalSwaps, `originalCore, `stopped
      ensures Valid() && SameVolume(host, old(host)) && SavedFrom(old(host))
      ensures status.Ok? ==> host.swaps == [] && Strip(host.core) == DISABLED
      ensures status.Ok? ==> originalSwaps.Some? && originalCore.Some?
      ensures old(disturbed) ==> disturbed
      ensures !disturbed ==> (status.Ok? <==> SwapsKnown(old(host).swaps))
      ensures !disturbed && status.Ok? ==> stopped == old(stopped) + old(host).swaps && host.core == DISABLING
    {
      hide Strip, LockFacts, KeyFacts, DestroyedFacts;
      :- SaveSwaps();
      :- DisableCore();
      status := StopSwaps();
    }

    method MakeKey()
      requires Valid() && lock && !cleaned && owned.None? && key == null && buffer == null
      modifies `key, `buffer
      ensures Valid() && key != null && fresh(key)
    {
      hide DestroyedFacts, Settled;
      key := RandomKey();
      buffer := key;
    }

    /** Makes an empty backing file. */
    method MakeBacking() returns (status: Status)
      requires Valid() && lock && !cleaned && owned.None? && key != null && !observation.destroyed
      modifies `host, `swapsTouched, `coreTouched, `attempted, `disturbed, `owned
      ensures Valid() && SameProtection(host, old(host))
      ensures status.Ok? ==> owned.Some? && host.backing.Some? && owned == Some(host.backing.value.id)
      ensures old(disturbed) ==> disturbed
      ensures !disturbed ==> (status.Ok? <==> old(host).backing.None?)
      ensures status.Ok? ==>
        host == old(host).(backing := Some(Backing(owned.value, false, [])), filesystem := false)
    {
      hide Destroyed, Settled, KeyFacts, Strip;
      var id: int := *;
      :- Run(CreateBacking(id));
      :- Inspect(true); // fstat of the file just created
      owned := Some(id);
      status := Inspect(true); // the space is allocated and synced
    }

    /** Writes the header and reads the keyslots back. */
    method WriteHeader() returns (status: Status)
      requires Valid() && !cleaned && owned.Some? && key != null && host.backing.Some? && !observation.destroyed
      modifies `host, `swapsTouched, `coreTouched, `attempted, `disturbed
      ensures Valid() && SameProtection(host, old(host)) && (old(disturbed) ==> disturbed)
      ensures status.Ok? ==> host.backing.Some? && host == old(host).(backing := host.backing)
      ensures status.Ok? ==> Numbers(host.backing.value.keyslots) == [0] && Opens(host.backing.value, key[..])
      ensures status.Ok? ==> host.backing.value.id == old(host).backing.value.id && host.backing.value.header
      ensures !disturbed ==> (status.Ok? <==> !old(host).mapper)
    {
      hide Gone, Erased, LockFacts, KeyFacts, Strip, Destroyed, DestroyedFacts;
      var numbers: seq<int> := *;
      :- Run(LuksFormat(key[..], numbers));
      :- Inspect(host.backing.value.header && Numbers(host.backing.value.keyslots) == [0]);
      FormattedOpens(host.backing.value, key[..]);
      return Ok;
    }

    /** Formats the file with exactly keyslot 0. */
    method FormatVolume() returns (status: Status)
      requires Valid() && !cleaned && owned.Some? && key != null && host.backing.Some? && !observation.destroyed
      modifies `host, `swapsTouched, `coreTouched, `attempted, `disturbed, `observation
      ensures Valid() && SameProtection(host, old(host)) && !observation.destroyed
      ensures status.Ok? ==> host.backing.Some?
      ensures status.Ok? ==> Numbers(host.backing.value.keyslots) == [0] && observation.keyslotsBefore == Some([0])
      ensures status.Ok? ==> Opens(host.backing.value, key[..])
      ensures old(disturbed) ==> disturbed
      ensures !disturbed ==> (status.Ok? <==> !old(host).mapper)
      ensures status.Ok? ==> host == old(host).(backing := host.backing)
      ensures status.Ok? ==> host.backing.value.id == old(host).backing.value.id && host.backing.value.header
    {
      hide Destroyed, LockFacts, KeyFacts, Numbers, Opens;
      :- WriteHeader();
      observation := observation.(keyslotsBefore := Some([0]));
      return Ok;
    }

    /** The file on record is there, formatted, and yields to the key. */
    ghost predicate Openable()
      reads this, key
    {
      && key != null && host.backing.Some? && owned == Some(host.backing.value.id)
      && host.backing.value.header && Opens(host.backing.value, key[..])
    }

    /** Opens the formatted file. */
    method OpenVolume() returns (status: Status)
      requires Valid() && !cleaned && owned.Some? && key != null && host.backing.Some? && !observation.destroyed
      modifies `host, `swapsTouched, `coreTouched, `attempted, `disturbed
      ensures Valid() && host == old(host).(mapper := host.mapper, loop := host.loop)
      ensures status.Ok? ==> Mapped()
      ensures old(disturbed) ==> disturbed
      ensures !disturbed && !old(host).mapper && Openable() ==> status.Ok?
    {
      hide Gone, Erased, LockFacts, KeyFacts, Strip, DestroyedFacts;
      :- Inspect(true); // luksUUID
      :- Run(LuksOpen(key[..]));
      status := VerifyMapping();
    }

    method RandomKey() returns (bytes: array<int>)
      ensures fresh(bytes) && bytes.Length == 64
    {
      bytes := new int[64];
      for i := 0 to 64 {
        var random: int :| 0 <= random < 256;
        bytes[i] := random;
      }
    }

    ghost predicate Mapped()
      reads this
    {
      && host.backing.Some? && host.backing.value.header && owned == Some(host.backing.value.id)
      && host.mapper && host.loop
    }

    method SameBacking() returns (status: Status)
      modifies `disturbed
      ensures old(disturbed) ==> disturbed
      ensures status.Ok? ==> host.backing.Some? && owned == Some(host.backing.value.id)
      ensures !disturbed ==> (status.Ok? <==> host.backing.Some? && owned == Some(host.backing.value.id))
    {
      status := Inspect(host.backing.Some? && owned == Some(host.backing.value.id));
    }

    method VerifyMapping() returns (status: Status)
      modifies `disturbed
      ensures old(disturbed) ==> disturbed
      ensures status.Ok? ==> Mapped()
      ensures !disturbed ==> (status.Ok? <==> Mapped())
    {
      hide Strip;
      :- SameBacking();
      status := Inspect(host.backing.value.header && host.mapper && host.loop);
    }

    method MakeMountPoint() returns (status: Status)
      requires Valid() && lock && !cleaned && owned.Some? && !observation.destroyed
      modifies `host, `swapsTouched, `coreTouched, `attempted, `disturbed, `mountOwned
      ensures Valid() && host == old(host).(directory := host.directory)
      ensures status.Ok? ==> host.directory.Some? && mountOwned == host.directory
      ensures old(disturbed) ==> disturbed
      ensures !disturbed ==> (status.Ok? <==> old(host).directory.None?)
    {
      hide Gone, Erased, LockFacts, KeyFacts, DestroyedFacts, Strip;
      var id: int := *;
      :- Run(MakeDirectory(id));
      :- Inspect(true); // lstat of the directory just made
      mountOwned := Some(id);
      return Ok;
    }

    method MountVolume() returns (status: Status)
      requires Valid() && lock && !cleaned && owned.Some? && !observation.destroyed
      modifies `host, `swapsTouched, `coreTouched, `attempted, `disturbed, `mountOwned
      ensures Valid()
      ensures host.swaps == old(host).swaps && host.core == old(host).core && host.backing == old(host).backing
      ensures status.Ok? ==> host.mounted && host.directory.Some? && mountOwned == host.directory
      ensures old(disturbed) ==> disturbed
      ensures !disturbed ==>
        (status.Ok? <==> old(host).mapper && !old(host).mounted && old(host).directory.None?)
      ensures host.mapper == old(host).mapper && host.loop == old(host).loop
    {
      hide Gone, Erased, LockFacts, KeyFacts, DestroyedFacts, Strip;
      :- Run(MakeFilesystem);
      :- MakeMountPoint();
      :- Run(Mount);
      :- Inspect(true); // chmod
      return Ok;
    }

    method AssertReady() returns (status: Status)
      modifies `disturbed
      ensures old(disturbed) ==> disturbed
      ensures status.Ok? ==> Serviceable()
      ensures !disturbed ==> (status.Ok? <==> Serviceable())
    {
      hide Strip;
      :- Inspect(ready && !cleaned && lock);
      :- Inspect(host.swaps == [] && Strip(host.core) == DISABLED);
      :- VerifyMapping();
      status := Inspect(host.mounted && host.directory.Some?);
    }

    /** What a caller may rely on while it uses the volume. */
    ghost predicate Serviceable()
      reads this
    {
      && ready && !cleaned && lock && Mapped() && host.mounted && host.directory.Some?
      && host.swaps == [] && Strip(host.core) == DISABLED
    }

    /** Makes the key and the volume it opens. */
    method MakeVolume() returns (status: Status)
      requires Valid() && lock && !cleaned && owned.None? && key == null && buffer == null && !observation.destroyed
      modifies `host, `swapsTouched, `coreTouched, `attempted, `disturbed, `key, `buffer, `owned, `observation
      ensures Valid() && SameProtection(host, old(host)) && !observation.destroyed && (key != null ==> fresh(key))
      ensures status.Ok? ==> owned.Some? && host.backing.Some? && Mapped()
      ensures status.Ok? ==>
        host == old(host).(backing := host.backing, filesystem := false, mapper := true, loop := true)
      ensures old(disturbed) ==> disturbed
      ensures !disturbed ==> (status.Ok? <==> old(host).backing.None? && !old(host).mapper)
      ensures status.Ok? ==> Numbers(host.backing.value.keyslots) == [0] && observation.keyslotsBefore == Some([0])
    {
      hide Zeroed, Destroyed, Strip, KeyFacts, LockFacts;
      MakeKey();
      :- MakeBacking();
      :- FormatVolume();
      status := OpenVolume();
    }

    /** Swap and core pattern are saved and off, and nothing else changed. */
    ghost predicate Secured(h: Host)
      reads this
    {
      && stopped == h.swaps && originalSwaps == Some(h.swaps) && originalCore == Some(h.core)
      && host.swaps == [] && host.core == DISABLING
    }

    method Secure() returns (status: Status)
      requires Valid() && started && !cleaned && !observation.destroyed && Unused()
      modifies `host, `swapsTouched, `coreTouched, `attempted, `disturbed, `lock, `everLocked, `originalSwaps
      modifies `originalCore, `stopped
      ensures Valid() && SameVolume(host, old(host)) && SavedFrom(old(host)) && (old(disturbed) ==> disturbed)
      ensures status.Ok? ==> lock
      ensures !disturbed ==>
        (status.Ok? <==> SwapsKnown(old(host).swaps) && host.backing.None? && host.directory.None? && !host.mapper)
      ensures !disturbed && status.Ok? ==> Secured(old(host))
    {
      hide Zeroed, Strip, KeyFacts, DestroyedFacts, LockFacts, SwapsKnown;
      :- AcquireLock();
      status := Protect();
    }

    method Build() returns (status: Status)
      requires Valid() && started && !everLocked && !cleaned && owned.None? && !observation.destroyed && Unused()
      modifies this
      ensures Valid() && started && !cleaned && !observation.destroyed && SavedFrom(old(host))
      ensures key == null || fresh(key)
      ensures old(disturbed) ==> disturbed
      ensures !disturbed ==> (status.Ok? <==> CleanMachine(old(host)))
      ensures !disturbed && status.Ok? ==> Mapped() && Secured(old(host))
      ensures status.Ok? ==> host.mounted && host.directory.Some? && mountOwned == host.directory
      ensures status.Ok? ==> lock && owned.Some? && host.backing.Some?
      ensures status.Ok? ==> Numbers(host.backing.value.keyslots) == [0] && observation.keyslotsBefore == Some([0])
    {
      hide Zeroed, Strip, KeyFacts, DestroyedFacts, LockFacts, SwapsKnown;
      :- Secure();
      :- MakeVolume();
      status := MountVolume();
    }

    method Acquire() returns (status: Status)
      requires Valid() && started && !everLocked && !cleaned && owned.None? && !observation.destroyed && Unused()
      modifies this
      ensures Valid() && started && !cleaned && !observation.destroyed && SavedFrom(old(host))
      ensures key == null || fresh(key)
      ensures old(disturbed) ==> disturbed
      ensures !disturbed ==> (status.Ok? <==> CleanMachine(old(host)))
      ensures !disturbed && status.Ok? ==> Mapped() && Secured(old(host))
      ensures status.Ok? ==> mountOwned == host.directory
      ensures status.Ok? ==> Serviceable() && host.backing.Some?
      ensures status.Ok? ==> Numbers(host.backing.value.keyslots) == [0] && observation.keyslotsBefore == Some([0])
    {
      hide Zeroed, Gone, Erased, Strip, KeyFacts, DestroyedFacts, Settled, CleanMachine;
      DisablingDisables();
      :- Build();
      ready := true;
      status := AssertReady();
    }

    /** Succeeds with a serviceable volume, or raises after trying to clean up. */
    method Prepare() returns (status: Status)
      requires Valid()
      requires !started && !cleaned ==> Unused()
      modifies this
      ensures Valid() && (started || cleaned)
      ensures old(started || cleaned) ==> status.Raised?
      ensures !old(started || cleaned) ==> SavedFrom(old(host)) && (key != null ==> fresh(key))
      ensures status.Ok? ==> Serviceable() && Numbers(host.backing.value.keyslots) == [0]
      ensures old(disturbed) ==> disturbed
      ensures !disturbed ==> (status.Ok? <==> !old(started || cleaned) && CleanMachine(old(host)))
      ensures !disturbed && status.Ok? ==> Mapped() && Secured(old(host)) && owned.Some? && !cleaned
      ensures status.Ok? ==> mountOwned == host.directory
    {
      if started || cleaned { return Raised; }
      started := true;
      status := Acquire();
      if status.Raised? {
        var _ := Cleanup();
      }
    }

    /* ---- Destroying ---- */

    /** The parts of the host that make up the volume are the same. */
    ghost predicate SameVolume(h: Host, g: Host) {
      h == g.(swaps := h.swaps, core := h.core)
    }

    ghost predicate SameProtection(h: Host, g: Host) {
      h.swaps == g.swaps && h.core == g.core
    }

    method UnmountVolume() returns (status: Status)
      requires Valid() && owned.Some? && !cleaned && !observation.destroyed
      modifies `host, `swapsTouched, `coreTouched, `attempted, `disturbed
      ensures old(disturbed) ==> disturbed
      ensures !disturbed ==> (status.Ok? <==> (old(host).mounted ==> old(Mapped())))
      ensures Valid() && host == old(host).(mounted := host.mounted)
      ensures status.Ok? ==> !host.mounted
    {
      hide Gone, Erased, KeyFacts, LockFacts, DestroyedFacts, Strip;
      if host.mounted {
        :- VerifyMapping();
        :- Run(Unmount);
      }
      status := Inspect(!host.mounted);
    }

    method CloseMapping() returns (status: Status)
      requires Valid() && owned.Some? && !cleaned && !observation.destroyed
      modifies `host, `swapsTouched, `coreTouched, `attempted, `disturbed
      ensures old(disturbed) ==> disturbed
      ensures !disturbed ==> (status.Ok? <==> (old(host).mapper ==> old(Mapped()) && !host.mounted))
      ensures !disturbed && status.Ok? ==> host.loop == (old(host).loop && !old(host).mapper)
      ensures Valid() && host == old(host).(mapper := host.mapper, loop := host.loop)
      ensures status.Ok? ==> !host.mapper
    {
      hide Gone, Erased, KeyFacts, LockFacts, DestroyedFacts, Strip;
      if host.mapper {
        :- VerifyMapping();
        var detached: bool := *;
        :- Run(LuksClose(detached));
      }
      status := Inspect(!host.mapper);
    }

    method Detach() returns (status: Status)
      requires Valid() && owned.Some? && !cleaned && !observation.destroyed
      modifies `host, `swapsTouched, `coreTouched, `attempted, `disturbed
      ensures old(disturbed) ==> disturbed
      ensures !disturbed ==>
        (status.Ok? <==> OnRecord(host, owned) && (old(host).mounted || old(host).mapper ==> old(Mapped())))
      ensures !disturbed && status.Ok? ==> host.loop == (old(host).loop && !old(host).mapper)
      ensures Valid() && host == old(host).(mounted := host.mounted, mapper := host.mapper, loop := host.loop)
      ensures status.Ok? ==> !host.mounted && !host.mapper && host.backing.Some?
    {
      hide Gone, Erased, KeyFacts, LockFacts, DestroyedFacts, Strip;
      :- SameBacking();
      :- UnmountVolume();
      status := CloseMapping();
    }

    /** Tries the old key; the trial may fail, and otherwise says what the header holds. */
    method TestPassphrase() returns (status: Status, answer: KeyAnswer)
      requires key != null && host.backing.Some?
      modifies `disturbed
      ensures old(disturbed) ==> disturbed
      ensures status.Ok? ==> answer == AnswerTo(host.backing.value, key[..])
      ensures !disturbed ==> status.Ok?
    {
      status := Inspect(true);
      answer := AnswerTo(host.backing.value, key[..]);
    }

    method EraseHeader() returns (status: Status)
      requires Valid() && owned.Some? && host.backing.Some? && !cleaned && !observation.destroyed
      modifies `host, `swapsTouched, `coreTouched, `attempted, `disturbed
      ensures old(disturbed) ==> disturbed
      ensures !disturbed ==> (status.Ok? <==> old(host).backing.value.header)
      ensures Valid() && host == old(host).(backing := host.backing) && host.backing.Some?
      ensures host.backing.value == old(host).backing.value.(keyslots := host.backing.value.keyslots)
      ensures status.Ok? ==> host.backing.value.keyslots == []
    {
      hide Destroyed, DestroyedFacts, KeyFacts, LockFacts, Strip;
      :- Run(LuksErase);
      status := Inspect(host.backing.value.keyslots == []);
    }

    method EraseKeyslots() returns (status: Status)
      requires Valid() && owned.Some? && key != null && host.backing.Some? && !cleaned && !observation.destroyed
      modifies `host, `swapsTouched, `coreTouched, `attempted, `disturbed, `observation
      ensures old(disturbed) ==> disturbed
      ensures !disturbed ==> status.Ok?
      ensures Valid() && host == old(host).(backing := host.backing) && !observation.destroyed
      ensures host.backing.Some? && host.backing.value.id == old(host).backing.value.id
      ensures status.Ok? && host.backing.value.header ==>
        host.backing.value.keyslots == [] && RejectionRecorded(observation)
    {
      hide Destroyed, KeyFacts, LockFacts, Strip;
      :- Inspect(true); // isLuks answered
      if host.backing.value.header {
        :- EraseHeader();
        var answer :- TestPassphrase();
        :- Inspect(answer.NoUsableKeyslot?);
        observation := observation.(keyslotsAfter := Some([]), oldKeyRejected := true);
      }
      return Ok;
    }

    method RemoveMountDirectory() returns (status: Status)
      requires Valid() && owned.Some? && !cleaned && !observation.destroyed
      modifies `host, `swapsTouched, `coreTouched, `attempted, `disturbed, `mountOwned
      ensures old(disturbed) ==> disturbed
      ensures !disturbed ==>
        (status.Ok? <==> (old(mountOwned).Some? ==> old(host).directory == old(mountOwned) && !host.mounted))
      ensures status.Ok? ==> host.directory == if old(mountOwned).Some? then None else old(host).directory
      ensures Valid() && host == old(host).(directory := host.directory)
      ensures old(mountOwned).None? ==> host == old(host)
      ensures mountOwned == if status.Ok? then None else old(mountOwned)
    {
      hide Gone, Erased, KeyFacts, LockFacts, DestroyedFacts;
      if mountOwned.Some? {
        :- Inspect(host.directory == mountOwned);
        :- Run(RemoveDirectory);
        mountOwned := None;
      }
      return Ok;
    }

    method UnlinkBacking() returns (status: Status)
      requires Valid() && owned.Some? && host.backing.Some? && !cleaned && !observation.destroyed
      requires !host.mounted && !host.mapper && !host.loop
      requires host.backing.value.header ==> host.backing.value.keyslots == [] && RejectionRecorded(observation)
      modifies `host, `swapsTouched, `coreTouched, `attempted, `disturbed, `owned, `observation
      ensures old(disturbed) ==> disturbed
      ensures !disturbed ==> (status.Ok? <==> old(host).directory.None?) && owned.None? && host.backing.None?
      ensures Valid() && SameProtection(host, old(host))
      ensures status.Ok? <==> observation.destroyed
      ensures status.Ok? ==> owned.None?
    {
      hide KeyFacts;
      :- Run(Unlink);
      owned := None;
      :- Inspect(host.backing.None? && host.directory.None?);
      observation := observation.(destroyed := true);
      return Ok;
    }

    /** Everything but the file: detached, erased, and its mount directory removed. */
    method Dismantle() returns (status: Status)
      requires Valid() && !cleaned && owned.Some? && !observation.destroyed
      modifies `host, `swapsTouched, `coreTouched, `attempted, `disturbed, `mountOwned, `observation
      ensures old(disturbed) ==> disturbed
      ensures Valid() && SameProtection(host, old(host)) && !observation.destroyed
      ensures status.Ok? ==> host.backing.Some? && !host.mounted && !host.mapper && !host.loop
      ensures status.Ok? && host.backing.value.header ==>
        host.backing.value.keyslots == [] && RejectionRecorded(observation)
      ensures status.Ok? ==> host.directory == if old(mountOwned).Some? then None else old(host).directory
      ensures status.Ok? ==> mountOwned.None?
      ensures host.directory != old(host).directory ==> !host.loop
      ensures !disturbed ==> (status.Ok? <==> old(Dismantlable(host, owned, mountOwned)))
    {
      hide Valid;
      :- Detach();
      assert owned.Some?;
      KeyIsLive();
      :- EraseKeyslots();
      :- Inspect(!host.loop);
      :- SameBacking();
      status := RemoveMountDirectory();
    }

    /** While a file is on record there is a key. */
    lemma KeyIsLive()
      requires Valid() && owned.Some?
      ensures key != null
    {
    }

    method Destroy() returns (status: Status)
      requires Valid() && !cleaned
      modifies `host, `swapsTouched, `coreTouched, `attempted, `disturbed, `mountOwned, `owned, `observation
      ensures old(disturbed) ==> disturbed
      ensures !disturbed && old(owned).Some? ==> (status.Ok? <==> old(Destroyable(host, owned, mountOwned)))
      ensures !disturbed && old(owned).Some? ==> (owned.None? <==> old(Dismantlable(host, owned, mountOwned)))
      ensures old(owned).Some? && owned.None? ==> mountOwned.None?
      ensures Valid() && SameProtection(host, old(host))
      ensures old(owned).None? ==> status.Ok? && observation == old(observation) && host == old(host) && owned.None?
      ensures old(owned).Some? ==> (status.Ok? <==> observation.destroyed)
      ensures status.Ok? ==> owned.None?
      ensures observation.destroyed ==> Destroyed(observation, host) && YieldsToNoKey(host)
    {
      hide YieldsToNoKey, KeyFacts, LockFacts;
      if observation.destroyed { ErasedYieldsToNoKey(host); }
      if owned.None? { return Ok; }
      :- Dismantle();
      status := UnlinkBacking();
      if observation.destroyed { ErasedYieldsToNoKey(host); }
    }

    /* ---- Restoring ---- */

    method ClearKey()
      requires Valid() && owned.None?
      modifies `key, key
      ensures Valid() && key == null
    {
      if key != null {
        var i := 0;
        while i < key.Length
          invariant 0 <= i <= key.Length
          invariant forall j :: 0 <= j < i ==> key[j] == 0
          modifies key
        {
          key[i] := 0;
          i := i + 1;
        }
        key := null;
      }
    }

    /** Turns on, one by one, the swaps that were stopped and are not active, up to the first failure. */
    method TurnOnMissing(active: seq<Swap>) returns (status: Status)
      requires Valid() && !cleaned && originalSwaps.Some?
      modifies `host, `swapsTouched, `coreTouched, `attempted, `disturbed
      ensures Valid() && host == old(host).(swaps := host.swaps) && (old(disturbed) ==> disturbed)
      ensures |old(attempted)| <= |attempted| && attempted[..|old(attempted)|] == old(attempted)
      ensures TurnsOnInOrder(attempted[|old(attempted)|..], Missing(stopped, active))
      ensures status.Ok? ==> |attempted| - |old(attempted)| == |Missing(stopped, active)|
      ensures status.Raised? ==> |attempted| > |old(attempted)|
      ensures !disturbed ==> status.Ok? && host.swaps == AllOn(old(host).swaps, Missing(stopped, active))
    {
      hide Valid, Missing, AllOn, TurnedOn, TurnsOnInOrder;
      var i := 0;
      NoneMissing(active, host.swaps);
      assert stopped[..0] == [] && attempted[|attempted|..] == [];
      while i < |stopped|
        invariant 0 <= i <= |stopped| && Valid() && host == old(host).(swaps := host.swaps)
        invariant old(disturbed) ==> disturbed
        invariant |old(attempted)| <= |attempted| && attempted[..|old(attempted)|] == old(attempted)
        invariant |attempted| - |old(attempted)| == |Missing(stopped[..i], active)|
        invariant TurnsOnInOrder(attempted[|old(attempted)|..], Missing(stopped, active))
        invariant !disturbed ==> host.swaps == AllOn(old(host).swaps, Missing(stopped[..i], active))
      {
        OneMoreMissing(stopped, i, active, old(host).swaps);
        if stopped[i] !in active {
          ghost var before := attempted;
          status := TurnOn(stopped[i]);
          OneMoreAttempt(before, attempted, |old(attempted)|);
          OneMoreTurnsOn(before[|old(attempted)|..], attempted[|before|], Missing(stopped, active));
          if status.Raised? { return; }
        }
        i := i + 1;
      }
      assert stopped[..i] == stopped;
      return Ok;
    }

    method RestoreSwaps() returns (status: Status)
      requires Valid() && !cleaned && originalSwaps.Some?
      modifies `host, `swapsTouched, `coreTouched, `attempted, `disturbed, `observation
      ensures old(disturbed) ==> disturbed
      ensures Valid() && SameVolume(host, old(host)) && host.core == old(host).core
      ensures observation.destroyed == old(observation.destroyed)
      ensures status.Ok? ==> host.swaps == originalSwaps.value && observation.swapRestored
      ensures !disturbed ==> (status.Ok? <==> SwapsRestorable(old(host).swaps))
      ensures status.Ok? ==>
        && |attempted| == |old(attempted)| + |Missing(stopped, old(host).swaps)|
        && TurnsOnInOrder(attempted[|old(attempted)|..], Missing(stopped, old(host).swaps))
    {
      hide Gone, Erased, Strip, LockFacts, KeyFacts, Missing, AllOn, TurnsOnInOrder;
      var active := host.swaps;
      :- Inspect(forall item :: item in active ==> item in originalSwaps.value);
      :- TurnOnMissing(active);
      :- Inspect(host.swaps == originalSwaps.value);
      observation := observation.(swapRestored := true);
      return Ok;
    }

    method TurnOn(swap: Swap) returns (status: Status)
      requires Valid() && !cleaned && originalSwaps.Some?
      modifies `host, `swapsTouched, `coreTouched, `attempted, `disturbed
      ensures Valid() && host == old(host).(swaps := host.swaps) && (old(disturbed) ==> disturbed)
      ensures |attempted| == |old(attempted)| + 1 && attempted[..|old(attempted)|] == old(attempted)
      ensures attempted[|old(attempted)|].SwapOn? && attempted[|old(attempted)|].path == swap.path
      ensures !disturbed ==> status.Ok? && host.swaps == TurnedOn(old(host).swaps, swap.path)
    {
      hide LockFacts, KeyFacts, DestroyedFacts, TurnedOn;
      var after: seq<Swap> := *;
      status := Run(SwapOn(swap.path, after));
    }

    /** All active swaps were saved, and turning on the missing ones gives the saved list back. */
    ghost predicate SwapsRestorable(active: seq<Swap>)
      reads `originalSwaps, `stopped
    {
      && originalSwaps.Some? && (forall item :: item in active ==> item in originalSwaps.value)
      && AllOn(active, Missing(stopped, active)) == originalSwaps.value
    }

    method PutCoreBack() returns (status: Status)
      requires Valid() && !cleaned && originalCore.Some?
      modifies `host, `swapsTouched, `coreTouched, `attempted, `disturbed
      ensures Valid() && host == old(host).(core := host.core) && (old(disturbed) ==> disturbed)
      ensures !disturbed ==> (status.Ok? <==> Strip(old(host).core) == DISABLED)
      ensures status.Ok? ==> host.core == originalCore.value
      ensures Strip(old(host).core) != DISABLED ==> status.Raised? && host == old(host)
    {
      hide Strip, LockFacts, KeyFacts, DestroyedFacts;
      :- Inspect(Strip(host.core) == DISABLED);
      :- Run(WriteCore(originalCore.value));
      status := Inspect(host.core == originalCore.value);
    }

    method RestoreCore() returns (status: Status)
      requires Valid() && !cleaned && originalCore.Some?
      modifies `host, `swapsTouched, `coreTouched, `attempted, `disturbed, `observation
      ensures old(disturbed) ==> disturbed
      ensures !disturbed ==> (status.Ok? <==> Strip(old(host).core) == DISABLED)
      ensures Valid() && SameVolume(host, old(host)) && host.swaps == old(host).swaps
      ensures observation.destroyed == old(observation.destroyed)
      ensures status.Ok? ==> host.core == originalCore.value && observation.coreRestored
      ensures Strip(old(host).core) != DISABLED ==> status.Raised? && host == old(host)
    {
      hide Gone, Erased, Strip, LockFacts, KeyFacts;
      :- PutCoreBack();
      observation := observation.(coreRestored := true);
      return Ok;
    }

    /** Once the core pattern is no longer the disabled one, restoring raises for ever. */
    method Restore() returns (status: Status)
      requires Valid() && !cleaned
      modifies `host, `swapsTouched, `coreTouched, `attempted, `disturbed, `observation
      ensures old(disturbed) ==> disturbed
      ensures !disturbed ==> (status.Ok? <==> old(Restorable()))
      ensures !disturbed && old(originalSwaps.Some? && SwapsRestorable(host.swaps)) ==>
        host.swaps == originalSwaps.value
      ensures originalSwaps.Some? && host.core != old(host).core ==> host.swaps == originalSwaps.value
      ensures Valid() && SameVolume(host, old(host))
      ensures observation.destroyed == old(observation.destroyed)
      ensures status.Ok? ==> Settled(host)
      ensures originalCore.Some? && Strip(old(host).core) != DISABLED ==> status.Raised? && host.core == old(host).core
    {
      hide Gone, Erased, Strip, KeyFacts, DestroyedFacts;
      if originalSwaps.Some? {
        :- RestoreSwaps();
      }
      if originalCore.Some? {
        :- RestoreCore();
      }
      return Ok;
    }

    /** Swaps and core pattern can be given back, as far as they were taken. */
    ghost predicate Restorable()
      reads `host, `originalSwaps, `originalCore, `stopped
    {
      && (originalSwaps.Some? ==> SwapsRestorable(host.swaps))
      && (originalCore.Some? ==> Strip(host.core) == DISABLED)
    }

    /** Destroys the volume, and only then clears the key. */
    method Dispose() returns (status: Status)
      requires Valid() && !cleaned
      modifies `host, `swapsTouched, `coreTouched, `attempted, `disturbed, `mountOwned, `owned, `observation, `key, key
      ensures old(disturbed) ==> disturbed
      ensures !disturbed ==> (status.Ok? <==> old(owned).None? || old(Destroyable(host, owned, mountOwned)))
      ensures Valid() && SameProtection(host, old(host)) && (key == null || key == old(key))
      ensures old(observation.destroyed) ==> observation.destroyed
      ensures status.Ok? ==> key == null && owned.None?
      ensures status.Raised? ==> key == old(key) && (key != null ==> key[..] == old(key[..]))
      ensures status.Ok? ==> (observation.destroyed <==> old(observation.destroyed) || old(owned).Some?)
    {
      hide Gone, Erased, KeyFacts, LockFacts;
      :- Destroy();
      ClearKey();
      return Ok;
    }

    /** Gives the machine back: swap, core pattern, and last the lock. */
    method HandBack() returns (status: Status)
      requires Valid() && !cleaned && key == null && owned.None? && !ready
      modifies `host, `swapsTouched, `coreTouched, `attempted, `disturbed, `observation, `lock, `releasedIn, `cleaned
      ensures old(disturbed) ==> disturbed
      ensures !disturbed ==> (status.Ok? <==> old(Restorable()))
      ensures Valid() && observation.destroyed == old(observation.destroyed)
      ensures status.Ok? <==> cleaned
      ensures status.Ok? ==> !lock && (everLocked ==> releasedIn == Some(host) && Settled(host))
      ensures status.Raised? ==> lock == old(lock)
      ensures originalCore.Some? && Strip(old(host).core) != DISABLED ==> status.Raised? && host.core == old(host).core
    {
      hide Valid, Strip, Settled, Restorable;
      :- Restore();
      :- Inspect(true); // closing the lock file
      LetGo();
      return Ok;
    }

    method LetGo()
      requires Valid() && !cleaned && key == null && owned.None? && !ready && Settled(host)
      modifies `lock, `releasedIn, `cleaned
      ensures Valid() && cleaned && !lock && (everLocked ==> releasedIn == Some(host) && Settled(host))
    {
      hide KeyFacts, DestroyedFacts, Settled;
      lock := false;
      releasedIn := if everLocked then Some(host) else None;
      cleaned := true;
    }

    /**
     Returns normally only with the lock released, the key buffer zeroed and the machine as it
     was. It then left the volume destroyed exactly if it was destroyed before or a backing file
     was on record: with none on record it destroys nothing and says nothing.
     */
    method Cleanup() returns (status: Status)
      requires Valid()
      modifies this, key
      ensures Valid() && started == old(started) && (old(disturbed) ==> disturbed)
      ensures (status.Ok? <==> cleaned) && !ready
      ensures status.Ok? ==> !lock && key == null && Zeroed(buffer) && buffer == old(buffer)
      ensures status.Ok? && !old(cleaned) && everLocked ==> releasedIn == Some(host) && Settled(host)
      ensures status.Ok? ==> (observation.destroyed <==> old(observation.destroyed) || old(owned).Some?)
      ensures status.Raised? ==> lock == old(lock) && buffer == old(buffer)
      ensures key == null || key == old(key)
      ensures old(observation.destroyed) ==> observation.destroyed
      ensures everLocked == old(everLocked) && originalCore == old(originalCore) && originalSwaps == old(originalSwaps)
      ensures !old(cleaned) && old(originalCore).Some? && Strip(old(host).core) != DISABLED ==>
        status.Raised? && host.core == old(host).core
      ensures !disturbed ==>
        (status.Ok? <==> old(cleaned || ((owned.None? || Destroyable(host, owned, mountOwned)) && Restorable())))
    {
      hide Gone, Erased, Strip, Dismantlable, OnRecord, SwapsRestorable, Settled, DestroyedFacts, Destroyed;
      if cleaned { return Ok; }
      ready := false;
      :- Dispose();
      status := HandBack();
    }
  }

  lemma FormattedOpens(b: Backing, key: seq<int>)
    requires |b.keyslots| == 1 && b.keyslots[0].key == key
    ensures Opens(b, key)
  {
  }

  /**
   One attempt from start to end: prepare, then clean up until it works or the retries run out.
   Whatever failed and wherever, destruction is on record only when it is complete, and the
   volume is let go only with the key zeroed and the machine's swap list and core pattern as they
   were found, if they were ever touched.
   */
  method Lifecycle(initial: Host, retries: nat) returns (volume: H1SnapshotAttemptVolume, usable: bool, done: bool)
    ensures volume.Valid()
    ensures volume.observation.destroyed ==> Destroyed(volume.observation, volume.host) && YieldsToNoKey(volume.host)
    ensures volume.everLocked && !volume.lock ==> done
    ensures done ==> !volume.lock && volume.key == null && Zeroed(volume.buffer)
    ensures done && volume.everLocked && volume.swapsTouched ==>
      volume.releasedIn.Some? && volume.releasedIn.value.swaps == initial.swaps
    ensures done && volume.everLocked && volume.coreTouched ==>
      volume.releasedIn.Some? && volume.releasedIn.value.core == initial.core
  {
    volume := new H1SnapshotAttemptVolume(initial);
    var prepared := volume.Prepare();
    usable := prepared.Ok?;
    done := volume.cleaned;
    var i := 0;
    while i < retries && !done
      invariant volume.Valid() && done == volume.cleaned && volume.SavedFrom(initial)
      invariant fresh(volume) && (volume.key != null ==> fresh(volume.key))
    {
      var status := volume.Cleanup();
      done := status.Ok?;
      i := i + 1;
    }
    if volume.observation.destroyed { ErasedYieldsToNoKey(volume.host); }
  }

  lemma KnownSwapsComeBack(swaps: seq<Swap>)
    requires SwapsKnown(swaps)
    ensures Missing(swaps, []) == swaps && AllOn([], swaps) == swaps
  {
    if swaps == SWAPS {
      var first := [SWAPS[0]];
      assert SWAPS[..1] == first && first[..0] == [];
      assert Missing(first, []) == first && AllOn([], first) == first;
    }
  }

  /**
   On a clean machine, with nothing going wrong in the world: the volume is made, destroyed, and the machine
   given back with its swaps and its core pattern.
   */
  method UndisturbedLifecycle(initial: Host) returns (volume: H1SnapshotAttemptVolume, usable: bool, done: bool)
    requires CleanMachine(initial)
    ensures !volume.disturbed ==>
      && usable && done && volume.cleaned && !volume.lock && volume.key == null && volume.observation.destroyed
      && Destroyed(volume.observation, volume.host)
      && volume.host.swaps == initial.swaps && volume.host.core == initial.core
  {
    hide CleanMachine, SwapsKnown, Strip, Missing, AllOn;
    volume := new H1SnapshotAttemptVolume(initial);
    var prepared := volume.Prepare();
    usable := prepared.Ok?;
    if usable && !volume.disturbed {
      DisablingDisables();
      CleanHasKnownSwaps(initial);
      KnownSwapsComeBack(initial.swaps);
    }
    var cleaned := volume.Cleanup();
    done := cleaned.Ok?;
  }

  lemma CleanHasKnownSwaps(h: Host)
    requires CleanMachine(h)
    ensures SwapsKnown(h.swaps)
  {
  }

  /**
   Retrying never helps once the core pattern in place is not the disabled one: because it was restored
   but that could not be confirmed, or because disabling it had failed in the first place.
   */
  method RetryWithForeignCore(volume: H1SnapshotAttemptVolume, retries: nat)
    requires volume.Valid() && !volume.cleaned && volume.CoreIsForeign()
    modifies volume, volume.key
    ensures volume.Valid() && !volume.cleaned && (old(volume.lock) ==> volume.lock) && volume.CoreIsForeign()
  {
    hide Strip;
    var i := 0;
    while i < retries
      invariant volume.Valid() && !volume.cleaned && (old(volume.lock) ==> volume.lock)
      invariant volume.originalCore.Some? && volume.host.core == old(volume.host).core
      invariant volume.key == null || volume.key == old(volume.key)
    {
      var _ := volume.Cleanup();
      i := i + 1;
    }
  }

  /* ---- The attempt that owns the volume ---- */

  datatype Fact =
    | RunnerStopped | ControlStopped | ProducerStopped | RunnerNotRoutable | GithubTokenRevoked | VolumeDestroyed

  class H1SnapshotAttempt {
    var volume: H1SnapshotAttemptVolume?
    var hasRunner: bool
    var hasControl: bool
    var hasProducer: bool
    var hasGithub: bool
    var jitAttempted: bool
    var facts: map<Fact, bool>

    /** Destruction is on record only if the volume's own record says so. */
    ghost predicate Honest()
      reads this, volume
    {
      Recorded(VolumeDestroyed) ==> volume != null && volume.cleaned && volume.observation.destroyed
    }

    predicate Recorded(fact: Fact)
      reads `facts
    {
      fact in facts && facts[fact]
    }

    /** Stops one consumer if it exists; the result is whether it said so. */
    method Stop(present: bool, fact: Fact) returns (success: bool)
      requires !fact.VolumeDestroyed?
      modifies `facts
      ensures success <==> (present ==> Recorded(fact))
      ensures forall other: Fact :: other != fact ==> Recorded(other) == old(Recorded(other))
    {
      success := true;
      if present {
        success := *;
        facts := facts[fact := success];
      }
    }

    /** Every consumer of the volume that exists is on record as stopped. */
    predicate ConsumersStopped()
      reads this
    {
      && (hasRunner ==> Recorded(RunnerStopped))
      && (hasControl ==> Recorded(ControlStopped))
      && (hasProducer ==> Recorded(ProducerStopped))
      && (hasGithub ==> Recorded(GithubTokenRevoked) && (jitAttempted ==> Recorded(RunnerNotRoutable)))
    }

    method StopConsumers() returns (ok: bool)
      modifies `facts
      ensures ok <==> ConsumersStopped()
      ensures Recorded(VolumeDestroyed) == old(Recorded(VolumeDestroyed))
    {
      var runner := Stop(hasRunner, RunnerStopped);
      var control := Stop(hasControl, ControlStopped);
      var producer := Stop(hasProducer, ProducerStopped);
      var routable := Stop(hasGithub && jitAttempted, RunnerNotRoutable);
      var token := Stop(hasGithub, GithubTokenRevoked);
      ok := runner && control && producer && routable && token;
    }

    /**
     True only when every consumer stopped and the volume, if there is one, is destroyed; the volume is
     not touched while a consumer may still be using it.
     */
    method Cleanup() returns (ok: bool)
      requires Honest() && (volume != null ==> volume.Valid())
      modifies `facts, volume, if volume == null then null else volume.key
      ensures Honest() && (volume != null ==> volume.Valid())
      ensures ok ==> ConsumersStopped() && (volume != null ==> Recorded(VolumeDestroyed))
      ensures ok && volume != null ==>
        Destroyed(volume.observation, volume.host) && !volume.lock && volume.key == null
      ensures volume == null ==> (ok <==> ConsumersStopped())
      ensures volume != null && ConsumersStopped() ==> (ok <==> volume.cleaned && volume.observation.destroyed)
      ensures volume != null && !ConsumersStopped() ==> unchanged(volume)
    {
      ok := StopConsumers();
      if ok && volume != null {
        var status := volume.Cleanup();
        ok := status.Ok? && volume.observation.destroyed;
        facts := facts[VolumeDestroyed := ok];
      }
    }
  }
}
