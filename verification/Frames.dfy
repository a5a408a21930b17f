/** Frame interning: one id per (name, file, declaration line). */
module Frames {
  import opened Common
  import opened Arena
  import opened Probing

  const FRAME_NAME_MAX: nat := 320

  datatype Identity = Identity(name: bytes, file: bytes, line: nat)

  function CutName(text: bytes): bytes {
    text[..Min(|text|, FRAME_NAME_MAX)]
  }

  function Cut(id: Identity): Identity {
    Identity(CutName(id.name), CutName(id.file), id.line)
  }

  lemma CutTwice(name: bytes, file: bytes, line: nat)
    ensures Cut(Identity(CutName(name), file, line)) == Cut(Identity(name, file, line))
  {
    assert CutName(CutName(name)) == CutName(name);
  }

  /** What the table means: the identities in order of their ids, the arena cursor, the refusals. */
  datatype Names = Names(ids: seq<Identity>, used: nat, hits: nat)

  const NO_NAMES: Names := Names([], 0, 0)

  ghost function IndexOf<T>(s: seq<T>, x: T): (i: nat)
    requires x in s
    ensures i < |s| && s[i] == x
  {
    var i: nat :| i < |s| && s[i] == x;
    i
  }

  /** Both strings of an identity, put one after the other; None when the name or the file does not fit. */
  function Stored(key: Identity, used: nat, arena: nat): (nat, bool) {
    var named := AfterPut(used, |key.name|);
    if named > arena then (used, false)
    else if key.file == [] then (named, true)
    else if AfterPut(named, |key.file|) > arena then (named, false)
    else (AfterPut(named, |key.file|), true)
  }

  /** Interning as a linear search of the list of identities. */
  ghost function Interned(names: Names, capacity: nat, arena: nat, id: Identity): (Names, Option<nat>) {
    Resolved(names, capacity, arena, Cut(id))
  }

  ghost function Resolved(names: Names, capacity: nat, arena: nat, key: Identity): (Names, Option<nat>) {
    if key.name == [] then (names, None)
    else if key in names.ids then (names, Some(IndexOf(names.ids, key)))
    else Added(names, capacity, arena, key)
  }

  /** A new identity gets the next id if the table and the arena have room for it. */
  ghost function Added(names: Names, capacity: nat, arena: nat, key: Identity): (Names, Option<nat>) {
    if |names.ids| >= capacity then (names.(hits := names.hits + 1), None)
    else
      var (used, fits) := Stored(key, names.used, arena);
      if fits then (Names(names.ids + [key], used, names.hits), Some(|names.ids|))
      else (Names(names.ids, used, names.hits + 1), None)
  }

  /** New names go to the end, and none goes missing. */
  ghost predicate NamesGrow(names: Names, names': Names) {
    Distinct(names'.ids, 0) && names.ids <= names'.ids && names.hits <= names'.hits
  }

  /** Interning gives every identity one id, for good. */
  lemma InternedMeans(names: Names, capacity: nat, arena: nat, id: Identity)
    requires Distinct(names.ids, 0)
    ensures var (names', found) := Interned(names, capacity, arena, id);
      && NamesGrow(names, names')
      && (found.Some? ==> Cut(id) in names'.ids && found.value < |names'.ids| && names'.ids[found.value] == Cut(id))
      && (found.None? ==> Cut(id) !in names'.ids || id.name == [])
      && (found.None? ==> names'.ids == names.ids && (names'.hits > names.hits || id.name == []))
  {
  }

  /** The end of a string and its NUL put behind `used` bytes, at the next multiple of 8. */
  function PutEnd(used: nat, len: nat): (end: nat)
    ensures used + len < end <= used + len + 8
  {
    (used + 7) / 8 * 8 + len + 1
  }

  /** Where the cursor stands after both strings of an identity; a file that is not there takes no room. */
  function StoredEnd(used: nat, key: Identity): (end: nat)
    ensures used < end
  {
    var named := PutEnd(used, |key.name|);
    if key.file == [] then named else PutEnd(named, |key.file|)
  }

  /**
   Interning refuses exactly a name without bytes, and a new identity that the table or the arena has no
   room for; only the latter counts as a hit. A new one that is not refused takes the next id and the room
   of its strings.
   */
  lemma InternRefusedIff(names: Names, capacity: nat, arena: nat, id: Identity)
    ensures var (names', found) := Interned(names, capacity, arena, id);
      var key := Cut(id);
      var full := |names.ids| >= capacity || StoredEnd(names.used, key) > arena;
      && (found.None? <==> id.name == [] || (key !in names.ids && full))
      && names'.ids == names.ids + (if found.Some? && key !in names.ids then [key] else [])
      && names'.hits == names.hits + (if found.None? && id.name != [] then 1 else 0)
      && (found.Some? ==> names'.used == if key in names.ids then names.used else StoredEnd(names.used, key))
  {
  }

  datatype Frame = Frame(hash: nat, nameOff: nat, nameLen: nat, fileOff: Option<nat>, fileLen: nat, line: nat)

  /** A stretch of the arena holds exactly these bytes. */
  ghost predicate Holds(store: bytes, offset: nat, len: nat, text: bytes) {
    offset + len <= |store| && store[offset..offset + len] == text
  }

  /** The stored record of a frame spells out its identity. */
  ghost predicate Spells(store: bytes, frame: Frame, id: Identity, hash: Identity -> nat) {
    && frame.hash == hash(id)
    && frame.line == id.line
    && 0 < frame.nameLen == |id.name| && Holds(store, frame.nameOff, frame.nameLen, id.name)
    && frame.fileLen == |id.file|
    && (if id.file == [] then frame.fileOff.None?
        else frame.fileOff.Some? && Holds(store, frame.fileOff.value, frame.fileLen, id.file))
  }

  /** The stored record of a frame compared with an identity, field by field. */
  predicate Same(store: bytes, frame: Frame, code: nat, key: Identity)
    requires frame.nameOff + frame.nameLen <= |store|
    requires frame.fileOff.Some? ==> frame.fileOff.value + frame.fileLen <= |store|
    requires frame.fileOff.None? ==> frame.fileLen == 0
  {
    && frame.hash == code
    && frame.line == key.line
    && frame.nameLen == |key.name|
    && store[frame.nameOff..frame.nameOff + frame.nameLen] == key.name
    && frame.fileLen == |key.file|
    && (frame.fileLen == 0 || store[frame.fileOff.value..frame.fileOff.value + frame.fileLen] == key.file)
  }

  /** The comparison tells identities apart. */
  lemma SameIsEquality(store: bytes, frame: Frame, id: Identity, key: Identity, hash: Identity -> nat)
    requires Spells(store, frame, id, hash)
    ensures frame.nameOff + frame.nameLen <= |store|
    ensures if frame.fileOff.Some? then frame.fileOff.value + frame.fileLen <= |store| else frame.fileLen == 0
    ensures Same(store, frame, hash(key), key) <==> id == key
  {
  }

  /** Growing the arena does not touch what a frame spells. */
  lemma SpellsGrows(store: bytes, store': bytes, frame: Frame, id: Identity, hash: Identity -> nat)
    requires Spells(store, frame, id, hash) && store <= store'
    ensures Spells(store', frame, id, hash)
  {
    assert store' [frame.nameOff..frame.nameOff + frame.nameLen] == id.name;
    if id.file != [] {
      assert store'[frame.fileOff.value..frame.fileOff.value + frame.fileLen] == id.file;
    }
  }

  class FrameTable {
    const hash: Identity -> nat
    const capacity: nat
    const frames: array<Frame>
    const buckets: array<nat>
    var count: nat
    var hits: nat
    ghost var ids: seq<Identity>
    ghost var slots: seq<nat>

    ghost predicate Valid()
      reads this, frames, buckets
    {
      && 0 < capacity == frames.Length <= FRAMES_MAX
      && 2 * capacity <= buckets.Length && 16 <= buckets.Length && PowerOfTwo(buckets.Length)
      && count == |ids| <= capacity
      && Distinct(ids, 0)
      && Index(buckets[..], slots, ids, 0, hash)
    }

    /** Every live frame is spelled out in the arena. */
    ghost predicate SpelledIn(arena: Arena)
      requires Valid() && arena.Valid()
      reads this, frames, buckets, arena, arena.base
    {
      forall i :: 0 <= i < count ==> Spells(arena.Store(), frames[i], ids[i], hash)
    }

    ghost function State(arena: Arena): Names
      reads this, arena
    {
      Names(ids, arena.used, hits)
    }

    constructor (capacity: nat, hash: Identity -> nat)
      requires 0 < capacity <= FRAMES_MAX
      ensures Valid() && fresh(frames) && fresh(buckets)
      ensures this.capacity == capacity && this.hash == hash
      ensures ids == [] && hits == 0
    {
      var size := BucketCount(capacity);
      this.capacity, this.hash := capacity, hash;
      frames := new Frame[capacity](_ => Frame(0, 0, 0, None, 0, 0));
      buckets := new nat[size](_ => 0);
      count, hits := 0, 0;
      ids, slots := [], [];
    }

    /** Probes for an identity: its id, or the empty bucket where it belongs. */
    method Locate(arena: Arena, key: Identity) returns (slot: nat, found: Option<nat>, ghost steps: nat)
      requires Valid() && arena.Valid() && SpelledIn(arena) && key.name != []
      ensures slot < buckets.Length
      ensures found.Some? ==> found.value < count && ids[found.value] == key
      ensures found.None? ==>
        && key !in ids
        && Missed(buckets[..], ids, hash(key), key, steps)
        && slot == Probe(hash(key), steps, buckets.Length) && buckets[slot] == 0
    {
      hide Missed, Reachable, Distinct, PowerOfTwo, Spells, Same;
      var code := hash(key);
      slot := Home(code, buckets.Length);

      ghost var free: nat := 0;
      steps := 0;
      FreeBucket(buckets[..], slots, ids, 0, hash);
      free :| 0 <= free < buckets.Length && buckets[..][free] == 0;
      ProbeStarts(buckets[..], ids, code, key, free);
      while buckets[slot] != 0
        invariant slot < buckets.Length && Underway(buckets[..], ids, code, key, free, slot, steps)
        decreases Gap(slot, free, buckets.Length)
      {
        var id := buckets[slot] - 1;
        SameIsEquality(arena.Store(), frames[id], ids[id], key, hash);
        if Same(arena.base[..arena.used], frames[id], code, key) {
          return slot, Some(id), steps;
        }
        ProbeGoesOn(buckets[..], ids, code, key, free, slot, steps);
        slot := Wrap(slot + 1, buckets.Length);
        steps := steps + 1;
      }
      MissIsAbsence(buckets[..], slots, ids, 0, hash, key, steps);
      found := None;
    }

    /** Copies the strings of an identity into the arena. */
    method Spell(arena: Arena, key: Identity) returns (nameOff: Option<nat>, fileOff: Option<nat>)
      requires Valid() && arena.Valid() && SpelledIn(arena)
      requires |key.name| <= FRAME_NAME_MAX && |key.file| <= FRAME_NAME_MAX
      modifies arena, arena.base
      ensures Valid() && arena.Valid() && SpelledIn(arena)
      ensures old(arena.Store()) <= arena.Store()
      ensures (arena.used, nameOff.Some? && (key.file == [] || fileOff.Some?))
        == Stored(key, old(arena.used), arena.size)
      ensures nameOff.Some? ==> Holds(arena.Store(), nameOff.value, |key.name|, key.name)
      ensures fileOff.Some? ==> nameOff.Some? && Holds(arena.Store(), fileOff.value, |key.file|, key.file)
      ensures key.file == [] ==> fileOff.None?
    {
      hide Index;
      ghost var before := arena.Store();
      fileOff := None;
      nameOff := arena.Put(key.name);
      ghost var named := arena.Store();
      if nameOff.Some? && |key.file| > 0 {
        fileOff := arena.Put(key.file);
        assert arena.Store()[..|named|] == named;
        assert arena.Store()[nameOff.value..nameOff.value + |key.name|] == key.name;
      }
      forall i | 0 <= i < count
        ensures Spells(arena.Store(), frames[i], ids[i], hash)
      {
        SpellsGrows(before, arena.Store(), frames[i], ids[i], hash);
      }
    }

    /** Adds the frame of an identity that a probe did not meet, in the bucket where the probe ended. */
    method Append(arena: Arena, frame: Frame, ghost key: Identity, slot: nat, ghost steps: nat)
      requires Valid() && arena.Valid() && SpelledIn(arena)
      requires count < capacity && key !in ids && Spells(arena.Store(), frame, key, hash)
      requires Missed(buckets[..], ids, hash(key), key, steps)
      requires slot == Probe(hash(key), steps, buckets.Length) && buckets[slot] == 0
      requires arena.base as object != frames
      modifies this`count, this`ids, this`slots, frames, buckets
      ensures Valid() && arena.Valid() && SpelledIn(arena) && arena.Store() == old(arena.Store())
      ensures ids == old(ids) + [key] && count == old(count) + 1
      ensures forall i :: 0 <= i < old(count) ==> frames[i] == old(frames[i])
    {
      hide Index, Missed, PowerOfTwo;
      Inserted(buckets[..], slots, ids, 0, hash, key, steps);
      frames[count] := frame;
      buckets[slot] := count + 1;
      count := count + 1;
      ids, slots := ids + [key], slots + [slot];
      assert buckets[..] == old(buckets[..])[slot := count];
      assert arena.Store() == old(arena.Store());
    }

    /** The record of a new frame, with its strings in the arena, if they fit. */
    method Describe(arena: Arena, key: Identity) returns (frame: Option<Frame>)
      requires Valid() && arena.Valid() && SpelledIn(arena)
      requires 0 < |key.name| <= FRAME_NAME_MAX && |key.file| <= FRAME_NAME_MAX
      modifies arena, arena.base
      ensures Valid() && arena.Valid() && SpelledIn(arena)
      ensures old(arena.Store()) <= arena.Store()
      ensures (arena.used, frame.Some?) == Stored(key, old(arena.used), arena.size)
      ensures frame.Some? ==> Spells(arena.Store(), frame.value, key, hash)
    {
      hide Index;
      var nameOff, fileOff := Spell(arena, key);
      if nameOff.None? || (|key.file| > 0 && fileOff.None?) {
        return None;
      }
      return Some(Frame(hash(key), nameOff.value, |key.name|, fileOff, |key.file|, key.line));
    }

    method Add(arena: Arena, key: Identity, slot: nat, ghost steps: nat) returns (id: Option<nat>)
      requires Valid() && arena.Valid() && SpelledIn(arena)
      requires arena.base as object != frames && arena.base as object != buckets
      requires key !in ids && 0 < |key.name| <= FRAME_NAME_MAX && |key.file| <= FRAME_NAME_MAX
      requires Missed(buckets[..], ids, hash(key), key, steps)
      requires slot == Probe(hash(key), steps, buckets.Length) && buckets[slot] == 0
      modifies this, frames, buckets, arena, arena.base
      ensures Valid() && arena.Valid() && SpelledIn(arena)
      ensures (State(arena), id) == Added(old(State(arena)), capacity, arena.size, key)
      ensures old(arena.Store()) <= arena.Store()
      ensures forall i :: 0 <= i < old(count) ==> frames[i] == old(frames[i])
    {
      hide Index, Missed, Spells, Stored;
      if count >= capacity {
        hits := hits + 1;
        return None;
      }
      var frame := Describe(arena, key);
      if frame.None? {
        hits := hits + 1;
        return None;
      }
      Append(arena, frame.value, key, slot, steps);
      return Some(count - 1);
    }

    /** The hashed lookup answers, and leaves the table, exactly as a linear search would. */
    method Intern(arena: Arena, name: bytes, file: bytes, line: nat) returns (id: Option<nat>)
      requires Valid() && arena.Valid() && SpelledIn(arena)
      requires arena.base as object != frames && arena.base as object != buckets
      modifies this, frames, buckets, arena, arena.base
      ensures Valid() && arena.Valid() && SpelledIn(arena)
      ensures (State(arena), id) ==
        Interned(old(State(arena)), capacity, arena.size, Identity(name, file, line))
      ensures old(arena.Store()) <= arena.Store() && old(ids) <= ids
      ensures forall i :: 0 <= i < old(count) ==> frames[i] == old(frames[i])
    {
      hide Index;
      if |name| == 0 {
        return None;
      }
      var key := Cut(Identity(name, file, line));
      ghost var steps;
      var slot;
      slot, id, steps := Locate(arena, key);
      if id.Some? {
        return;
      }
      id := Add(arena, key, slot, steps);
    }

    method Reset()
      requires Valid()
      modifies this, buckets
      ensures Valid() && ids == [] && hits == 0
    {
      if count > 0 {
        forall i | 0 <= i < buckets.Length {
          buckets[i] := 0;
        }
        count := 0;
      }
      hits := 0;
      ids, slots := [], [];
    }
  }
}
