/** The bump arena that holds function and file names. */
module Arena {
  import opened Common

  const SIZE_T: nat := 0x1_0000_0000_0000_0000

  /** The cursor rounded up to a multiple of 8. */
  function Align(used: nat): (offset: nat)
    ensures used <= offset < used + 8 && offset % 8 == 0
  {
    (used + 7) / 8 * 8
  }

  /** Where the cursor stands after `len` bytes and a NUL are put. */
  function AfterPut(used: nat, len: nat): nat {
    Align(used) + len + 1
  }

  class Arena {
    const size: nat
    const base: array<byte>
    var used: nat
    var peak: nat
    var exhausted: nat

    ghost predicate Valid()
      reads this
    {
      && 0 < size <= ARENA_MAX
      && base.Length == size
      && used <= peak <= size
    }

    /** Everything handed out so far. */
    ghost function Store(): bytes
      requires Valid()
      reads this, base
    {
      base[..used]
    }

    constructor (size: nat)
      requires 0 < size <= ARENA_MAX
      ensures Valid() && fresh(base) && this.size == size
      ensures used == 0 && exhausted == 0
    {
      this.size := size;
      base := new byte[size](_ => 0);
      used, peak, exhausted := 0, 0, 0;
    }

    /**
     A handout is aligned, lies past every earlier one and inside the slab; it is refused
     exactly when it does not fit, for any request a size_t can hold.
     */
    method Alloc(count: nat) returns (offset: Option<nat>)
      requires Valid() && count < SIZE_T
      modifies this`used, this`peak, this`exhausted
      ensures Valid()
      ensures offset.Some? <==> Align(old(used)) + count <= size
      ensures offset.Some? ==>
        && offset.value == Align(old(used))
        && used == offset.value + count && peak == Max(old(peak), used)
        && exhausted == old(exhausted)
      ensures offset.None? ==>
        used == old(used) && peak == old(peak) && exhausted == old(exhausted) + 1
    {
      var start := Align(used);
      var aligned := (start + count) % SIZE_T;
      if aligned < start || aligned > size {
        exhausted := exhausted + 1;
        return None;
      }
      used := aligned;
      if aligned > peak {
        peak := aligned;
      }
      return Some(start);
    }

    method Put(text: bytes) returns (offset: Option<nat>)
      requires Valid() && |text| + 1 < SIZE_T
      modifies this`used, this`peak, this`exhausted, base
      ensures Valid()
      ensures offset.Some? <==> AfterPut(old(used), |text|) <= size
      ensures offset.Some? ==>
        && used == AfterPut(old(used), |text|)
        && Align(old(used)) == offset.value
        && Store()[offset.value..offset.value + |text|] == text
        && Store()[offset.value + |text|] == 0
      ensures offset.None? ==> used == old(used)
      ensures exhausted == old(exhausted) + if offset.None? then 1 else 0
      ensures peak == Max(old(peak), used)
      ensures old(Store()) <= Store()
    {
      offset := Alloc(|text| + 1);
      if offset.Some? {
        var at := offset.value;
        forall i | 0 <= i < |text| {
          base[at + i] := text[i];
        }
        base[at + |text|] := 0;
        assert forall i :: 0 <= i < |text| ==> base[at + i] == text[i];
        assert base[..used][at..at + |text|] == text;
      }
    }

    method Reset()
      requires Valid()
      modifies this`used, this`exhausted
      ensures Valid() && used == 0 && exhausted == 0
    {
      used := 0;
      exhausted := 0;
    }
  }
}
