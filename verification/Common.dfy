/** Types and bounds shared by every component. */
module Common {

  newtype byte = x: int | 0 <= x < 256
  type bytes = seq<byte>

  datatype Option<+T> = None | Some(value: T) {
    function UnwrapOr(default: T): T {
      if Some? then value else default
    }
  }

  const UINT32_MAX: nat := 0xFFFF_FFFF

  /** How many breadcrumbs the crash handler asks for and a crash record holds. */
  const CRASH_CRUMBS: nat := 32

  /** The largest tables the clamped configuration can ask for. */
  const FRAMES_MAX: nat := 65536
  const NODES_MAX: nat := 262144
  const ARENA_MAX: nat := FRAMES_MAX * 256

  function Min(a: nat, b: nat): nat {
    if a < b then a else b
  }

  function Max(a: nat, b: nat): nat {
    if a < b then b else a
  }

  function Reverse<T>(s: seq<T>): (r: seq<T>)
    ensures |r| == |s|
  {
    if s == [] then [] else [s[|s| - 1]] + Reverse(s[..|s| - 1])
  }

  function Sum(s: seq<nat>): nat {
    if s == [] then 0 else Sum(s[..|s| - 1]) + s[|s| - 1]
  }

  /** The greatest of some numbers, 0 if there are none. */
  ghost predicate IsGreatest(m: nat, s: seq<nat>) {
    (forall i :: 0 <= i < |s| ==> s[i] <= m) && if s == [] then m == 0 else m in s
  }

  lemma SumOneMore(s: seq<nat>, x: nat)
    ensures Sum(s + [x]) == Sum(s) + x
  {
    assert (s + [x])[..|s|] == s;
  }

  lemma GreatestOneMore(m: nat, s: seq<nat>, x: nat)
    requires IsGreatest(m, s)
    ensures IsGreatest(Max(m, x), s + [x])
  {
    assert (s + [x])[|s|] == x;
    assert forall i :: 0 <= i < |s| ==> (s + [x])[i] == s[i];
  }

  lemma {:induction false} ReverseAt<T>(s: seq<T>, k: nat)
    requires k < |s|
    ensures Reverse(s)[k] == s[|s| - 1 - k]
  {
    if k > 0 {
      ReverseAt(s[..|s| - 1], k - 1);
    }
  }

  lemma JoinsEitherWay<T>(a: seq<T>, b: seq<T>, c: seq<T>)
    ensures a + (b + c) == (a + b) + c
  {
  }
}
