/** Shared value types: optional values, outcomes, and 32-byte identifiers. */
module Base {

  datatype Option<+T> = None | Some(value: T)

  datatype Result<+T, +E> = Ok(value: T) | Err(error: E)

  type byte = x: nat | x < 256

  type Bytes32 = b: seq<byte> | |b| == 32 witness seq(32, i => 0)

  function Min(a: int, b: int): int {
    if a <= b then a else b
  }

  lemma AppendAssoc<T>(a: seq<T>, b: seq<T>, c: seq<T>)
    ensures (a + b) + c == a + (b + c)
  {
  }

  function Max(a: int, b: int): int {
    if a >= b then a else b
  }

  /** `part` is `whole` with some entries left out, the order kept. */
  ghost predicate InOrder<T>(part: seq<T>, whole: seq<T>) {
    part == []
    || (whole != []
        && (InOrder(part, whole[..|whole| - 1])
            || (part[|part| - 1] == whole[|whole| - 1]
                && InOrder(part[..|part| - 1], whole[..|whole| - 1]))))
  }

  lemma TailOfConcat<T>(a: seq<T>, b: seq<T>)
    requires a != []
    ensures (a + b)[0] == a[0] && (a + b)[1..] == a[1..] + b
  {
  }

  lemma SliceConcat<T>(s: seq<T>, k: nat, m: nat)
    requires k + m <= |s|
    ensures s[..k] + s[k..][..m] == s[..k + m] && s[k..][m..] == s[k + m..]
  {
  }

  lemma TakeFirst<T>(s: seq<T>, k: nat)
    requires 0 < k <= |s|
    ensures s[..k] == [s[0]] + s[1..][..k - 1]
  {
  }

  lemma DropFirst<T>(s: seq<T>, k: nat)
    requires 0 < k <= |s|
    ensures s[1..][k - 1..] == s[k..]
  {
  }

  lemma NoneTaken<T>(s: seq<T>)
    ensures s[..0] == [] && s[0..] == s
  {
  }

  /** The parts one after the other. */
  function Concat<T>(parts: seq<seq<T>>): seq<T> {
    if parts == [] then [] else Concat(parts[..|parts| - 1]) + parts[|parts| - 1]
  }

  lemma ConcatAppend<T>(parts: seq<seq<T>>, last: seq<T>)
    ensures Concat(parts + [last]) == Concat(parts) + last
  {
    assert (parts + [last])[..|parts|] == parts;
  }
}
