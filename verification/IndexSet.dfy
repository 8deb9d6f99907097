/** The index-set bitmap that names the legs of one convert call. */
module IndexSet {
  import opened Base

  /** Bit `k` of `bits`. */
  function Bit(bits: nat, k: nat): bool {
    if k == 0 then bits % 2 == 1 else Bit(bits / 2, k - 1)
  }

  /** `bits | (1 << k)`, digit by digit; SetBitIsOr gives the arithmetic form. */
  function SetBit(bits: nat, k: nat): nat {
    if k == 0 then bits / 2 * 2 + 1 else SetBit(bits / 2, k - 1) * 2 + bits % 2
  }

  function Pow2(k: nat): nat {
    if k == 0 then 1 else 2 * Pow2(k - 1)
  }

  lemma {:induction false} SetBitIsOr(bits: nat, k: nat)
    ensures SetBit(bits, k) == if Bit(bits, k) then bits else bits + Pow2(k)
  {
    if k > 0 {
      SetBitIsOr(bits / 2, k - 1);
    }
  }

  lemma {:induction false} BitOfSetBit(bits: nat, k: nat, j: nat)
    ensures Bit(SetBit(bits, k), j) <==> j == k || Bit(bits, j)
  {
    if k > 0 && j > 0 {
      BitOfSetBit(bits / 2, k - 1, j - 1);
    }
  }

  lemma {:induction false} NoBitInZero(k: nat)
    ensures !Bit(0, k)
  {
    if k > 0 {
      NoBitInZero(k - 1);
    }
  }

  /** The bitmap of a list of question ids: each id's last byte is its position in the event. */
  function Bitmap(questionIds: seq<Bytes32>): nat {
    if questionIds == [] then 0
    else SetBit(Bitmap(questionIds[..|questionIds| - 1]), questionIds[|questionIds| - 1][31])
  }

  /** A bit is set exactly when some listed question sits at that position. */
  lemma {:induction false} BitmapBit(questionIds: seq<Bytes32>, k: nat)
    ensures Bit(Bitmap(questionIds), k) <==> exists i :: 0 <= i < |questionIds| && questionIds[i][31] == k
  {
    if questionIds == [] {
      NoBitInZero(k);
    } else {
      var n := |questionIds| - 1;
      var front := questionIds[..n];
      BitmapBit(front, k);
      BitOfSetBit(Bitmap(front), questionIds[n][31], k);
      if exists i :: 0 <= i < |front| && front[i][31] == k {
        var i :| 0 <= i < |front| && front[i][31] == k;
        assert questionIds[i][31] == k;
      }
      if exists i :: 0 <= i < |questionIds| && questionIds[i][31] == k {
        var i :| 0 <= i < |questionIds| && questionIds[i][31] == k;
        assert i == n || front[i][31] == k;
      }
    }
  }

  method IndexSetOf(questionIds: seq<Bytes32>) returns (bits: nat)
    ensures bits == Bitmap(questionIds)
    ensures forall k: nat :: Bit(bits, k) <==> exists i :: 0 <= i < |questionIds| && questionIds[i][31] == k
  {
    bits := 0;
    for n := 0 to |questionIds|
      invariant bits == Bitmap(questionIds[..n])
    {
      assert questionIds[..n + 1][..n] == questionIds[..n];
      bits := SetBit(bits, questionIds[n][31]);
    }
    assert questionIds[..|questionIds|] == questionIds;
    forall k: nat {
      BitmapBit(questionIds, k);
    }
  }
}
