/** The token pool as the driver keeps it: a bitmap of words, a packed map of nibbles and counters. */
module TokenPool {
  import opened TxConfig
  import opened PoolModel
  import Bits

  const TX_DESC_BUCKET_BOUND: nat := 32

  class TokenPool {
    const c: Config
    const bufPoolBmp: array<nat>
    var spareDescQueueMap: nat
    const outstanding: array<nat>

    ghost predicate Valid()
      reads this, bufPoolBmp, outstanding
    {
      && c.Valid()
      && bufPoolBmp.Length == c.numTokens / TX_DESC_BUCKET_BOUND + 1
      && outstanding.Length == AC_MAX
      && bufPoolBmp != outstanding
    }

    predicate BusyBit(d: nat)
      requires bufPoolBmp.Length == c.numTokens / TX_DESC_BUCKET_BOUND + 1 && d < c.numTokens
      reads bufPoolBmp
    {
      Bits.Bit(bufPoolBmp[d / TX_DESC_BUCKET_BOUND], d % TX_DESC_BUCKET_BOUND)
    }

    ghost function Busy(): set<nat>
      requires Valid()
      reads this, bufPoolBmp, outstanding
    {
      set d: nat | 0 <= d < c.numTokens && BusyBit(d)
    }

    ghost function SpareBits(): set<nat>
      reads this
    {
      set b: nat | 0 <= b < 32 && Bits.Bit(spareDescQueueMap, b)
    }

    ghost function Abs(): Pool
      requires Valid()
      reads this, bufPoolBmp, outstanding
    {
      Pool(Busy(), SpareBits(), outstanding[..])
    }

    constructor (c: Config)
      requires c.Valid()
      ensures Valid() && this.c == c
      ensures fresh(bufPoolBmp) && fresh(outstanding)
      ensures Abs() == Pool({}, {}, [0, 0, 0, 0, 0])
    {
      this.c := c;
      bufPoolBmp := new nat[c.numTokens / TX_DESC_BUCKET_BOUND + 1](_ => 0);
      outstanding := new nat[AC_MAX](_ => 0);
      spareDescQueueMap := 0;
      new;
      forall i: nat ensures !Bits.Bit(0, i) { Bits.ZeroBits(i); }
      assert outstanding[..] == [0, 0, 0, 0, 0];
    }

    method SetBusy(d: nat)
      requires Valid() && d < c.numTokens
      modifies bufPoolBmp
      ensures Valid() && Busy() == old(Busy()) + {d}
    {
      var pool, bit := d / TX_DESC_BUCKET_BOUND, d % TX_DESC_BUCKET_BOUND;
      bufPoolBmp[pool] := Bits.Set(bufPoolBmp[pool], bit);
      forall e: nat | e < c.numTokens ensures BusyBit(e) <==> old(BusyBit(e)) || e == d {
        Bits.SetBit(old(bufPoolBmp[pool]), bit, e % TX_DESC_BUCKET_BOUND);
      }
    }

    method ClearBusy(d: nat)
      requires Valid() && d < c.numTokens
      modifies bufPoolBmp
      ensures Valid() && Busy() == old(Busy()) - {d}
    {
      var pool, bit := d / TX_DESC_BUCKET_BOUND, d % TX_DESC_BUCKET_BOUND;
      bufPoolBmp[pool] := Bits.Clear(bufPoolBmp[pool], bit);
      forall e: nat | e < c.numTokens ensures BusyBit(e) <==> old(BusyBit(e)) && e != d {
        Bits.ClearBit(old(bufPoolBmp[pool]), bit, e % TX_DESC_BUCKET_BOUND);
      }
    }

    lemma SpareBitInWord(d: nat, q: nat)
      requires c.Valid() && c.Reserved() <= d < c.numTokens && q < AC_MAX
      ensures SpareBit(c, d, q) < 32
    {
      SpareIndex(c, d);
    }

    method SetSpareDescQMap(d: nat, q: nat)
      requires Valid() && c.Reserved() <= d < c.numTokens && q < AC_MAX
      modifies this`spareDescQueueMap
      ensures SpareBits() == old(SpareBits()) + {SpareBit(c, d, q)}
    {
      var index := d % (c.numTokens / AC_MAX * AC_MAX);
      var bit := index * SPARE_Q_MAP_SIZE + q;
      spareDescQueueMap := Bits.Set(spareDescQueueMap, bit);
      SpareBitInWord(d, q);
      forall b: nat ensures Bits.Bit(spareDescQueueMap, b) <==> old(Bits.Bit(spareDescQueueMap, b)) || b == bit {
        Bits.SetBit(old(spareDescQueueMap), bit, b);
      }
    }

    method ClearSpareDescQMap(d: nat, q: nat)
      requires Valid() && c.Reserved() <= d < c.numTokens && q < AC_MAX
      modifies this`spareDescQueueMap
      ensures SpareBits() == old(SpareBits()) - {SpareBit(c, d, q)}
    {
      var index := d % (c.numTokens / AC_MAX * AC_MAX);
      var bit := index * SPARE_Q_MAP_SIZE + q;
      spareDescQueueMap := Bits.Clear(spareDescQueueMap, bit);
      forall b: nat ensures Bits.Bit(spareDescQueueMap, b) <==> old(Bits.Bit(spareDescQueueMap, b)) && b != bit {
        Bits.ClearBit(old(spareDescQueueMap), bit, b);
      }
    }

    method GetSpareDescQMap(d: nat) returns (nibble: nat)
      requires Valid() && c.Reserved() <= d < c.numTokens
      ensures forall q: nat | q < AC_MC :: Bits.Bit(nibble, q) <==> SpareBit(c, d, q) in SpareBits()
    {
      var index := d % (c.numTokens / AC_MAX * AC_MAX);
      nibble := Bits.Nibble(spareDescQueueMap, index);
      forall q: nat | q < AC_MC ensures Bits.Bit(nibble, q) <==> SpareBit(c, d, q) in SpareBits() {
        Bits.NibbleBit(spareDescQueueMap, index, q);
        SpareBitInWord(d, q);
      }
    }

    /** tx_desc_get: `numTokens` says that there is no token to be had. */
    method DescGet(q: nat) returns (desc: nat)
      requires Valid() && q < AC_MAX
      modifies this`spareDescQueueMap, bufPoolBmp, outstanding
      ensures Valid()
      ensures match FindFree(c, old(Busy()), q)
        case None => desc == c.numTokens && Abs() == old(Abs())
        case Some(d) => desc == d && d < c.numTokens && Abs() == Assign(c, old(Abs()), q, d)
    {
      TokenSplit(c);
      desc := c.numTokens;
      var cnt := 0;
      while cnt < c.PerAc()
        invariant cnt <= c.PerAc() && Abs() == old(Abs()) && desc == c.numTokens
        invariant FreeReserved(c, Busy(), q, 0) == FreeReserved(c, Busy(), q, cnt)
      {
        if BusyBit(Nth(q, cnt)) {
          cnt := cnt + 1;
        } else {
          desc := Nth(q, cnt);
          break;
        }
      }
      if cnt < c.PerAc() {
        SetBusy(desc);
        outstanding[q] := Inc(outstanding[q]);
        return;
      }
      desc := c.Reserved();
      while desc < c.numTokens
        invariant c.Reserved() <= desc <= c.numTokens && Abs() == old(Abs())
        invariant FindFree(c, Busy(), q) == FreeSpare(c, Busy(), desc)
      {
        if !BusyBit(desc) {
          SetBusy(desc);
          outstanding[q] := Inc(outstanding[q]);
          SetSpareDescQMap(desc, q);
          return;
        }
        desc := desc + 1;
      }
    }

    /** tx_desc_free. */
    method DescFree(d: nat, q: nat)
      requires Valid() && d < c.numTokens && q < AC_MAX
      modifies this`spareDescQueueMap, bufPoolBmp, outstanding
      ensures Valid() && Abs() == Release(c, old(Abs()), d, q)
    {
      if !BusyBit(d) { return; }
      ClearBusy(d);
      outstanding[q] := Dec(outstanding[q]);
      if d >= c.Reserved() {
        ClearSpareDescQMap(d, q);
      }
    }

    /** The first half of tx_buff_req_free: which queue is the token in use for? */
    method TxDoneQueue(d: nat) returns (q: nat)
      requires Valid() && d < c.numTokens
      ensures q == Owner(c, Abs(), d)
    {
      if d < c.Reserved() {
        q := d % AC_MAX;
      } else {
        var nibble := GetSpareDescQMap(d);
        if Bits.Bit(nibble, AC_BK) {
          q := AC_BK;
        } else if Bits.Bit(nibble, AC_BE) {
          q := AC_BE;
        } else if Bits.Bit(nibble, AC_VI) {
          q := AC_VI;
        } else if Bits.Bit(nibble, AC_VO) {
          q := AC_VO;
        } else {
          q := 0;
        }
      }
    }

    /** The bookkeeping of tx_buff_req_free when the next batch is from another access category. */
    method ChangeQueue(d: nat, from: nat, to: nat)
      requires Valid() && c.Reserved() <= d < c.numTokens && from < AC_MAX && to < AC_MAX && from != to
      modifies this`spareDescQueueMap, outstanding
      ensures Valid() && Abs() == Reown(c, old(Abs()), d, from, to)
    {
      outstanding[from] := Dec(outstanding[from]);
      outstanding[to] := Inc(outstanding[to]);
      ClearSpareDescQMap(d, from);
      SetSpareDescQMap(d, to);
    }
  }
}
