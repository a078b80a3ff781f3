/**
  The bit masks of comm/fserver/csrc/public.hpp: shifts are made in a 32-bit int
  and then widened to 64 bits, with the sign.
 */
module WorkerMask {
  import opened Prelude

  // An int as an uint64_t.
  function Widen(x: bv32): bv64 {
    if x & 0x8000_0000 != 0 then (x as bv64) | 0xffff_ffff_0000_0000 else x as bv64
  }

  // 1 << rank
  function OneBit(rank: bv6): bv64
    requires rank < 32
  {
    Widen(1 << rank)
  }

  // ~(empty << rank)
  function KeepMask(empty: bool, rank: bv6): bv64
    requires rank < 32
  {
    Widen(!((if empty then 1 else 0) << rank))
  }

  // (1 << n) - 1
  function FullMask(n: bv6): bv64
    requires n < 32
  {
    Widen((1 << n) - 1)
  }

  predicate HasBit(m: bv64, b: bv6) {
    (m >> b) & 1 == 1
  }

  // ---------------------------------------------------------------- one bit at a time

  lemma OrBit(m: bv64, a: bv6, b: bv6)
    requires a < 31
    ensures HasBit(m | OneBit(a), b) <==> HasBit(m, b) || b == a
  {
  }

  lemma KeepBit(m: bv64, a: bv6, b: bv6)
    requires a < 31
    ensures HasBit(m & KeepMask(true, a), b) <==> HasBit(m, b) && b != a
  {
  }

  lemma KeepAll(m: bv64, a: bv6)
    requires a < 32
    ensures m & KeepMask(false, a) == m
  {
  }

  lemma FullBits(n: bv6, b: bv6)
    requires n <= 30
    ensures HasBit(FullMask(n), b) <==> b < n
  {
  }

  // From rank 31 on the sign sets all higher bits too.
  lemma SignBits(b: bv6)
    ensures HasBit(OneBit(31), b) <==> b >= 31
  {
  }

  // A shift sets its own bit alone exactly for ranks below 31.
  lemma OwnBitOnly(a: bv6)
    requires a < 32
    ensures (forall b: bv6 :: HasBit(OneBit(a), b) <==> b == a) <==> a < 31
  {
    if a < 31 {
      forall b: bv6 ensures HasBit(OneBit(a), b) <==> b == a {
        OrBit(0, a, b);
        NoBits(b);
        assert 0 | OneBit(a) == OneBit(a);
      }
    } else {
      assert a == 31;
      SignBits(32);
    }
  }

  lemma NoBits(b: bv6)
    ensures !HasBit(0, b)
  {
  }

  // (1 << n) - 1 does not overflow an int exactly for at most 30 workers.
  lemma FullOverflows(n: bv6)
    requires n < 32
    ensures ((1 as bv32) << n) & 0x8000_0000 == 0 <==> n <= 30
  {
  }

  // ---------------------------------------------------------------- whole words

  // A bit among the two (4, 8, ...) from c on, in the lower or in the upper half.
  lemma Half1(x: bv64, c: bv6)
    requires c & 0x1 == 0 && (x >> c) & 0x3 != 0
    ensures (x >> c) & 0x1 != 0 || (x >> (c + 1)) & 0x1 != 0
  {
  }

  lemma Find2(x: bv64, c: bv6) returns (b: bv6)
    requires c & 0x1 == 0 && (x >> c) & 0x3 != 0
    ensures HasBit(x, b)
  {
    Half1(x, c);
    b := if (x >> c) & 0x1 != 0 then c else c + 1;
    LastBit(x >> b);
  }

  lemma Half2(x: bv64, c: bv6)
    requires c & 0x3 == 0 && (x >> c) & 0xf != 0
    ensures (c + 2) & 0x1 == 0 && c & 0x1 == 0
    ensures (x >> c) & 0x3 != 0 || (x >> (c + 2)) & 0x3 != 0
  {
  }

  lemma Find4(x: bv64, c: bv6) returns (b: bv6)
    requires c & 0x3 == 0 && (x >> c) & 0xf != 0
    ensures HasBit(x, b)
  {
    Half2(x, c);
    if (x >> c) & 0x3 != 0 {
      b := Find2(x, c);
    } else {
      b := Find2(x, c + 2);
    }
  }

  lemma Half4(x: bv64, c: bv6)
    requires c & 0x7 == 0 && (x >> c) & 0xff != 0
    ensures (c + 4) & 0x3 == 0 && c & 0x3 == 0
    ensures (x >> c) & 0xf != 0 || (x >> (c + 4)) & 0xf != 0
  {
  }

  lemma Find8(x: bv64, c: bv6) returns (b: bv6)
    requires c & 0x7 == 0 && (x >> c) & 0xff != 0
    ensures HasBit(x, b)
  {
    Half4(x, c);
    if (x >> c) & 0xf != 0 {
      b := Find4(x, c);
    } else {
      b := Find4(x, c + 4);
    }
  }

  lemma Half8(x: bv64, c: bv6)
    requires c & 0xf == 0 && (x >> c) & 0xffff != 0
    ensures (c + 8) & 0x7 == 0 && c & 0x7 == 0
    ensures (x >> c) & 0xff != 0 || (x >> (c + 8)) & 0xff != 0
  {
  }

  lemma Find16(x: bv64, c: bv6) returns (b: bv6)
    requires c & 0xf == 0 && (x >> c) & 0xffff != 0
    ensures HasBit(x, b)
  {
    Half8(x, c);
    if (x >> c) & 0xff != 0 {
      b := Find8(x, c);
    } else {
      b := Find8(x, c + 8);
    }
  }

  lemma Half16(x: bv64, c: bv6)
    requires c & 0x1f == 0 && (x >> c) & 0xffff_ffff != 0
    ensures (c + 16) & 0xf == 0 && c & 0xf == 0
    ensures (x >> c) & 0xffff != 0 || (x >> (c + 16)) & 0xffff != 0
  {
  }

  lemma Find32(x: bv64, c: bv6) returns (b: bv6)
    requires c & 0x1f == 0 && (x >> c) & 0xffff_ffff != 0
    ensures HasBit(x, b)
  {
    Half16(x, c);
    if (x >> c) & 0xffff != 0 {
      b := Find16(x, c);
    } else {
      b := Find16(x, c + 16);
    }
  }

  lemma LastBit(y: bv64)
    requires y & 0x1 != 0
    ensures y & 1 == 1
  {
  }

  lemma WordHalves(x: bv64)
    requires x != 0
    ensures (x >> 0) & 0xffff_ffff != 0 || (x >> 32) & 0xffff_ffff != 0
  {
  }

  // A word that is not zero has a bit.
  lemma FindBit(x: bv64) returns (b: bv6)
    requires x != 0
    ensures HasBit(x, b)
  {
    WordHalves(x);
    if (x >> 0) & 0xffff_ffff != 0 {
      b := Find32(x, 0);
    } else {
      b := Find32(x, 32);
    }
  }

  lemma XorBit(m: bv64, m': bv64, b: bv6)
    ensures HasBit(m ^ m', b) <==> HasBit(m, b) != HasBit(m', b)
  {
  }

  lemma SameBits(m: bv64, m': bv64)
    requires forall b: bv6 :: HasBit(m, b) <==> HasBit(m', b)
    ensures m == m'
  {
    if m ^ m' != 0 {
      var b := FindBit(m ^ m');
      XorBit(m, m', b);
    } else {
      XorZero(m, m');
    }
  }

  lemma XorZero(m: bv64, m': bv64)
    requires m ^ m' == 0
    ensures m == m'
  {
  }

  // ---------------------------------------------------------------- masks as sets of ranks

  datatype Mask = Mask(word: bv64)

  lemma RankRoundTrip(i: nat)
    requires i < 64
    ensures (i as bv6) as int == i
  {
  }

  lemma BitsOrdered(b: bv6, c: bv6)
    ensures b < c <==> b as int < c as int
    ensures b == c <==> b as int == c as int
  {
  }

  lemma BitRoundTrip(b: bv6)
    ensures 0 <= b as int < 64 && (b as int) as bv6 == b
  {
  }

  // Bit i of the mask is set exactly for these i.
  ghost predicate Marks(m: Mask, s: set<nat>) {
    && (forall b: bv6 :: HasBit(m.word, b) <==> b as int in s)
    && (forall i :: i in s ==> i < 64)
  }

  // Exactly the bits below n are set.
  ghost predicate FullFor(m: Mask, n: nat) {
    n < 64 && forall b: bv6 :: HasBit(m.word, b) <==> b as int < n
  }

  lemma FullMarks(m: Mask, n: nat)
    requires FullFor(m, n)
    ensures Marks(m, Below(n))
  {
    forall b: bv6 ensures HasBit(m.word, b) <==> b as int in Below(n) { BitRoundTrip(b); }
  }

  ghost predicate SetsBit(m: bv64, m': bv64, a: bv6) {
    forall b: bv6 :: HasBit(m', b) <==> HasBit(m, b) || b == a
  }

  ghost predicate ClearsBit(m: bv64, m': bv64, a: bv6) {
    forall b: bv6 :: HasBit(m', b) <==> HasBit(m, b) && b != a
  }

  lemma OrSetsBit(m: bv64, a: bv6)
    requires a < 31
    ensures SetsBit(m, m | OneBit(a), a)
  {
    var m' := m | OneBit(a);
    forall b: bv6 ensures HasBit(m', b) <==> HasBit(m, b) || b == a { OrBit(m, a, b); }
  }

  lemma AndClearsBit(m: bv64, a: bv6)
    requires a < 31
    ensures ClearsBit(m, m & KeepMask(true, a), a)
  {
    var m' := m & KeepMask(true, a);
    forall b: bv6 ensures HasBit(m', b) <==> HasBit(m, b) && b != a { KeepBit(m, a, b); }
  }

  lemma SetOne(m: Mask, m': Mask, s: set<nat>, a: bv6, b: bv6)
    requires Marks(m, s) && SetsBit(m.word, m'.word, a)
    ensures HasBit(m'.word, b) <==> b as int in s + {a as int}
  {
    BitsOrdered(a, b);
  }

  lemma SetMarks(m: Mask, m': Mask, s: set<nat>, a: bv6)
    requires Marks(m, s) && SetsBit(m.word, m'.word, a)
    ensures Marks(m', s + {a as int})
  {
    forall b: bv6 ensures HasBit(m'.word, b) <==> b as int in s + {a as int} { SetOne(m, m', s, a, b); }
    BitRoundTrip(a);
  }

  lemma ClearOne(m: Mask, m': Mask, s: set<nat>, a: bv6, b: bv6)
    requires Marks(m, s) && ClearsBit(m.word, m'.word, a)
    ensures HasBit(m'.word, b) <==> b as int in s - {a as int}
  {
    BitsOrdered(a, b);
  }

  lemma ClearMarks(m: Mask, m': Mask, s: set<nat>, a: bv6)
    requires Marks(m, s) && ClearsBit(m.word, m'.word, a)
    ensures Marks(m', s - {a as int})
  {
    forall b: bv6 ensures HasBit(m'.word, b) <==> b as int in s - {a as int} { ClearOne(m, m', s, a, b); }
  }

  ghost predicate Keeps(m: bv64, m': bv64, empty: bool, a: bv6) {
    if empty then ClearsBit(m, m', a) else m' == m
  }

  lemma AndKeeps(m: bv64, empty: bool, a: bv6)
    requires a < 31
    ensures Keeps(m, m & KeepMask(empty, a), empty, a)
  {
    if empty {
      AndClearsBit(m, a);
    } else {
      KeepAll(m, a);
    }
  }

  lemma KeptMarks(m: Mask, m': Mask, s: set<nat>, empty: bool, a: bv6)
    requires Marks(m, s) && Keeps(m.word, m'.word, empty, a)
    ensures Marks(m', if empty then s - {a as int} else s)
  {
    if empty { ClearMarks(m, m', s, a); }
  }

  ghost predicate FillsBelow(m: bv64, n: bv6) {
    forall b: bv6 :: HasBit(m, b) <==> b < n
  }

  lemma FullFills(n: bv6)
    requires n <= 30
    ensures FillsBelow(FullMask(n), n)
  {
    var m := FullMask(n);
    forall b: bv6 ensures HasBit(m, b) <==> b < n { FullBits(n, b); }
  }

  lemma FillsFor(m: Mask, n: bv6)
    requires FillsBelow(m.word, n)
    ensures 0 <= n as int && FullFor(m, n as int)
  {
    BitRoundTrip(n);
    forall b: bv6 ensures HasBit(m.word, b) <==> b as int < n as int { BitsOrdered(b, n); }
  }

  // Marks for the same ranks are the same word.
  lemma SameMarks(m: Mask, m': Mask, s: set<nat>)
    requires Marks(m, s) && Marks(m', s)
    ensures m == m'
  {
    forall b: bv6 ensures HasBit(m.word, b) <==> HasBit(m'.word, b) {}
    SameBits(m.word, m'.word);
  }

  lemma MarksUnique(m: Mask, s: set<nat>, s': set<nat>)
    requires Marks(m, s) && Marks(m, s')
    ensures s == s'
  {
    forall i: nat | i < 64 ensures i in s <==> i in s' {
      RankRoundTrip(i);
      var b := i as bv6;
      assert HasBit(m.word, b) <==> b as int in s;
    }
  }

  // ---------------------------------------------------------------- operations

  method Nothing() returns (m: Mask)
    ensures Marks(m, {})
  {
    m := Mask(0);
    forall b: bv6 ensures !HasBit(m.word, b) { NoBits(b); }
  }

  lemma SmallRank(rank: nat, limit: bv6)
    requires rank < limit as int < 64
    ensures (rank as bv6) as int == rank && rank as bv6 < limit
  {
    RankRoundTrip(rank);
    BitsOrdered(rank as bv6, limit);
  }

  // q_signal_.fetch_or(1 << rank)
  method FetchOr(m: Mask, rank: nat, ghost s: set<nat>) returns (m': Mask)
    requires rank < 31 && Marks(m, s)
    ensures Marks(m', s + {rank})
  {
    SmallRank(rank, 31);
    var a := rank as bv6;
    OrSetsBit(m.word, a);
    m' := Mask(m.word | OneBit(a));
    SetMarks(m, m', s, a);
  }

  // new_mask &= ~(empty << rank)
  method AndNot(m: Mask, empty: bool, rank: nat, ghost s: set<nat>) returns (m': Mask)
    requires rank < 31 && Marks(m, s)
    ensures Marks(m', if empty then s - {rank} else s)
  {
    SmallRank(rank, 31);
    var a := rank as bv6;
    AndKeeps(m.word, empty, a);
    m' := Mask(m.word & KeepMask(empty, a));
    KeptMarks(m, m', s, empty, a);
  }

  // worker_mask_ = (1 << num_worker_) - 1
  method MaskFor(n: nat) returns (m: Mask)
    requires n <= 30
    ensures FullFor(m, n)
  {
    SmallRank(n, 31);
    var a := n as bv6;
    FullFills(a);
    m := Mask(FullMask(a));
    FillsFor(m, a);
  }

  // ---------------------------------------------------------------- the limit

  // Every rank below n has a bit of its own and the full mask does not overflow,
  // exactly when there are at most 30 workers.
  lemma MaskLimit(n: bv6)
    requires n < 32
    ensures (forall a: bv6 :: a < n ==> OwnBit(a)) && NoOverflow(n) <==> n <= 30
  {
    FullOverflows(n);
    if n <= 30 {
      forall a: bv6 | a < n ensures OwnBit(a) { OwnBitOnly(a); }
    }
  }

  ghost predicate OwnBit(a: bv6) {
    a < 32 && forall b: bv6 :: HasBit(OneBit(a), b) <==> b == a
  }

  predicate NoOverflow(n: bv6) {
    n < 32 && ((1 as bv32) << n) & 0x8000_0000 == 0
  }
}
