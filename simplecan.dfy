/**
 * SimpleCAN3.0 identifiers: producer id, consumer id and control word
 * packed into the 29-bit identifier of a CAN 2.0B extended frame, laid out
 * (bit 28 first) as
 *     ppppp ccccc 0 PP CC 000000 wwwwwwww
 * with p/c the low five bits of the producer/consumer id, P/C their next
 * two bits and w the control word.  The top 11 bits form the standard
 * identifier (SID), the low 18 bits the extended identifier (EID).
 *
 * Python's `x & (2^k - 1)` and `x >> k` on unbounded integers are `x % 2^k`
 * and `x / 2^k` in Dafny's Euclidean arithmetic, for negative `x` too; the
 * packed fields never overlap, so the source's `|` is `+` here.
 */
module SimpleCan {

  datatype Identifier = Identifier(producerId: int, consumerId: int, controlWord: int)

  /** One past the largest 29-bit identifier. */
  const EXTENDED_ID_LIMIT := 0x2000_0000

  /** The bits the layout leaves zero: 8 to 13 and 18. */
  predicate ReservedBitsClear(aid: int) {
    (aid / 0x100) % 0x40 == 0 && (aid / 0x4_0000) % 2 == 0
  }

  /** The five bit-fields of an identifier and the value they pack to. */
  function Fields(pLo: int, cLo: int, pHi: int, cHi: int, w: int): int {
    pLo * 0x100_0000 + cLo * 0x8_0000 + pHi * 0x1_0000 + cHi * 0x4000 + w
  }

  /** The `arbitration_id` property. */
  function ArbitrationId(id: Identifier): (aid: int)
    ensures 0 <= aid < EXTENDED_ID_LIMIT
  {
    Fields(id.producerId % 0x20, id.consumerId % 0x20,
           (id.producerId / 0x20) % 4, (id.consumerId / 0x20) % 4, id.controlWord % 0x100)
  }

  /** The `from_arbitration_id` constructor. */
  function FromArbitrationId(aid: int): (id: Identifier)
    ensures 0 <= id.producerId < 0x80 && 0 <= id.consumerId < 0x80 && 0 <= id.controlWord < 0x100
  {
    var pLo := (aid / 0x100_0000) % 0x20;
    var cLo := (aid / 0x8_0000) % 0x20;
    var pHi := (aid / 0x1_0000) % 4;
    var cHi := (aid / 0x4000) % 4;
    Identifier(pHi * 0x20 + pLo, cHi * 0x20 + cLo, aid % 0x100)
  }

  lemma MulAtLeast(a: int, d: int)
    requires 0 < d && a >= 1
    ensures a * d >= d
  {
    if a > 1 {
      MulAtLeast(a - 1, d);
      assert a * d == (a - 1) * d + d;
    }
  }

  /** Quotient and remainder are unique. */
  lemma DivMod(q: int, r: int, d: int)
    requires 0 < d && 0 <= r < d
    ensures (q * d + r) / d == q && (q * d + r) % d == r
  {
    var x := q * d + r;
    var q', r' := x / d, x % d;
    if q' < q {
      assert (q - q') * d == q * d - q' * d;
      MulAtLeast(q - q', d);
    } else if q' > q {
      assert (q' - q) * d == q' * d - q * d;
      MulAtLeast(q' - q, d);
    }
  }

  /** Each field of a packed value is read back by the shift and mask that `from_arbitration_id` uses. */
  lemma {:induction false} FieldsRead(pLo: int, cLo: int, pHi: int, cHi: int, w: int)
    requires 0 <= pLo < 0x20 && 0 <= cLo < 0x20 && 0 <= pHi < 4 && 0 <= cHi < 4 && 0 <= w < 0x100
    ensures var aid := Fields(pLo, cLo, pHi, cHi, w);
      && aid % 0x100 == w
      && (aid / 0x100) % 0x40 == 0
      && aid / 0x4000 == pLo * 0x400 + cLo * 0x20 + pHi * 4 + cHi
      && (aid / 0x4000) % 4 == cHi
      && aid / 0x1_0000 == pLo * 0x100 + cLo * 8 + pHi
      && (aid / 0x1_0000) % 4 == pHi
      && aid / 0x4_0000 == pLo * 0x40 + cLo * 2
      && (aid / 0x4_0000) % 2 == 0
      && aid / 0x8_0000 == pLo * 0x20 + cLo
      && (aid / 0x8_0000) % 0x20 == cLo
      && aid / 0x100_0000 == pLo
      && (aid / 0x100_0000) % 0x20 == pLo
  {
    var aid := Fields(pLo, cLo, pHi, cHi, w);
    DivMod(pLo * 0x1_0000 + cLo * 0x800 + pHi * 0x100 + cHi * 0x40, w, 0x100);
    DivMod(pLo * 0x400 + cLo * 0x20 + pHi * 4 + cHi, 0, 0x40);
    DivMod(pLo * 0x400 + cLo * 0x20 + pHi * 4 + cHi, cHi * 0x40 + w, 0x4000);
    DivMod(pLo * 0x100 + cLo * 8 + pHi, cHi, 4);
    DivMod(pLo * 0x100 + cLo * 8 + pHi, cHi * 0x4000 + w, 0x1_0000);
    DivMod(pLo * 0x40 + cLo * 2, pHi, 4);
    DivMod(pLo * 0x40 + cLo * 2, pHi * 0x1_0000 + cHi * 0x4000 + w, 0x4_0000);
    DivMod(pLo * 0x20 + cLo, 0, 2);
    DivMod(pLo * 0x20 + cLo, pHi * 0x1_0000 + cHi * 0x4000 + w, 0x8_0000);
    DivMod(pLo, cLo, 0x20);
    DivMod(pLo, cLo * 0x8_0000 + pHi * 0x1_0000 + cHi * 0x4000 + w, 0x100_0000);
    DivMod(0, pLo, 0x20);
  }

  /** The identifier never sets the reserved bits, and its SID is the two five-bit low parts. */
  lemma {:induction false} ArbitrationIdLayout(id: Identifier)
    ensures ReservedBitsClear(ArbitrationId(id))
    ensures ArbitrationId(id) / 0x4_0000 == (id.producerId % 0x20) * 0x40 + (id.consumerId % 0x20) * 2
  {
    FieldsRead(id.producerId % 0x20, id.consumerId % 0x20,
               (id.producerId / 0x20) % 4, (id.consumerId / 0x20) % 4, id.controlWord % 0x100);
  }

  /** Splitting an id below 128 into its low five and next two bits loses nothing. */
  lemma {:induction false} SplitSevenBits(x: int)
    requires 0 <= x < 0x80
    ensures ((x / 0x20) % 4) * 0x20 + x % 0x20 == x
  {
    DivMod(x / 0x20, x % 0x20, 0x20);
  }

  /** Unpacking a packed identifier gives back 7-bit ids and an 8-bit control word. */
  lemma {:induction false} UnpackPack(id: Identifier)
    requires 0 <= id.producerId < 0x80 && 0 <= id.consumerId < 0x80 && 0 <= id.controlWord < 0x100
    ensures FromArbitrationId(ArbitrationId(id)) == id
  {
    FieldsRead(id.producerId % 0x20, id.consumerId % 0x20,
               (id.producerId / 0x20) % 4, (id.consumerId / 0x20) % 4, id.controlWord % 0x100);
    SplitSevenBits(id.producerId);
    SplitSevenBits(id.consumerId);
  }

  /** Packing an unpacked identifier gives back every 29-bit value whose reserved bits are clear. */
  lemma {:induction false} PackUnpack(aid: int)
    requires 0 <= aid < EXTENDED_ID_LIMIT && ReservedBitsClear(aid)
    ensures ArbitrationId(FromArbitrationId(aid)) == aid
  {
    var w := aid % 0x100;
    var cHi := (aid / 0x4000) % 4;
    var pHi := (aid / 0x1_0000) % 4;
    var cLo := (aid / 0x8_0000) % 0x20;
    var pLo := (aid / 0x100_0000) % 0x20;
    var id := FromArbitrationId(aid);
    assert id.producerId % 0x20 == pLo && (id.producerId / 0x20) % 4 == pHi by {
      DivMod(pHi, pLo, 0x20);
      DivMod(0, pHi, 4);
    }
    assert id.consumerId % 0x20 == cLo && (id.consumerId / 0x20) % 4 == cHi by {
      DivMod(cHi, cLo, 0x20);
      DivMod(0, cHi, 4);
    }
    assert id.controlWord % 0x100 == w by {
      DivMod(0, w, 0x100);
    }
    // Peel the value apart from the top: each quotient is the next field above the remainder.
    var q24 := aid / 0x100_0000;
    assert q24 == pLo by { DivMod(0, q24, 0x20); }
    var q19 := aid / 0x8_0000;
    assert q19 / 0x20 == q24 && q19 == pLo * 0x20 + cLo;
    var q18 := aid / 0x4_0000;
    assert q18 / 2 == q19 && q18 == q19 * 2;
    var q16 := aid / 0x1_0000;
    assert q16 / 4 == q18 && q16 == q18 * 4 + pHi;
    var q14 := aid / 0x4000;
    assert q14 / 4 == q16 && q14 == q16 * 4 + cHi;
    var q8 := aid / 0x100;
    assert q8 / 0x40 == q14 && q8 == q14 * 0x40;
    assert aid == q8 * 0x100 + w;
  }

  /** Only the low seven bits of each id and the low eight of the control word reach the identifier. */
  lemma {:induction false} PackIgnoresHighBits(id: Identifier)
    ensures ArbitrationId(id) ==
      ArbitrationId(Identifier(id.producerId % 0x80, id.consumerId % 0x80, id.controlWord % 0x100))
  {
    var p, c := id.producerId, id.consumerId;
    assert (p % 0x80) % 0x20 == p % 0x20 && ((p % 0x80) / 0x20) % 4 == (p / 0x20) % 4 by {
      DivMod(p / 0x80, p % 0x80, 0x80);
      DivMod((p / 0x80) * 4 + (p % 0x80) / 0x20, (p % 0x80) % 0x20, 0x20);
      DivMod(p / 0x80, (p % 0x80) / 0x20, 4);
    }
    assert (c % 0x80) % 0x20 == c % 0x20 && ((c % 0x80) / 0x20) % 4 == (c / 0x20) % 4 by {
      DivMod(c / 0x80, c % 0x80, 0x80);
      DivMod((c / 0x80) * 4 + (c % 0x80) / 0x20, (c % 0x80) % 0x20, 0x20);
      DivMod(c / 0x80, (c % 0x80) / 0x20, 4);
    }
    DivMod(0, id.controlWord % 0x100, 0x100);
  }
}
