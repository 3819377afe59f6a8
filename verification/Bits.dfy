/** Permission masks read one bit at a time. */
module Bits {

  const ALL: bv64 := 0xFFFF_FFFF_FFFF_FFFF

  predicate Has(p: bv64, m: bv64) {
    p & m != 0
  }

  /** `m` is a mask with exactly one bit set. */
  predicate OneBit(m: bv64) {
    m != 0 && m & (m - 1) == 0
  }

  /** How the source applies an overwrite: deny first, then allow. */
  function Overwritten(p: bv64, deny: bv64, allow: bv64): bv64 {
    (p & !deny) | allow
  }

  lemma OverwrittenBit(p: bv64, deny: bv64, allow: bv64, m: bv64)
    requires OneBit(m)
    ensures Has(Overwritten(p, deny, allow), m) <==> Has(allow, m) || (Has(p, m) && !Has(deny, m))
  {
    var q := Overwritten(p, deny, allow);
    MaskBit(p, deny, allow, q, m);
  }

  lemma MaskBit(p: bv64, d: bv64, a: bv64, q: bv64, m: bv64)
    requires OneBit(m) && q == (p & !d) | a
    ensures Has(q, m) <==> Has(a, m) || (Has(p, m) && !Has(d, m))
  {
  }

  function Union(p: bv64, q: bv64): bv64 {
    p | q
  }

  /** A union is an overwrite that denies nothing. */
  lemma UnionIsOverwrite(p: bv64, q: bv64)
    ensures Union(p, q) == Overwritten(p, 0, q)
  {
  }

  lemma UnionBit(p: bv64, q: bv64, m: bv64)
    requires OneBit(m)
    ensures Has(Union(p, q), m) <==> Has(p, m) || Has(q, m)
  {
    UnionIsOverwrite(p, q);
    SameBit(Union(p, q), Overwritten(p, 0, q), m);
    OverwrittenBit(p, 0, q, m);
    AllBits(m);
  }

  lemma SameBit(p: bv64, q: bv64, m: bv64)
    requires p == q
    ensures Has(p, m) <==> Has(q, m)
  {
  }

  function UnionAll(masks: seq<bv64>): bv64 {
    if masks == [] then 0 else Union(masks[0], UnionAll(masks[1..]))
  }

  predicate SomeHas(masks: seq<bv64>, m: bv64) {
    exists i :: 0 <= i < |masks| && Has(masks[i], m)
  }

  lemma SomeHasFirst(masks: seq<bv64>, m: bv64)
    requires masks != []
    ensures SomeHas(masks, m) <==> Has(masks[0], m) || SomeHas(masks[1..], m)
  {
    var rest := masks[1..];
    if i :| 0 < i < |masks| && Has(masks[i], m) {
      assert rest[i - 1] == masks[i];
    }
    if i :| 0 <= i < |rest| && Has(rest[i], m) {
      assert masks[i + 1] == rest[i];
    }
  }

  lemma {:induction false} UnionAllBit(masks: seq<bv64>, m: bv64)
    requires OneBit(m)
    ensures Has(UnionAll(masks), m) <==> SomeHas(masks, m)
  {
    if masks == [] {
      AllBits(m);
    } else {
      UnionAllBit(masks[1..], m);
      UnionBit(masks[0], UnionAll(masks[1..]), m);
      SomeHasFirst(masks, m);
    }
  }

  lemma AllBits(m: bv64)
    requires OneBit(m)
    ensures Has(ALL, m) && !Has(0, m)
  {
  }

  /** Every nonzero mask has a bit. */
  lemma LowestBit(x: bv64) returns (m: bv64)
    requires x != 0
    ensures OneBit(m) && Has(x, m)
  {
    m := x & (0 - x);
  }

  /** `p` grants nothing that `q` does not. */
  predicate Within(p: bv64, q: bv64) {
    p & !q == 0
  }

  lemma WithinByBits(p: bv64, q: bv64)
    ensures Within(p, q) <==> forall m :: OneBit(m) && Has(p, m) ==> Has(q, m)
  {
    if !Within(p, q) {
      var m := LowestBit(p & !q);
      OverwrittenBit(p, q, 0, m);
    }
  }

  /** Masks that agree on every bit are equal. */
  lemma SameByBits(p: bv64, q: bv64)
    requires forall m :: OneBit(m) ==> (Has(p, m) <==> Has(q, m))
    ensures p == q
  {
    WithinByBits(p, q);
    WithinByBits(q, p);
  }
}
