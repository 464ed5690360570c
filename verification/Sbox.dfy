// The bitsliced S-box. Eight 64-bit words hold 64 bytes at once: bit p of word
// j is bit j of the byte at position p. A gate circuit then substitutes all 64
// bytes with the same few word operations.
module Sbox {

  /** A 64-bit machine word. */
  datatype Word = Word(bits: bv64)

  function Xor(x: Word, y: Word): (z: Word) {
    Word(x.bits ^ y.bits)
  }

  function And(x: Word, y: Word): (z: Word) {
    Word(x.bits & y.bits)
  }

  function Not(x: Word): (z: Word) {
    Word(!x.bits)
  }

  /** The array q[8] of the C code. */
  datatype Octet = Octet(w0: Word, w1: Word, w2: Word, w3: Word, w4: Word, w5: Word, w6: Word, w7: Word)

  /** The Boyar-Peralta circuit. */
  function Substitute(q: Octet): (s: Octet) {
    var x0 := q.w7;
    var x1 := q.w6;
    var x2 := q.w5;
    var x3 := q.w4;
    var x4 := q.w3;
    var x5 := q.w2;
    var x6 := q.w1;
    var x7 := q.w0;
    // Linear layer into the tower-field basis: 23 exclusive ors.
    var y14 := Xor(x3, x5);
    var y13 := Xor(x0, x6);
    var y9 := Xor(x0, x3);
    var y8 := Xor(x0, x5);
    var t0 := Xor(x1, x2);
    var y1 := Xor(t0, x7);
    var y4 := Xor(y1, x3);
    var y12 := Xor(y13, y14);
    var y2 := Xor(y1, x0);
    var y5 := Xor(y1, x6);
    var y3 := Xor(y5, y8);
    var t1 := Xor(x4, y12);
    var y15 := Xor(t1, x5);
    var y20 := Xor(t1, x1);
    var y6 := Xor(y15, x7);
    var y10 := Xor(y15, t0);
    var y11 := Xor(y20, y9);
    var y7 := Xor(x7, y11);
    var y17 := Xor(y10, y11);
    var y19 := Xor(y10, y8);
    var y16 := Xor(t0, y11);
    var y21 := Xor(y13, y16);
    var y18 := Xor(x0, y16);
    // The inversion itself; these are the only conjunctions of the circuit.
    var t2 := And(y12, y15);
    var t3 := And(y3, y6);
    var t4 := Xor(t3, t2);
    var t5 := And(y4, x7);
    var t6 := Xor(t5, t2);
    var t7 := And(y13, y16);
    var t8 := And(y5, y1);
    var t9 := Xor(t8, t7);
    var t10 := And(y2, y7);
    var t11 := Xor(t10, t7);
    var t12 := And(y9, y11);
    var t13 := And(y14, y17);
    var t14 := Xor(t13, t12);
    var t15 := And(y8, y10);
    var t16 := Xor(t15, t12);
    var t17 := Xor(t4, t14);
    var t18 := Xor(t6, t16);
    var t19 := Xor(t9, t14);
    var t20 := Xor(t11, t16);
    var t21 := Xor(t17, y20);
    var t22 := Xor(t18, y19);
    var t23 := Xor(t19, y21);
    var t24 := Xor(t20, y18);
    var t25 := Xor(t21, t22);
    var t26 := And(t21, t23);
    var t27 := Xor(t24, t26);
    var t28 := And(t25, t27);
    var t29 := Xor(t28, t22);
    var t30 := Xor(t23, t24);
    var t31 := Xor(t22, t26);
    var t32 := And(t31, t30);
    var t33 := Xor(t32, t24);
    var t34 := Xor(t23, t33);
    var t35 := Xor(t27, t33);
    var t36 := And(t24, t35);
    var t37 := Xor(t36, t34);
    var t38 := Xor(t27, t36);
    var t39 := And(t29, t38);
    var t40 := Xor(t25, t39);
    var t41 := Xor(t40, t37);
    var t42 := Xor(t29, t33);
    var t43 := Xor(t29, t40);
    var t44 := Xor(t33, t37);
    var t45 := Xor(t42, t41);
    var z0 := And(t44, y15);
    var z1 := And(t37, y6);
    var z2 := And(t33, x7);
    var z3 := And(t43, y16);
    var z4 := And(t40, y1);
    var z5 := And(t29, y7);
    var z6 := And(t42, y11);
    var z7 := And(t45, y17);
    var z8 := And(t41, y10);
    var z9 := And(t44, y12);
    var z10 := And(t37, y3);
    var z11 := And(t33, y4);
    var z12 := And(t43, y13);
    var z13 := And(t40, y5);
    var z14 := And(t29, y2);
    var z15 := And(t42, y9);
    var z16 := And(t45, y14);
    var z17 := And(t41, y8);
    // Back out of the basis, with the affine part of the S-box folded in.
    var t46 := Xor(z15, z16);
    var t47 := Xor(z10, z11);
    var t48 := Xor(z5, z13);
    var t49 := Xor(z9, z10);
    var t50 := Xor(z2, z12);
    var t51 := Xor(z2, z5);
    var t52 := Xor(z7, z8);
    var t53 := Xor(z0, z3);
    var t54 := Xor(z6, z7);
    var t55 := Xor(z16, z17);
    var t56 := Xor(z12, t48);
    var t57 := Xor(t50, t53);
    var t58 := Xor(z4, t46);
    var t59 := Xor(z3, t54);
    var t60 := Xor(t46, t57);
    var t61 := Xor(z14, t57);
    var t62 := Xor(t52, t58);
    var t63 := Xor(t49, t58);
    var t64 := Xor(z4, t59);
    var t65 := Xor(t61, t62);
    var t66 := Xor(z1, t63);
    var s0 := Xor(t59, t63);
    var s6 := Xor(t56, Not(t62));
    var s7 := Xor(t48, Not(t60));
    var t67 := Xor(t64, t65);
    var s3 := Xor(t53, t66);
    var s4 := Xor(t51, t66);
    var s5 := Xor(t47, t65);
    var s1 := Xor(t64, Not(s3));
    var s2 := Xor(t55, Not(t67));
    Octet(s7, s6, s5, s4, s3, s2, s1, s0)
  }

  function Xor3(x: Word, y: Word, z: Word): (r: Word) {
    Xor(Xor(x, y), z)
  }

  /** The affine step of the S-box undone, which is needed on both sides of the circuit to invert it. */
  function Unaffine(q: Octet): (s: Octet) {
    var q0, q1, q5, q6 := Not(q.w0), Not(q.w1), Not(q.w5), Not(q.w6);
    var q2, q3, q4, q7 := q.w2, q.w3, q.w4, q.w7;
    Octet(Xor3(q2, q5, q7), Xor3(q3, q6, q0), Xor3(q4, q7, q1), Xor3(q5, q0, q2),
          Xor3(q6, q1, q3), Xor3(q7, q2, q4), Xor3(q0, q3, q5), Xor3(q1, q4, q6))
  }

  function Unsubstitute(q: Octet): (s: Octet) {
    Unaffine(Substitute(Unaffine(q)))
  }

  // ------------------------------------------------------------------
  // One byte at a time
  // ------------------------------------------------------------------

  /** Bit p of a word, alone. */
  function Pick(x: Word, p: bv6): (b: Word) {
    Word((x.bits >> p) & 1)
  }

  function Flip(b: Word): (c: Word) {
    Word(b.bits ^ 1)
  }

  predicate Bit(x: Word, p: bv6) {
    Pick(x, p) == Word(1)
  }

  /** The byte at position p, as eight single bits. */
  function PickAll(q: Octet, p: bv6): (b: Octet) {
    Octet(Pick(q.w0, p), Pick(q.w1, p), Pick(q.w2, p), Pick(q.w3, p),
          Pick(q.w4, p), Pick(q.w5, p), Pick(q.w6, p), Pick(q.w7, p))
  }

  lemma PickXor(x: Word, y: Word, p: bv6)
    ensures Pick(Xor(x, y), p) == Xor(Pick(x, p), Pick(y, p))
    ensures Bit(Xor(x, y), p) == (Bit(x, p) != Bit(y, p))
  {
  }

  lemma PickAnd(x: Word, y: Word, p: bv6)
    ensures Pick(And(x, y), p) == And(Pick(x, p), Pick(y, p))
    ensures Bit(And(x, y), p) == (Bit(x, p) && Bit(y, p))
  {
  }

  lemma PickNot(x: Word, p: bv6)
    ensures Pick(Not(x), p) == Flip(Pick(x, p))
    ensures Bit(Not(x), p) == !Bit(x, p)
  {
  }

  lemma Pickwise(p: bv6)
    ensures forall x, y :: Pick(Xor(x, y), p) == Xor(Pick(x, p), Pick(y, p))
    ensures forall x, y :: Pick(And(x, y), p) == And(Pick(x, p), Pick(y, p))
    ensures forall x :: Pick(Not(x), p) == Flip(Pick(x, p))
  {
    hide *;
    forall x, y
      ensures Pick(Xor(x, y), p) == Xor(Pick(x, p), Pick(y, p))
    {
      PickXor(x, y, p);
    }
    forall x, y
      ensures Pick(And(x, y), p) == And(Pick(x, p), Pick(y, p))
    {
      PickAnd(x, y, p);
    }
    forall x
      ensures Pick(Not(x), p) == Flip(Pick(x, p))
    {
      PickNot(x, p);
    }
  }

  lemma Bitwise(p: bv6)
    ensures forall x, y :: Bit(Xor(x, y), p) == (Bit(x, p) != Bit(y, p))
    ensures forall x, y :: Bit(And(x, y), p) == (Bit(x, p) && Bit(y, p))
    ensures forall x :: Bit(Not(x), p) == !Bit(x, p)
  {
  }

  /** The substituted byte depends on nothing but the byte itself, wherever it sits. */
  lemma SubstituteIsLocal(q: Octet, p: bv6, r: Octet, o: bv6)
    requires PickAll(q, p) == PickAll(r, o)
    ensures PickAll(Substitute(q), p) == PickAll(Substitute(r), o)
    ensures PickAll(Unsubstitute(q), p) == PickAll(Unsubstitute(r), o)
  {
    hide Pick, Xor, And, Not, Flip;
    Pickwise(p);
    Pickwise(o);
  }

  predicate SameBits(q: Octet, r: Octet, p: bv6) {
    && Bit(q.w0, p) == Bit(r.w0, p) && Bit(q.w1, p) == Bit(r.w1, p)
    && Bit(q.w2, p) == Bit(r.w2, p) && Bit(q.w3, p) == Bit(r.w3, p)
    && Bit(q.w4, p) == Bit(r.w4, p) && Bit(q.w5, p) == Bit(r.w5, p)
    && Bit(q.w6, p) == Bit(r.w6, p) && Bit(q.w7, p) == Bit(r.w7, p)
  }

  // All 256 bytes, a quarter of them at a time.

  lemma UndoneBits11(q: Octet, r: Octet, t: Octet, p: bv6)
    requires r == Substitute(q) && t == Unsubstitute(r) && Bit(q.w0, p) && Bit(q.w1, p)
    ensures SameBits(t, q, p)
  {
    hide Bit, Xor, And, Not, Pick;
    Bitwise(p);
  }

  lemma UndoneBits10(q: Octet, r: Octet, t: Octet, p: bv6)
    requires r == Substitute(q) && t == Unsubstitute(r) && Bit(q.w0, p) && !Bit(q.w1, p)
    ensures SameBits(t, q, p)
  {
    hide Bit, Xor, And, Not, Pick;
    Bitwise(p);
  }

  lemma UndoneBits01(q: Octet, r: Octet, t: Octet, p: bv6)
    requires r == Substitute(q) && t == Unsubstitute(r) && !Bit(q.w0, p) && Bit(q.w1, p)
    ensures SameBits(t, q, p)
  {
    hide Bit, Xor, And, Not, Pick;
    Bitwise(p);
  }

  lemma UndoneBits00(q: Octet, r: Octet, t: Octet, p: bv6)
    requires r == Substitute(q) && t == Unsubstitute(r) && !Bit(q.w0, p) && !Bit(q.w1, p)
    ensures SameBits(t, q, p)
  {
    hide Bit, Xor, And, Not, Pick;
    Bitwise(p);
  }

  lemma BitIsPick(x: Word, y: Word, p: bv6)
    ensures Bit(x, p) == Bit(y, p) <==> Pick(x, p) == Pick(y, p)
  {
  }

  /** The two circuits undo each other on every byte. */
  lemma SubstituteUndone(q: Octet, p: bv6)
    ensures PickAll(Unsubstitute(Substitute(q)), p) == PickAll(q, p)
  {
    hide Pick, Bit, Substitute, Unsubstitute;
    var s := Substitute(q);
    var r := Unsubstitute(s);
    if Bit(q.w0, p) {
      if Bit(q.w1, p) { UndoneBits11(q, s, r, p); } else { UndoneBits10(q, s, r, p); }
    } else {
      if Bit(q.w1, p) { UndoneBits01(q, s, r, p); } else { UndoneBits00(q, s, r, p); }
    }
    BitIsPick(r.w0, q.w0, p);
    BitIsPick(r.w1, q.w1, p);
    BitIsPick(r.w2, q.w2, p);
    BitIsPick(r.w3, q.w3, p);
    BitIsPick(r.w4, q.w4, p);
    BitIsPick(r.w5, q.w5, p);
    BitIsPick(r.w6, q.w6, p);
    BitIsPick(r.w7, q.w7, p);
  }
}
