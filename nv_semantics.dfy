// What the single-qubit NV sequences of `netqasm/sdk/compiling.py` do to
// a qubit.
//
// A rotation about axis a by angle θ is exp(-iθ/2·σa); every angle the
// compiler writes is num·π/16 (num over the denominator 4). A gate U is
// described by how it turns the Bloch vector (the expectations of X, Y and
// Z), which for turns by multiples of π/4 has coordinates in Q(√2): each
// coordinate is kept exactly as a + b·√2.

module NvSemantics {
  import opened Wrappers
  import opened Operand
  import opened Instructions
  import opened Compiling

  // ---------------------------------------------------------------------
  // Single-qubit gates: rotations of the Bloch vector

  /** The real number a + b·√2. */
  datatype Q2 = Q2(a: real, b: real)

  const Zero := Q2(0.0, 0.0)

  function Plus(x: Q2, y: Q2): Q2 { Q2(x.a + y.a, x.b + y.b) }
  function Minus(x: Q2, y: Q2): Q2 { Q2(x.a - y.a, x.b - y.b) }
  function Neg(x: Q2): Q2 { Q2(-x.a, -x.b) }

  /** √2/2 · x; exact, since √2/2 · (a + b√2) = b + (a/2)·√2. */
  function HalfRoot(x: Q2): Q2
  {
    Q2(x.b, 0.5 * x.a)
  }

  /** The values cos and sin take at multiples of π/4. */
  datatype Coef = CZero | COne | CMinusOne | CHalfRoot | CMinusHalfRoot

  function Times(c: Coef, x: Q2): Q2
  {
    match c
    case CZero => Zero
    case COne => x
    case CMinusOne => Neg(x)
    case CHalfRoot => HalfRoot(x)
    case CMinusHalfRoot => Neg(HalfRoot(x))
  }

  /** cos(k·π/4) and sin(k·π/4), 0 <= k < 8. */
  function Cos8(k: int): Coef
    requires 0 <= k < 8
  {
    if k == 0 then COne else if k == 1 then CHalfRoot else if k == 2 then CZero else if k == 3 then CMinusHalfRoot
    else if k == 4 then CMinusOne else if k == 5 then CMinusHalfRoot else if k == 6 then CZero else CHalfRoot
  }

  function Sin8(k: int): Coef
    requires 0 <= k < 8
  {
    if k == 0 then CZero else if k == 1 then CHalfRoot else if k == 2 then COne else if k == 3 then CHalfRoot
    else if k == 4 then CZero else if k == 5 then CMinusHalfRoot else if k == 6 then CMinusOne else CMinusHalfRoot
  }

  /** k modulo 8, by whole turns. */
  function Mod8(k: int): (r: int)
    ensures 0 <= r < 8
    ensures k % 8 == r
    decreases if k < 0 then 8 - k else k
  {
    if k < 0 then Mod8(k + 8) else if k < 8 then k else Mod8(k - 8)
  }

  /** A Bloch vector (x, y, z). */
  datatype Vec = Vec(x: Q2, y: Q2, z: Q2)

  /** The right-handed rotation about an axis with cosine c and sine s. */
  function Rotate(a: Axis, c: Coef, s: Coef, v: Vec): Vec
  {
    match a
    case AxisX => Vec(v.x, Minus(Times(c, v.y), Times(s, v.z)), Plus(Times(s, v.y), Times(c, v.z)))
    case AxisY => Vec(Plus(Times(c, v.x), Times(s, v.z)), v.y, Minus(Times(c, v.z), Times(s, v.x)))
    case AxisZ => Vec(Minus(Times(c, v.x), Times(s, v.y)), Plus(Times(s, v.x), Times(c, v.y)), v.z)
  }

  /** What exp(-i·k·π/8·σa), a turn by k·π/4, does to the Bloch vector. */
  function Turned(a: Axis, k: int, v: Vec): Vec
    requires 0 <= k < 8
  {
    Rotate(a, Cos8(k), Sin8(k), v)
  }

  /**
   * The Bloch vector after the turns, in order, each by num·π/16; the
   * model covers the angles that are multiples of π/4, which are all the
   * compiler's tables use.
   */
  function Apply(ts: seq<Turn>, v: Vec): Option<Vec>
  {
    if ts == [] then Some(v)
    else if ts[0].num % 4 != 0 then None
    else Apply(ts[1..], Turned(ts[0].axis, Mod8(ts[0].num / 4), v))
  }

  /**
   * What the gates x, y, z, h, k, s and t do to the Bloch vector: x, y
   * and z turn by π about their axis, h exchanges x and z, k exchanges y
   * and z (it takes |0> to |+i>), and s and t turn about z by +π/2 and +π/4.
   */
  function GateImage(op: Opcode, v: Vec): Vec
    requires StaticGateOp(op)
  {
    if op.VanillaGateX? then Vec(v.x, Neg(v.y), Neg(v.z))
    else if op.VanillaGateY? then Vec(Neg(v.x), v.y, Neg(v.z))
    else if op.VanillaGateZ? then Vec(Neg(v.x), Neg(v.y), v.z)
    else if op.VanillaGateH? then Vec(v.z, Neg(v.y), v.x)
    else if op.VanillaGateK? then Vec(Neg(v.x), v.z, v.y)
    else if op.VanillaGateS? then Vec(Neg(v.y), v.x, v.z)
    else Vec(Minus(HalfRoot(v.x), HalfRoot(v.y)), Plus(HalfRoot(v.x), HalfRoot(v.y)), v.z)
  }

  // ---------------------------------------------------------------------
  // Composing turns

  lemma ApplyFirst(ts: seq<Turn>, v: Vec)
    requires ts != [] && ts[0].num % 4 == 0
    ensures Apply(ts, v) == Apply(ts[1..], Turned(ts[0].axis, Mod8(ts[0].num / 4), v))
  {
  }

  lemma ApplyOne(t: Turn, v: Vec)
    requires t.num % 4 == 0
    ensures Apply([t], v) == Some(Turned(t.axis, Mod8(t.num / 4), v))
  {
    assert [t][1..] == [];
  }

  lemma ApplyTwo(t0: Turn, t1: Turn, v: Vec)
    requires t0.num % 4 == 0 && t1.num % 4 == 0
    ensures Apply([t0, t1], v) == Some(Turned(t1.axis, Mod8(t1.num / 4), Turned(t0.axis, Mod8(t0.num / 4), v)))
  {
    assert [t0, t1][1..] == [t1];
    ApplyOne(t1, Turned(t0.axis, Mod8(t0.num / 4), v));
  }

  lemma ApplyThree(t0: Turn, t1: Turn, t2: Turn, v: Vec)
    requires t0.num % 4 == 0 && t1.num % 4 == 0 && t2.num % 4 == 0
    ensures Apply([t0, t1, t2], v) ==
      Some(Turned(t2.axis, Mod8(t2.num / 4), Turned(t1.axis, Mod8(t1.num / 4), Turned(t0.axis, Mod8(t0.num / 4), v))))
  {
    assert [t0, t1, t2][1..] == [t1, t2];
    ApplyTwo(t1, t2, Turned(t0.axis, Mod8(t0.num / 4), v));
  }

  /** Turning by π/2 and by 3π/2 (= -π/2) about x, and by π and π/2 about y. */
  lemma QuarterX(v: Vec)
    ensures Turned(AxisX, 2, v) == Vec(v.x, Neg(v.z), v.y)
    ensures Turned(AxisX, 6, v) == Vec(v.x, v.z, Neg(v.y))
  {
    assert Cos8(2) == CZero && Sin8(2) == COne;
    assert Cos8(6) == CZero && Sin8(6) == CMinusOne;
  }

  lemma HalfTurns(v: Vec)
    ensures Turned(AxisX, 4, v) == Vec(v.x, Neg(v.y), Neg(v.z))
    ensures Turned(AxisY, 4, v) == Vec(Neg(v.x), v.y, Neg(v.z))
    ensures Turned(AxisZ, 4, v) == Vec(Neg(v.x), Neg(v.y), v.z)
  {
    assert Cos8(4) == CMinusOne && Sin8(4) == CZero;
  }

  lemma QuarterY(v: Vec)
    ensures Turned(AxisY, 2, v) == Vec(v.z, v.y, Neg(v.x))
  {
    assert Cos8(2) == CZero && Sin8(2) == COne;
  }

  lemma NegNeg(x: Q2)
    ensures Neg(Neg(x)) == x
  {
  }

  lemma TimesNeg(c: Coef, x: Q2)
    ensures Times(c, Neg(x)) == Neg(Times(c, x))
  {
  }

  /** The conjugation of a y rotation by quarter turns about x, for any cosine and sine. */
  lemma YBetweenQuarterX(c: Coef, s: Coef, v: Vec)
    ensures Rotate(AxisX, CZero, COne, Rotate(AxisY, c, s, Rotate(AxisX, CZero, CMinusOne, v))) == Rotate(AxisZ, c, s, v)
  {
    var v1 := Rotate(AxisX, CZero, CMinusOne, v);
    assert v1 == Vec(v.x, v.z, Neg(v.y));
    TimesNeg(c, v.y);
    TimesNeg(s, v.y);
    var v2 := Rotate(AxisY, c, s, v1);
    assert v2 == Vec(Minus(Times(c, v.x), Times(s, v.y)), v.z, Neg(Plus(Times(c, v.y), Times(s, v.x))));
  }

  lemma TurnedQuarterX(v: Vec)
    ensures Turned(AxisX, Mod8(24 / 4), v) == Rotate(AxisX, CZero, CMinusOne, v)
    ensures Turned(AxisX, Mod8(8 / 4), v) == Rotate(AxisX, CZero, COne, v)
  {
    assert Mod8(24 / 4) == 6 && Mod8(8 / 4) == 2;
    assert Cos8(2) == CZero && Sin8(2) == COne;
    assert Cos8(6) == CZero && Sin8(6) == CMinusOne;
  }

  /**
   * Turning x by -π/2, then y by θ, then x back by π/2 turns z by θ: this
   * is how the compiler's tables rotate about z with x and y turns only.
   */
  lemma ZByConjugation(num: int, v: Vec)
    requires num % 4 == 0
    ensures Apply([Turn(AxisX, 24), Turn(AxisY, num), Turn(AxisX, 8)], v) == Some(Turned(AxisZ, Mod8(num / 4), v))
  {
    var k := Mod8(num / 4);
    ApplyThree(Turn(AxisX, 24), Turn(AxisY, num), Turn(AxisX, 8), v);
    TurnedQuarterX(v);
    var v1 := Rotate(AxisX, CZero, CMinusOne, v);
    var v2 := Rotate(AxisY, Cos8(k), Sin8(k), v1);
    TurnedQuarterX(v2);
    YBetweenQuarterX(Cos8(k), Sin8(k), v);
  }

  lemma QuarterZ(v: Vec)
    ensures Turned(AxisZ, 2, v) == Vec(Neg(v.y), v.x, v.z)
    ensures Turned(AxisZ, 6, v) == Vec(v.y, Neg(v.x), v.z)
  {
    assert Cos8(2) == CZero && Sin8(2) == COne;
    assert Cos8(6) == CZero && Sin8(6) == CMinusOne;
  }

  lemma EighthZ(v: Vec)
    ensures Turned(AxisZ, 1, v) == Vec(Minus(HalfRoot(v.x), HalfRoot(v.y)), Plus(HalfRoot(v.x), HalfRoot(v.y)), v.z)
    ensures Turned(AxisZ, 7, v) == Vec(Plus(HalfRoot(v.x), HalfRoot(v.y)), Minus(HalfRoot(v.y), HalfRoot(v.x)), v.z)
  {
    assert Cos8(1) == CHalfRoot && Sin8(1) == CHalfRoot;
    assert Cos8(7) == CHalfRoot && Sin8(7) == CMinusHalfRoot;
  }

  // ---------------------------------------------------------------------
  // The gate tables

  lemma GateXMeaning(v: Vec)
    ensures Apply(StaticGateTurns(VanillaGateX), v) == Some(GateImage(VanillaGateX, v))
  {
    ApplyOne(Turn(AxisX, 16), v);
    assert Mod8(16 / 4) == 4;
    HalfTurns(v);
  }

  lemma GateYMeaning(v: Vec)
    ensures Apply(StaticGateTurns(VanillaGateY), v) == Some(GateImage(VanillaGateY, v))
  {
    ApplyOne(Turn(AxisY, 16), v);
    assert Mod8(16 / 4) == 4;
    HalfTurns(v);
  }

  lemma GateZMeaning(v: Vec)
    ensures Apply(StaticGateTurns(VanillaGateZ), v) == Some(GateImage(VanillaGateZ, v))
  {
    assert StaticGateTurns(VanillaGateZ) == [Turn(AxisX, 24), Turn(AxisY, 16), Turn(AxisX, 8)];
    assert GateImage(VanillaGateZ, v) == Vec(Neg(v.x), Neg(v.y), v.z);
    ZByConjugation(16, v);
    assert Mod8(16 / 4) == 4;
    HalfTurns(v);
  }

  lemma GateHMeaning(v: Vec)
    ensures Apply(StaticGateTurns(VanillaGateH), v) == Some(GateImage(VanillaGateH, v))
  {
    assert StaticGateTurns(VanillaGateH) == [Turn(AxisY, 8), Turn(AxisX, 16)];
    assert GateImage(VanillaGateH, v) == Vec(v.z, Neg(v.y), v.x);
    ApplyTwo(Turn(AxisY, 8), Turn(AxisX, 16), v);
    assert Mod8(8 / 4) == 2 && Mod8(16 / 4) == 4;
    QuarterY(v);
    HalfTurns(Vec(v.z, v.y, Neg(v.x)));
  }

  lemma GateKMeaning(v: Vec)
    ensures Apply(StaticGateTurns(VanillaGateK), v) == Some(GateImage(VanillaGateK, v))
  {
    assert StaticGateTurns(VanillaGateK) == [Turn(AxisX, 24), Turn(AxisY, 16)];
    assert GateImage(VanillaGateK, v) == Vec(Neg(v.x), v.z, v.y);
    ApplyTwo(Turn(AxisX, 24), Turn(AxisY, 16), v);
    assert Mod8(24 / 4) == 6 && Mod8(16 / 4) == 4;
    QuarterX(v);
    HalfTurns(Vec(v.x, v.z, Neg(v.y)));
    NegNeg(v.y);
  }

  lemma GateSMeaning(v: Vec)
    ensures Apply(StaticGateTurns(VanillaGateS), v) == Some(GateImage(VanillaGateS, v))
  {
    assert StaticGateTurns(VanillaGateS) == [Turn(AxisX, 24), Turn(AxisY, 8), Turn(AxisX, 8)];
    assert GateImage(VanillaGateS, v) == Vec(Neg(v.y), v.x, v.z);
    ZByConjugation(8, v);
    assert Mod8(8 / 4) == 2;
    QuarterZ(v);
  }

  lemma GateTMeaning(v: Vec)
    ensures Apply(StaticGateTurns(VanillaGateT), v) == Some(GateImage(VanillaGateT, v))
  {
    assert StaticGateTurns(VanillaGateT) == [Turn(AxisX, 24), Turn(AxisY, 4), Turn(AxisX, 8)];
    assert GateImage(VanillaGateT, v) == Vec(Minus(HalfRoot(v.x), HalfRoot(v.y)), Plus(HalfRoot(v.x), HalfRoot(v.y)), v.z);
    ZByConjugation(4, v);
    assert Mod8(4 / 4) == 1;
    EighthZ(v);
  }

  /** Every static gate's table of turns does what the gate does, on every Bloch vector. */
  lemma StaticGateMeaning(op: Opcode, v: Vec)
    requires StaticGateOp(op)
    ensures Apply(StaticGateTurns(op), v) == Some(GateImage(op, v))
  {
    if op.VanillaGateX? { GateXMeaning(v); }
    else if op.VanillaGateY? { GateYMeaning(v); }
    else if op.VanillaGateZ? { GateZMeaning(v); }
    else if op.VanillaGateH? { GateHMeaning(v); }
    else if op.VanillaGateK? { GateKMeaning(v); }
    else if op.VanillaGateS? { GateSMeaning(v); }
    else { GateTMeaning(v); }
  }

  // ---------------------------------------------------------------------
  // The s and t tables as written

  lemma EighthZUndone(x: Q2, y: Q2)
    ensures Plus(HalfRoot(Minus(HalfRoot(x), HalfRoot(y))), HalfRoot(Plus(HalfRoot(x), HalfRoot(y)))) == x
    ensures Minus(HalfRoot(Plus(HalfRoot(x), HalfRoot(y))), HalfRoot(Minus(HalfRoot(x), HalfRoot(y)))) == y
  {
  }

  /**
   * The tables `_map_single_gate` writes for s and t turn z by 3π/2 and
   * 7π/4, that is by -π/2 and -π/4.
   */
  lemma AsWrittenTurns(op: Opcode, v: Vec)
    requires op.VanillaGateS? || op.VanillaGateT?
    ensures Apply(StaticGateTurnsAsWritten(op), v) == Some(Turned(AxisZ, if op.VanillaGateS? then 6 else 7, v))
  {
    if op.VanillaGateS? {
      assert StaticGateTurnsAsWritten(op) == [Turn(AxisX, 24), Turn(AxisY, 24), Turn(AxisX, 8)];
      ZByConjugation(24, v);
      assert Mod8(24 / 4) == 6;
    } else {
      assert StaticGateTurnsAsWritten(op) == [Turn(AxisX, 24), Turn(AxisY, 28), Turn(AxisX, 8)];
      ZByConjugation(28, v);
      assert Mod8(28 / 4) == 7;
    }
  }

  /** So they undo the gate instead of applying it. */
  lemma AsWrittenUndoesGate(op: Opcode, v: Vec)
    requires op.VanillaGateS? || op.VanillaGateT?
    ensures Apply(StaticGateTurnsAsWritten(op), GateImage(op, v)) == Some(v)
  {
    var w := GateImage(op, v);
    AsWrittenTurns(op, w);
    if op.VanillaGateS? {
      assert w == Vec(Neg(v.y), v.x, v.z);
      QuarterZ(w);
      NegNeg(v.y);
    } else {
      assert w == Vec(Minus(HalfRoot(v.x), HalfRoot(v.y)), Plus(HalfRoot(v.x), HalfRoot(v.y)), v.z);
      EighthZ(w);
      EighthZUndone(v.x, v.y);
    }
  }

  lemma GateTImage(v: Vec)
    ensures GateImage(VanillaGateT, v) == Vec(Minus(HalfRoot(v.x), HalfRoot(v.y)), Plus(HalfRoot(v.x), HalfRoot(v.y)), v.z)
  {
  }

  /** The state |+>, on the x axis of the Bloch sphere. */
  const PlusX := Vec(Q2(1.0, 0.0), Zero, Zero)

  /**
   * On |+> the s and t tables as written do not do what s and t do: they
   * turn it towards -y, where the gates turn it towards +y.
   */
  lemma AsWrittenMissesGate(op: Opcode)
    requires op.VanillaGateS? || op.VanillaGateT?
    ensures Apply(StaticGateTurnsAsWritten(op), PlusX) != Some(GateImage(op, PlusX))
  {
    AsWrittenTurns(op, PlusX);
    StaticGateMeaning(op, PlusX);
    if op.VanillaGateS? {
      assert op == VanillaGateS;
      SAsWrittenMisses(PlusX);
    } else {
      assert op == VanillaGateT;
      TAsWrittenMisses(PlusX);
    }
  }

  /** The s table as written turns a vector off the y-z plane the other way round. */
  lemma SAsWrittenMisses(v: Vec)
    requires v.x.a != 0.0
    ensures Turned(AxisZ, 6, v) != GateImage(VanillaGateS, v)
  {
    QuarterZ(v);
    assert Turned(AxisZ, 6, v).y.a == -v.x.a;
  }

  /** The t table as written turns a vector on the x axis the other way round. */
  lemma TAsWrittenMisses(v: Vec)
    requires v.y == Zero && v.x.a != 0.0
    ensures Turned(AxisZ, 7, v) != GateImage(VanillaGateT, v)
  {
    EighthZ(v);
    GateTImage(v);
    assert Turned(AxisZ, 7, v).y.b == -0.5 * v.x.a;
    assert GateImage(VanillaGateT, v).y.b == 0.5 * v.x.a;
  }

  // ---------------------------------------------------------------------
  // Reading the emitted instructions back

  /** The turn an NV rotation of q with denominator 4 performs. */
  function ReadTurn(q: Register, i: Instr): (r: Option<Turn>)
    ensures r.Some? ==> Lower(i.lineno, RotStep(r.value.axis, q, r.value.num)) == i
  {
    if i.Cmd? && (i.op.NvRotX? || i.op.NvRotY? || i.op.NvRotZ?) && |i.operands| == 3 &&
       i.operands[0] == Reg(q) && i.operands[1].Imm? && i.operands[2] == Imm(4)
    then Some(Turn(if i.op.NvRotX? then AxisX else if i.op.NvRotY? then AxisY else AxisZ, i.operands[1].imm))
    else None
  }

  /** The turns of q that instructions perform, if each is such a rotation. */
  function ReadTurns(q: Register, xs: seq<Instr>): (r: Option<seq<Turn>>)
    ensures r.Some? ==> |r.value| == |xs|
  {
    if xs == [] then Some([])
    else
      match (ReadTurn(q, xs[0]), ReadTurns(q, xs[1..]))
      case (Some(t), Some(ts)) => Some([t] + ts)
      case _ => None
  }

  lemma {:induction false} ReadTurnsLowered(q: Register, l: Option<int>, ts: seq<Turn>)
    ensures ReadTurns(q, LowerAll(l, TurnSteps(q, ts))) == Some(ts)
    decreases |ts|
  {
    var xs := LowerAll(l, TurnSteps(q, ts));
    if ts != [] {
      assert xs[1..] == LowerAll(l, TurnSteps(q, ts[1..]));
      ReadTurnsLowered(q, l, ts[1..]);
      assert ReadTurn(q, xs[0]) == Some(ts[0]);
      assert ReadTurns(q, xs) == Some([ts[0]] + ts[1..]);
      assert [ts[0]] + ts[1..] == ts;
    }
  }

  /**
   * What the compiler emits for a static gate of qubit register q is a run
   * of rotations of q that, on every Bloch vector, does what the gate does.
   */
  lemma MapSingleGateMeaning(i: Instr, hardware: bool, v: Vec)
    requires i.Cmd? && StaticGateOp(i.op) && Shaped(i)
    ensures MapSingleGate(i, hardware).Ok?
    ensures ReadTurns(i.operands[0].reg, MapSingleGate(i, hardware).value) == Some(StaticGateTurns(i.op))
    ensures Apply(StaticGateTurns(i.op), v) == Some(GateImage(i.op, v))
  {
    ReadTurnsLowered(i.operands[0].reg, i.lineno, StaticGateTurns(i.op));
    StaticGateMeaning(i.op, v);
  }
}
