/** `test_rotate` (src/main.rs:179-343): every piece of the batch is drawn
    and rotated four times in turn, with a separator line after each piece,
    and the text must equal the one the test writes out. Each step of the
    test is its own lemma, so that no proof evaluates more than one
    rotation or drawing of a concrete shape. */
module RotateTest {
  import opened Masks
  import opened Shapes
  import opened Tetronimos

  /** What `n` rounds of the inner loop of `test_rotate` (src/main.rs:185-188)
      append: the drawing of the piece, then the drawings that follow its
      rotation. */
  function Drawings(m: Mask, n: nat): string
    requires !IsEmpty(m)
    decreases n
  {
    if n == 0 then "" else Render(m) + Drawings(Rotate(m), n - 1)
  }

  /** What the outer loop appends for one piece (src/main.rs:184-190). */
  function Orientations(m: Mask): string
    requires !IsEmpty(m)
  {
    Drawings(m, 4) + "-------\n"
  }

  /** The text `test_rotate` expects (src/main.rs:193-340), written drawing
      by drawing and grouped as the test builds it: one group per piece, each
      ending with the separator line. */
  const Expected: string :=
    TExpected + (JExpected + (LExpected + (OExpected + (SExpected + (ZExpected + (IExpected + ""))))))

  /** The four drawings of the T piece and the separator. */
  const TExpected: string :=
    ("x x x -\n- x - -\n- - - -\n- - - -\n\n" +
     ("- x - -\nx x - -\n- x - -\n- - - -\n\n" +
      ("- x - -\nx x x -\n- - - -\n- - - -\n\n" +
       "x - - -\nx x - -\nx - - -\n- - - -\n\n"))) +
    "-------\n"

  /** The four drawings of the J piece and the separator. */
  const JExpected: string :=
    ("x x x -\n- - x -\n- - - -\n- - - -\n\n" +
     ("- x - -\n- x - -\nx x - -\n- - - -\n\n" +
      ("x - - -\nx x x -\n- - - -\n- - - -\n\n" +
       "x x - -\nx - - -\nx - - -\n- - - -\n\n"))) +
    "-------\n"

  /** The four drawings of the L piece and the separator. */
  const LExpected: string :=
    ("x x x -\nx - - -\n- - - -\n- - - -\n\n" +
     ("x x - -\n- x - -\n- x - -\n- - - -\n\n" +
      ("- - x -\nx x x -\n- - - -\n- - - -\n\n" +
       "x - - -\nx - - -\nx x - -\n- - - -\n\n"))) +
    "-------\n"

  /** The four drawings of the O piece and the separator. */
  const OExpected: string :=
    ("x x - -\nx x - -\n- - - -\n- - - -\n\n" +
     ("x x - -\nx x - -\n- - - -\n- - - -\n\n" +
      ("x x - -\nx x - -\n- - - -\n- - - -\n\n" +
       "x x - -\nx x - -\n- - - -\n- - - -\n\n"))) +
    "-------\n"

  /** The four drawings of the S piece and the separator. */
  const SExpected: string :=
    ("- x x -\nx x - -\n- - - -\n- - - -\n\n" +
     ("x - - -\nx x - -\n- x - -\n- - - -\n\n" +
      ("- x x -\nx x - -\n- - - -\n- - - -\n\n" +
       "x - - -\nx x - -\n- x - -\n- - - -\n\n"))) +
    "-------\n"

  /** The four drawings of the Z piece and the separator. */
  const ZExpected: string :=
    ("x x - -\n- x x -\n- - - -\n- - - -\n\n" +
     ("- x - -\nx x - -\nx - - -\n- - - -\n\n" +
      ("x x - -\n- x x -\n- - - -\n- - - -\n\n" +
       "- x - -\nx x - -\nx - - -\n- - - -\n\n"))) +
    "-------\n"

  /** The four drawings of the I piece and the separator. */
  const IExpected: string :=
    ("x x x x\n- - - -\n- - - -\n- - - -\n\n" +
     ("x - - -\nx - - -\nx - - -\nx - - -\n\n" +
      ("x x x x\n- - - -\n- - - -\n- - - -\n\n" +
       "x - - -\nx - - -\nx - - -\nx - - -\n\n"))) +
    "-------\n"

  lemma RenderT0()
    ensures Render(T0) == "x x x -\n- x - -\n- - - -\n- - - -\n\n"
  {
  }

  lemma RenderT1()
    ensures Render(T1) == "- x - -\nx x - -\n- x - -\n- - - -\n\n"
  {
  }

  lemma RenderT2()
    ensures Render(T2) == "- x - -\nx x x -\n- - - -\n- - - -\n\n"
  {
  }

  lemma RenderT3()
    ensures Render(T3) == "x - - -\nx x - -\nx - - -\n- - - -\n\n"
  {
  }

  lemma RenderJ0()
    ensures Render(J0) == "x x x -\n- - x -\n- - - -\n- - - -\n\n"
  {
  }

  lemma RenderJ1()
    ensures Render(J1) == "- x - -\n- x - -\nx x - -\n- - - -\n\n"
  {
  }

  lemma RenderJ2()
    ensures Render(J2) == "x - - -\nx x x -\n- - - -\n- - - -\n\n"
  {
  }

  lemma RenderJ3()
    ensures Render(J3) == "x x - -\nx - - -\nx - - -\n- - - -\n\n"
  {
  }

  lemma RenderL0()
    ensures Render(L0) == "x x x -\nx - - -\n- - - -\n- - - -\n\n"
  {
  }

  lemma RenderL1()
    ensures Render(L1) == "x x - -\n- x - -\n- x - -\n- - - -\n\n"
  {
  }

  lemma RenderL2()
    ensures Render(L2) == "- - x -\nx x x -\n- - - -\n- - - -\n\n"
  {
  }

  lemma RenderL3()
    ensures Render(L3) == "x - - -\nx - - -\nx x - -\n- - - -\n\n"
  {
  }

  lemma RenderO0()
    ensures Render(O0) == "x x - -\nx x - -\n- - - -\n- - - -\n\n"
  {
  }

  lemma RenderS0()
    ensures Render(S0) == "- x x -\nx x - -\n- - - -\n- - - -\n\n"
  {
  }

  lemma RenderS1()
    ensures Render(S1) == "x - - -\nx x - -\n- x - -\n- - - -\n\n"
  {
  }

  lemma RenderZ0()
    ensures Render(Z0) == "x x - -\n- x x -\n- - - -\n- - - -\n\n"
  {
  }

  lemma RenderZ1()
    ensures Render(Z1) == "- x - -\nx x - -\nx - - -\n- - - -\n\n"
  {
  }

  lemma RenderI0()
    ensures Render(I0) == "x x x x\n- - - -\n- - - -\n- - - -\n\n"
  {
  }

  lemma RenderI1()
    ensures Render(I1) == "x - - -\nx - - -\nx - - -\nx - - -\n\n"
  {
  }

  lemma DrawingsT1()
    ensures Drawings(T3, 1) == "x - - -\nx x - -\nx - - -\n- - - -\n\n"
  {
    RenderT3();
  }

  lemma DrawingsT2()
    ensures Drawings(T2, 2) == "- x - -\nx x x -\n- - - -\n- - - -\n\n" + "x - - -\nx x - -\nx - - -\n- - - -\n\n"
  {
    RenderT2();
    TTurn2();
    DrawingsT1();
  }

  lemma DrawingsT3()
    ensures Drawings(T1, 3) == "- x - -\nx x - -\n- x - -\n- - - -\n\n" + ("- x - -\nx x x -\n- - - -\n- - - -\n\n" + "x - - -\nx x - -\nx - - -\n- - - -\n\n")
  {
    RenderT1();
    TTurn1();
    DrawingsT2();
  }

  lemma DrawingsT4()
    ensures Drawings(T0, 4) == "x x x -\n- x - -\n- - - -\n- - - -\n\n" + ("- x - -\nx x - -\n- x - -\n- - - -\n\n" + ("- x - -\nx x x -\n- - - -\n- - - -\n\n" + "x - - -\nx x - -\nx - - -\n- - - -\n\n"))
  {
    RenderT0();
    TTurn0();
    DrawingsT3();
  }

  lemma DrawingsJ1()
    ensures Drawings(J3, 1) == "x x - -\nx - - -\nx - - -\n- - - -\n\n"
  {
    RenderJ3();
  }

  lemma DrawingsJ2()
    ensures Drawings(J2, 2) == "x - - -\nx x x -\n- - - -\n- - - -\n\n" + "x x - -\nx - - -\nx - - -\n- - - -\n\n"
  {
    RenderJ2();
    JTurn2();
    DrawingsJ1();
  }

  lemma DrawingsJ3()
    ensures Drawings(J1, 3) == "- x - -\n- x - -\nx x - -\n- - - -\n\n" + ("x - - -\nx x x -\n- - - -\n- - - -\n\n" + "x x - -\nx - - -\nx - - -\n- - - -\n\n")
  {
    RenderJ1();
    JTurn1();
    DrawingsJ2();
  }

  lemma DrawingsJ4()
    ensures Drawings(J0, 4) == "x x x -\n- - x -\n- - - -\n- - - -\n\n" + ("- x - -\n- x - -\nx x - -\n- - - -\n\n" + ("x - - -\nx x x -\n- - - -\n- - - -\n\n" + "x x - -\nx - - -\nx - - -\n- - - -\n\n"))
  {
    RenderJ0();
    JTurn0();
    DrawingsJ3();
  }

  lemma DrawingsL1()
    ensures Drawings(L3, 1) == "x - - -\nx - - -\nx x - -\n- - - -\n\n"
  {
    RenderL3();
  }

  lemma DrawingsL2()
    ensures Drawings(L2, 2) == "- - x -\nx x x -\n- - - -\n- - - -\n\n" + "x - - -\nx - - -\nx x - -\n- - - -\n\n"
  {
    RenderL2();
    LTurn2();
    DrawingsL1();
  }

  lemma DrawingsL3()
    ensures Drawings(L1, 3) == "x x - -\n- x - -\n- x - -\n- - - -\n\n" + ("- - x -\nx x x -\n- - - -\n- - - -\n\n" + "x - - -\nx - - -\nx x - -\n- - - -\n\n")
  {
    RenderL1();
    LTurn1();
    DrawingsL2();
  }

  lemma DrawingsL4()
    ensures Drawings(L0, 4) == "x x x -\nx - - -\n- - - -\n- - - -\n\n" + ("x x - -\n- x - -\n- x - -\n- - - -\n\n" + ("- - x -\nx x x -\n- - - -\n- - - -\n\n" + "x - - -\nx - - -\nx x - -\n- - - -\n\n"))
  {
    RenderL0();
    LTurn0();
    DrawingsL3();
  }

  lemma DrawingsO1()
    ensures Drawings(O0, 1) == "x x - -\nx x - -\n- - - -\n- - - -\n\n"
  {
    RenderO0();
  }

  lemma DrawingsO2()
    ensures Drawings(O0, 2) == "x x - -\nx x - -\n- - - -\n- - - -\n\n" + "x x - -\nx x - -\n- - - -\n- - - -\n\n"
  {
    RenderO0();
    OTurn0();
    DrawingsO1();
  }

  lemma DrawingsO3()
    ensures Drawings(O0, 3) == "x x - -\nx x - -\n- - - -\n- - - -\n\n" + ("x x - -\nx x - -\n- - - -\n- - - -\n\n" + "x x - -\nx x - -\n- - - -\n- - - -\n\n")
  {
    RenderO0();
    OTurn0();
    DrawingsO2();
  }

  lemma DrawingsO4()
    ensures Drawings(O0, 4) == "x x - -\nx x - -\n- - - -\n- - - -\n\n" + ("x x - -\nx x - -\n- - - -\n- - - -\n\n" + ("x x - -\nx x - -\n- - - -\n- - - -\n\n" + "x x - -\nx x - -\n- - - -\n- - - -\n\n"))
  {
    RenderO0();
    OTurn0();
    DrawingsO3();
  }

  lemma DrawingsS1()
    ensures Drawings(S1, 1) == "x - - -\nx x - -\n- x - -\n- - - -\n\n"
  {
    RenderS1();
  }

  lemma DrawingsS2()
    ensures Drawings(S0, 2) == "- x x -\nx x - -\n- - - -\n- - - -\n\n" + "x - - -\nx x - -\n- x - -\n- - - -\n\n"
  {
    RenderS0();
    STurn0();
    DrawingsS1();
  }

  lemma DrawingsS3()
    ensures Drawings(S1, 3) == "x - - -\nx x - -\n- x - -\n- - - -\n\n" + ("- x x -\nx x - -\n- - - -\n- - - -\n\n" + "x - - -\nx x - -\n- x - -\n- - - -\n\n")
  {
    RenderS1();
    STurn1();
    DrawingsS2();
  }

  lemma DrawingsS4()
    ensures Drawings(S0, 4) == "- x x -\nx x - -\n- - - -\n- - - -\n\n" + ("x - - -\nx x - -\n- x - -\n- - - -\n\n" + ("- x x -\nx x - -\n- - - -\n- - - -\n\n" + "x - - -\nx x - -\n- x - -\n- - - -\n\n"))
  {
    RenderS0();
    STurn0();
    DrawingsS3();
  }

  lemma DrawingsZ1()
    ensures Drawings(Z1, 1) == "- x - -\nx x - -\nx - - -\n- - - -\n\n"
  {
    RenderZ1();
  }

  lemma DrawingsZ2()
    ensures Drawings(Z0, 2) == "x x - -\n- x x -\n- - - -\n- - - -\n\n" + "- x - -\nx x - -\nx - - -\n- - - -\n\n"
  {
    RenderZ0();
    ZTurn0();
    DrawingsZ1();
  }

  lemma DrawingsZ3()
    ensures Drawings(Z1, 3) == "- x - -\nx x - -\nx - - -\n- - - -\n\n" + ("x x - -\n- x x -\n- - - -\n- - - -\n\n" + "- x - -\nx x - -\nx - - -\n- - - -\n\n")
  {
    RenderZ1();
    ZTurn1();
    DrawingsZ2();
  }

  lemma DrawingsZ4()
    ensures Drawings(Z0, 4) == "x x - -\n- x x -\n- - - -\n- - - -\n\n" + ("- x - -\nx x - -\nx - - -\n- - - -\n\n" + ("x x - -\n- x x -\n- - - -\n- - - -\n\n" + "- x - -\nx x - -\nx - - -\n- - - -\n\n"))
  {
    RenderZ0();
    ZTurn0();
    DrawingsZ3();
  }

  lemma DrawingsI1()
    ensures Drawings(I1, 1) == "x - - -\nx - - -\nx - - -\nx - - -\n\n"
  {
    RenderI1();
  }

  lemma DrawingsI2()
    ensures Drawings(I0, 2) == "x x x x\n- - - -\n- - - -\n- - - -\n\n" + "x - - -\nx - - -\nx - - -\nx - - -\n\n"
  {
    RenderI0();
    ITurn0();
    DrawingsI1();
  }

  lemma DrawingsI3()
    ensures Drawings(I1, 3) == "x - - -\nx - - -\nx - - -\nx - - -\n\n" + ("x x x x\n- - - -\n- - - -\n- - - -\n\n" + "x - - -\nx - - -\nx - - -\nx - - -\n\n")
  {
    RenderI1();
    ITurn1();
    DrawingsI2();
  }

  lemma DrawingsI4()
    ensures Drawings(I0, 4) == "x x x x\n- - - -\n- - - -\n- - - -\n\n" + ("x - - -\nx - - -\nx - - -\nx - - -\n\n" + ("x x x x\n- - - -\n- - - -\n- - - -\n\n" + "x - - -\nx - - -\nx - - -\nx - - -\n\n"))
  {
    RenderI0();
    ITurn0();
    DrawingsI3();
  }

  lemma OrientationsT()
    ensures Orientations(T0) == TExpected
  {
    DrawingsT4();
  }

  lemma OrientationsJ()
    ensures Orientations(J0) == JExpected
  {
    DrawingsJ4();
  }

  lemma OrientationsL()
    ensures Orientations(L0) == LExpected
  {
    DrawingsL4();
  }

  lemma OrientationsO()
    ensures Orientations(O0) == OExpected
  {
    DrawingsO4();
  }

  lemma OrientationsS()
    ensures Orientations(S0) == SExpected
  {
    DrawingsS4();
  }

  lemma OrientationsZ()
    ensures Orientations(Z0) == ZExpected
  {
    DrawingsZ4();
  }

  lemma OrientationsI()
    ensures Orientations(I0) == IExpected
  {
    DrawingsI4();
  }

  /** The pieces of `generate_batch`, in push order, have the masks T0,
      J0, L0, O0, S0, Z0 and I0. */
  lemma BatchOrder()
    ensures |Batch()| == 7
    ensures Batch()[0].blocks == T0 && Batch()[1].blocks == J0 && Batch()[2].blocks == L0
    ensures Batch()[3].blocks == O0 && Batch()[4].blocks == S0 && Batch()[5].blocks == Z0
    ensures Batch()[6].blocks == I0
  {
    BatchHolds(0);
    BatchHolds(1);
    BatchHolds(2);
    BatchHolds(3);
    BatchHolds(4);
    BatchHolds(5);
    BatchHolds(6);
  }


  /** `test_rotate` passes: drawing and rotating T0, J0, L0, O0, S0, Z0 and
      I0 as the test does gives exactly the expected text; by `BatchOrder`
      these are the masks of the batch's pieces in push order. */
  lemma TestRotate()
    ensures Expected ==
      Orientations(T0) + (Orientations(J0) + (Orientations(L0) + (Orientations(O0) +
      (Orientations(S0) + (Orientations(Z0) + (Orientations(I0) + ""))))))
  {
    OrientationsT();
    OrientationsJ();
    OrientationsL();
    OrientationsO();
    OrientationsS();
    OrientationsZ();
    OrientationsI();
  }
}
