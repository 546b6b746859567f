/** The seven shapes of `generate_batch` (src/main.rs:103-175) and the
    orientations `rotate` takes each of them through, as `test_rotate`
    (src/main.rs:179-343) prints them. Every fact about a concrete shape is
    its own small lemma, so that no proof has to evaluate more than one
    literal rotation. */
module Shapes {
  import opened Masks

  /** The seven shapes as written in `generate_batch` (src/main.rs:103-175),
      upside down and in the bottom-left corner of the frame. */
  const TSource: Mask :=
    [[false, false, false, false], [false, false, false, false], [false, true, false, false], [true, true, true, false]]
  const JSource: Mask :=
    [[false, false, false, false], [false, false, false, false], [true, false, false, false], [true, true, true, false]]
  const LSource: Mask :=
    [[false, false, false, false], [false, false, false, false], [false, false, true, false], [true, true, true, false]]
  const OSource: Mask :=
    [[false, false, false, false], [false, false, false, false], [true, true, false, false], [true, true, false, false]]
  const SSource: Mask :=
    [[false, false, false, false], [false, false, false, false], [false, true, true, false], [true, true, false, false]]
  const ZSource: Mask :=
    [[false, false, false, false], [false, false, false, false], [true, true, false, false], [false, true, true, false]]
  const ISource: Mask :=
    [[false, false, false, false], [false, false, false, false], [false, false, false, false], [true, true, true, true]]

  /** The mask `Tetronimo::new` (src/main.rs:15-28) builds from `m`: normalised,
      then rotated twice. */
  function Spawned(m: Mask): (r: Mask)
    requires !IsEmpty(m)
    ensures Normalised(r) && Count(r) == Count(m)
  {
    Rotate(Rotate(Normalise(m)))
  }


  /** The orientations of the T piece, starting with the spawned one. */
  const T0: Mask := [[true, true, true, false], [false, true, false, false], [false, false, false, false], [false, false, false, false]]
  const T1: Mask := [[false, true, false, false], [true, true, false, false], [false, true, false, false], [false, false, false, false]]
  const T2: Mask := [[false, true, false, false], [true, true, true, false], [false, false, false, false], [false, false, false, false]]
  const T3: Mask := [[true, false, false, false], [true, true, false, false], [true, false, false, false], [false, false, false, false]]

  /** The orientations of the J piece, starting with the spawned one. */
  const J0: Mask := [[true, true, true, false], [false, false, true, false], [false, false, false, false], [false, false, false, false]]
  const J1: Mask := [[false, true, false, false], [false, true, false, false], [true, true, false, false], [false, false, false, false]]
  const J2: Mask := [[true, false, false, false], [true, true, true, false], [false, false, false, false], [false, false, false, false]]
  const J3: Mask := [[true, true, false, false], [true, false, false, false], [true, false, false, false], [false, false, false, false]]

  /** The orientations of the L piece, starting with the spawned one. */
  const L0: Mask := [[true, true, true, false], [true, false, false, false], [false, false, false, false], [false, false, false, false]]
  const L1: Mask := [[true, true, false, false], [false, true, false, false], [false, true, false, false], [false, false, false, false]]
  const L2: Mask := [[false, false, true, false], [true, true, true, false], [false, false, false, false], [false, false, false, false]]
  const L3: Mask := [[true, false, false, false], [true, false, false, false], [true, true, false, false], [false, false, false, false]]

  /** The orientations of the O piece, starting with the spawned one. */
  const O0: Mask := [[true, true, false, false], [true, true, false, false], [false, false, false, false], [false, false, false, false]]

  /** The orientations of the S piece, starting with the spawned one. */
  const S0: Mask := [[false, true, true, false], [true, true, false, false], [false, false, false, false], [false, false, false, false]]
  const S1: Mask := [[true, false, false, false], [true, true, false, false], [false, true, false, false], [false, false, false, false]]

  /** The orientations of the Z piece, starting with the spawned one. */
  const Z0: Mask := [[true, true, false, false], [false, true, true, false], [false, false, false, false], [false, false, false, false]]
  const Z1: Mask := [[false, true, false, false], [true, true, false, false], [true, false, false, false], [false, false, false, false]]

  /** The orientations of the I piece, starting with the spawned one. */
  const I0: Mask := [[true, true, true, true], [false, false, false, false], [false, false, false, false], [false, false, false, false]]
  const I1: Mask := [[true, false, false, false], [true, false, false, false], [true, false, false, false], [true, false, false, false]]

  /** `Tetronimo::new` turns the T source shape into T0. */
  lemma TSpawn()
    ensures Spawned(TSource) == T0
  {
    NormaliseIsShift(TSource);
    NormaliseIsShift(Turn(Normalise(TSource)));
    NormaliseIsShift(Turn(Rotate(Normalise(TSource))));
  }

  lemma TTurn0()
    ensures Rotate(T0) == T1
  {
    NormaliseIsShift(Turn(T0));
  }

  lemma TTurn1()
    ensures Rotate(T1) == T2
  {
    NormaliseIsShift(Turn(T1));
  }

  lemma TTurn2()
    ensures Rotate(T2) == T3
  {
    NormaliseIsShift(Turn(T2));
  }

  lemma TTurn3()
    ensures Rotate(T3) == T0
  {
    NormaliseIsShift(Turn(T3));
  }

  /** `Tetronimo::new` turns the J source shape into J0. */
  lemma JSpawn()
    ensures Spawned(JSource) == J0
  {
    NormaliseIsShift(JSource);
    NormaliseIsShift(Turn(Normalise(JSource)));
    NormaliseIsShift(Turn(Rotate(Normalise(JSource))));
  }

  lemma JTurn0()
    ensures Rotate(J0) == J1
  {
    NormaliseIsShift(Turn(J0));
  }

  lemma JTurn1()
    ensures Rotate(J1) == J2
  {
    NormaliseIsShift(Turn(J1));
  }

  lemma JTurn2()
    ensures Rotate(J2) == J3
  {
    NormaliseIsShift(Turn(J2));
  }

  lemma JTurn3()
    ensures Rotate(J3) == J0
  {
    NormaliseIsShift(Turn(J3));
  }

  /** `Tetronimo::new` turns the L source shape into L0. */
  lemma LSpawn()
    ensures Spawned(LSource) == L0
  {
    NormaliseIsShift(LSource);
    NormaliseIsShift(Turn(Normalise(LSource)));
    NormaliseIsShift(Turn(Rotate(Normalise(LSource))));
  }

  lemma LTurn0()
    ensures Rotate(L0) == L1
  {
    NormaliseIsShift(Turn(L0));
  }

  lemma LTurn1()
    ensures Rotate(L1) == L2
  {
    NormaliseIsShift(Turn(L1));
  }

  lemma LTurn2()
    ensures Rotate(L2) == L3
  {
    NormaliseIsShift(Turn(L2));
  }

  lemma LTurn3()
    ensures Rotate(L3) == L0
  {
    NormaliseIsShift(Turn(L3));
  }

  /** `Tetronimo::new` turns the O source shape into O0. */
  lemma OSpawn()
    ensures Spawned(OSource) == O0
  {
    NormaliseIsShift(OSource);
    NormaliseIsShift(Turn(Normalise(OSource)));
    NormaliseIsShift(Turn(Rotate(Normalise(OSource))));
  }

  lemma OTurn0()
    ensures Rotate(O0) == O0
  {
    NormaliseIsShift(Turn(O0));
  }

  /** `Tetronimo::new` turns the S source shape into S0. */
  lemma SSpawn()
    ensures Spawned(SSource) == S0
  {
    NormaliseIsShift(SSource);
    NormaliseIsShift(Turn(Normalise(SSource)));
    NormaliseIsShift(Turn(Rotate(Normalise(SSource))));
  }

  lemma STurn0()
    ensures Rotate(S0) == S1
  {
    NormaliseIsShift(Turn(S0));
  }

  lemma STurn1()
    ensures Rotate(S1) == S0
  {
    NormaliseIsShift(Turn(S1));
  }

  /** `Tetronimo::new` turns the Z source shape into Z0. */
  lemma ZSpawn()
    ensures Spawned(ZSource) == Z0
  {
    NormaliseIsShift(ZSource);
    NormaliseIsShift(Turn(Normalise(ZSource)));
    NormaliseIsShift(Turn(Rotate(Normalise(ZSource))));
  }

  lemma ZTurn0()
    ensures Rotate(Z0) == Z1
  {
    NormaliseIsShift(Turn(Z0));
  }

  lemma ZTurn1()
    ensures Rotate(Z1) == Z0
  {
    NormaliseIsShift(Turn(Z1));
  }

  /** `Tetronimo::new` turns the I source shape into I0. */
  lemma ISpawn()
    ensures Spawned(ISource) == I0
  {
    NormaliseIsShift(ISource);
    NormaliseIsShift(Turn(Normalise(ISource)));
    NormaliseIsShift(Turn(Rotate(Normalise(ISource))));
  }

  lemma ITurn0()
    ensures Rotate(I0) == I1
  {
    NormaliseIsShift(Turn(I0));
  }

  lemma ITurn1()
    ensures Rotate(I1) == I0
  {
    NormaliseIsShift(Turn(I1));
  }
}
