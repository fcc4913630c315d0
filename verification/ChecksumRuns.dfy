/** Where three checksum states get to on zero symbols, worked out with the fast steps. */
module ChecksumRuns {
  import opened Digits
  import opened Bech32
  import opened FastChecksum

  lemma Onward(a: nat, b: nat, c: nat, m: nat, n: nat)
    requires Poly(a, Zeros(m)) == b && Poly(b, Zeros(n)) == c
    ensures Poly(a, Zeros(m + n)) == c
  {
    assert Zeros(m + n) == Zeros(m) + Zeros(n);
    PolyConcat(a, Zeros(m), Zeros(n));
  }

  lemma NumbersRun(w: Word, v: Word, a: nat, b: nat, n: nat)
    requires Small(w) && WordNumber(w) == a && Run(w, n) == v && WordNumber(v) == b
    ensures Poly(a, Zeros(n)) == b
  {
    RunRefines(w, n);
    Written(w);
    Written(v);
  }

  lemma Run42From0()
    ensures Poly(0x44851e2, Zeros(9)) == 0x19840351
  {
    NumbersRun(
      Word(0, 0, 0, 1, 0, 0, 0, 1, 0, 0, 1, 0, 0, 0, 0,
           1, 0, 1, 0, 0, 0, 1, 1, 1, 1, 0, 0, 0, 1, 0),
      Word(0, 1, 1, 0, 0, 1, 1, 0, 0, 0, 0, 1, 0, 0, 0,
           0, 0, 0, 0, 0, 1, 1, 0, 1, 0, 1, 0, 0, 0, 1),
      0x44851e2, 0x19840351, 9);
  }

  lemma Run42From9()
    ensures Poly(0x19840351, Zeros(9)) == 0x122f8bbd
  {
    NumbersRun(
      Word(0, 1, 1, 0, 0, 1, 1, 0, 0, 0, 0, 1, 0, 0, 0,
           0, 0, 0, 0, 0, 1, 1, 0, 1, 0, 1, 0, 0, 0, 1),
      Word(0, 1, 0, 0, 1, 0, 0, 0, 1, 0, 1, 1, 1, 1, 1,
           0, 0, 0, 1, 0, 1, 1, 1, 0, 1, 1, 1, 1, 0, 1),
      0x19840351, 0x122f8bbd, 9);
  }

  lemma Run42From18()
    ensures Poly(0x122f8bbd, Zeros(9)) == 0x12ddab5e
  {
    NumbersRun(
      Word(0, 1, 0, 0, 1, 0, 0, 0, 1, 0, 1, 1, 1, 1, 1,
           0, 0, 0, 1, 0, 1, 1, 1, 0, 1, 1, 1, 1, 0, 1),
      Word(0, 1, 0, 0, 1, 0, 1, 1, 0, 1, 1, 1, 0, 1, 1,
           0, 1, 0, 1, 0, 1, 1, 0, 1, 0, 1, 1, 1, 1, 0),
      0x122f8bbd, 0x12ddab5e, 9);
  }

  lemma Run42From27()
    ensures Poly(0x12ddab5e, Zeros(6)) == 0x2bc830a2
  {
    NumbersRun(
      Word(0, 1, 0, 0, 1, 0, 1, 1, 0, 1, 1, 1, 0, 1, 1,
           0, 1, 0, 1, 0, 1, 1, 0, 1, 0, 1, 1, 1, 1, 0),
      Word(1, 0, 1, 0, 1, 1, 1, 1, 0, 0, 1, 0, 0, 0, 0,
           0, 1, 1, 0, 0, 0, 0, 1, 0, 1, 0, 0, 0, 1, 0),
      0x12ddab5e, 0x2bc830a2, 6);
  }

  /** From the six symbols 2, 4, 16, 20, 15, 2. */
  lemma Run42()
    ensures Poly(0x44851e2, Zeros(33)) == 0x2bc830a2
  {
    Run42From0();
    Run42From9();
    Run42From18();
    Run42From27();
    Onward(0x44851e2, 0x19840351, 0x122f8bbd, 9, 9);
    Onward(0x44851e2, 0x122f8bbd, 0x12ddab5e, 18, 9);
    Onward(0x44851e2, 0x12ddab5e, 0x2bc830a2, 27, 6);
  }

  lemma Run62From0()
    ensures Poly(0x1cc14568, Zeros(9)) == 0x31804f46
  {
    NumbersRun(
      Word(0, 1, 1, 1, 0, 0, 1, 1, 0, 0, 0, 0, 0, 1, 0,
           1, 0, 0, 0, 1, 0, 1, 0, 1, 1, 0, 1, 0, 0, 0),
      Word(1, 1, 0, 0, 0, 1, 1, 0, 0, 0, 0, 0, 0, 0, 0,
           1, 0, 0, 1, 1, 1, 1, 0, 1, 0, 0, 0, 1, 1, 0),
      0x1cc14568, 0x31804f46, 9);
  }

  lemma Run62From9()
    ensures Poly(0x31804f46, Zeros(9)) == 0x650dae0
  {
    NumbersRun(
      Word(1, 1, 0, 0, 0, 1, 1, 0, 0, 0, 0, 0, 0, 0, 0,
           1, 0, 0, 1, 1, 1, 1, 0, 1, 0, 0, 0, 1, 1, 0),
      Word(0, 0, 0, 1, 1, 0, 0, 1, 0, 1, 0, 0, 0, 0, 1,
           1, 0, 1, 1, 0, 1, 0, 1, 1, 1, 0, 0, 0, 0, 0),
      0x31804f46, 0x650dae0, 9);
  }

  lemma Run62From18()
    ensures Poly(0x650dae0, Zeros(9)) == 0x75d2cec
  {
    NumbersRun(
      Word(0, 0, 0, 1, 1, 0, 0, 1, 0, 1, 0, 0, 0, 0, 1,
           1, 0, 1, 1, 0, 1, 0, 1, 1, 1, 0, 0, 0, 0, 0),
      Word(0, 0, 0, 1, 1, 1, 0, 1, 0, 1, 1, 1, 0, 1, 0,
           0, 1, 0, 1, 1, 0, 0, 1, 1, 1, 0, 1, 1, 0, 0),
      0x650dae0, 0x75d2cec, 9);
  }

  lemma Run62From27()
    ensures Poly(0x75d2cec, Zeros(9)) == 0x3503ed96
  {
    NumbersRun(
      Word(0, 0, 0, 1, 1, 1, 0, 1, 0, 1, 1, 1, 0, 1, 0,
           0, 1, 0, 1, 1, 0, 0, 1, 1, 1, 0, 1, 1, 0, 0),
      Word(1, 1, 0, 1, 0, 1, 0, 0, 0, 0, 0, 0, 1, 1, 1,
           1, 1, 0, 1, 1, 0, 1, 1, 0, 0, 1, 0, 1, 1, 0),
      0x75d2cec, 0x3503ed96, 9);
  }

  lemma Run62From36()
    ensures Poly(0x3503ed96, Zeros(9)) == 0x32464667
  {
    NumbersRun(
      Word(1, 1, 0, 1, 0, 1, 0, 0, 0, 0, 0, 0, 1, 1, 1,
           1, 1, 0, 1, 1, 0, 1, 1, 0, 0, 1, 0, 1, 1, 0),
      Word(1, 1, 0, 0, 1, 0, 0, 1, 0, 0, 0, 1, 1, 0, 0,
           1, 0, 0, 0, 1, 1, 0, 0, 1, 1, 0, 0, 1, 1, 1),
      0x3503ed96, 0x32464667, 9);
  }

  lemma Run62From45()
    ensures Poly(0x32464667, Zeros(8)) == 0x2bc830a2
  {
    NumbersRun(
      Word(1, 1, 0, 0, 1, 0, 0, 1, 0, 0, 0, 1, 1, 0, 0,
           1, 0, 0, 0, 1, 1, 0, 0, 1, 1, 0, 0, 1, 1, 1),
      Word(1, 0, 1, 0, 1, 1, 1, 1, 0, 0, 1, 0, 0, 0, 0,
           0, 1, 1, 0, 0, 0, 0, 1, 0, 1, 0, 0, 0, 1, 0),
      0x32464667, 0x2bc830a2, 8);
  }

  /** From the six symbols 14, 12, 2, 17, 11, 8. */
  lemma Run62()
    ensures Poly(0x1cc14568, Zeros(53)) == 0x2bc830a2
  {
    Run62From0();
    Run62From9();
    Run62From18();
    Run62From27();
    Run62From36();
    Run62From45();
    Onward(0x1cc14568, 0x31804f46, 0x650dae0, 9, 9);
    Onward(0x1cc14568, 0x650dae0, 0x75d2cec, 18, 9);
    Onward(0x1cc14568, 0x75d2cec, 0x3503ed96, 27, 9);
    Onward(0x1cc14568, 0x3503ed96, 0x32464667, 36, 9);
    Onward(0x1cc14568, 0x32464667, 0x2bc830a2, 45, 8);
  }

  lemma RunEmptyFrom0()
    ensures Poly(0x2318043, Zeros(9)) == 0x11fc5fb3
  {
    NumbersRun(
      Word(0, 0, 0, 0, 1, 0, 0, 0, 1, 1, 0, 0, 0, 1, 1,
           0, 0, 0, 0, 0, 0, 0, 0, 1, 0, 0, 0, 0, 1, 1),
      Word(0, 1, 0, 0, 0, 1, 1, 1, 1, 1, 1, 1, 0, 0, 0,
           1, 0, 1, 1, 1, 1, 1, 1, 0, 1, 1, 0, 0, 1, 1),
      0x2318043, 0x11fc5fb3, 9);
  }

  lemma RunEmptyFrom9()
    ensures Poly(0x11fc5fb3, Zeros(9)) == 0x918bfa9
  {
    NumbersRun(
      Word(0, 1, 0, 0, 0, 1, 1, 1, 1, 1, 1, 1, 0, 0, 0,
           1, 0, 1, 1, 1, 1, 1, 1, 0, 1, 1, 0, 0, 1, 1),
      Word(0, 0, 1, 0, 0, 1, 0, 0, 0, 1, 1, 0, 0, 0, 1,
           0, 1, 1, 1, 1, 1, 1, 1, 0, 1, 0, 1, 0, 0, 1),
      0x11fc5fb3, 0x918bfa9, 9);
  }

  lemma RunEmptyFrom18()
    ensures Poly(0x918bfa9, Zeros(9)) == 0x371c69e0
  {
    NumbersRun(
      Word(0, 0, 1, 0, 0, 1, 0, 0, 0, 1, 1, 0, 0, 0, 1,
           0, 1, 1, 1, 1, 1, 1, 1, 0, 1, 0, 1, 0, 0, 1),
      Word(1, 1, 0, 1, 1, 1, 0, 0, 0, 1, 1, 1, 0, 0, 0,
           1, 1, 0, 1, 0, 0, 1, 1, 1, 1, 0, 0, 0, 0, 0),
      0x918bfa9, 0x371c69e0, 9);
  }

  lemma RunEmptyFrom27()
    ensures Poly(0x371c69e0, Zeros(9)) == 0x13e06783
  {
    NumbersRun(
      Word(1, 1, 0, 1, 1, 1, 0, 0, 0, 1, 1, 1, 0, 0, 0,
           1, 1, 0, 1, 0, 0, 1, 1, 1, 1, 0, 0, 0, 0, 0),
      Word(0, 1, 0, 0, 1, 1, 1, 1, 1, 0, 0, 0, 0, 0, 0,
           1, 1, 0, 0, 1, 1, 1, 1, 0, 0, 0, 0, 0, 1, 1),
      0x371c69e0, 0x13e06783, 9);
  }

  lemma RunEmptyFrom36()
    ensures Poly(0x13e06783, Zeros(3)) == 0xb9f5071
  {
    NumbersRun(
      Word(0, 1, 0, 0, 1, 1, 1, 1, 1, 0, 0, 0, 0, 0, 0,
           1, 1, 0, 0, 1, 1, 1, 1, 0, 0, 0, 0, 0, 1, 1),
      Word(0, 0, 1, 0, 1, 1, 1, 0, 0, 1, 1, 1, 1, 1, 0,
           1, 0, 1, 0, 0, 0, 0, 0, 1, 1, 1, 0, 0, 0, 1),
      0x13e06783, 0xb9f5071, 3);
  }

  /** From the state after the prefix `bc`. */
  lemma RunEmpty()
    ensures Poly(0x2318043, Zeros(39)) == 0xb9f5071
  {
    RunEmptyFrom0();
    RunEmptyFrom9();
    RunEmptyFrom18();
    RunEmptyFrom27();
    RunEmptyFrom36();
    Onward(0x2318043, 0x11fc5fb3, 0x918bfa9, 9, 9);
    Onward(0x2318043, 0x918bfa9, 0x371c69e0, 18, 9);
    Onward(0x2318043, 0x371c69e0, 0x13e06783, 27, 9);
    Onward(0x2318043, 0x13e06783, 0xb9f5071, 36, 3);
  }
}
