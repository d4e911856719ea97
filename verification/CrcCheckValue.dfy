/** The published check value of CRC-32, followed through the table loop byte by byte. */
module CrcCheckValue {
  import opened Crc

  lemma FirstOctet(r: Reg, b: octet, p: seq<octet>, v: bv32)
    requires TableStep(r, b) == Reg(v)
    ensures TableRun(r, [b] + p) == TableRun(Reg(v), p)
  {
    hide TableStep;
    assert ([b] + p)[1..] == p;
  }

  lemma CheckStep1()
    ensures TableStep(Reg(0xFFFF_FFFF), 0x31) == Reg(0x7C23_1048)
  {
  }

  lemma CheckStep2()
    ensures TableStep(Reg(0x7C23_1048), 0x32) == Reg(0xB0AC_BB32)
  {
  }

  lemma CheckStep3()
    ensures TableStep(Reg(0xB0AC_BB32), 0x33) == Reg(0x77B7_9C2D)
  {
  }

  lemma CheckStep4()
    ensures TableStep(Reg(0x77B7_9C2D), 0x34) == Reg(0x641C_1F5C)
  {
  }

  lemma CheckStep5()
    ensures TableStep(Reg(0x641C_1F5C), 0x35) == Reg(0x340A_C5E3)
  {
  }

  lemma CheckStep6()
    ensures TableStep(Reg(0x340A_C5E3), 0x36) == Reg(0xF68D_2C9E)
  {
  }

  lemma CheckStep7()
    ensures TableStep(Reg(0xF68D_2C9E), 0x37) == Reg(0xAFFC_9660)
  {
  }

  lemma CheckStep8()
    ensures TableStep(Reg(0xAFFC_9660), 0x38) == Reg(0x651F_2550)
  {
  }

  lemma CheckStep9()
    ensures TableStep(Reg(0x651F_2550), 0x39) == Reg(0x340B_C6D9)
  {
  }

  /** The check value of CRC-32: the characters 1 to 9 give 0xCBF43926. */
  lemma CheckValue()
    ensures Crc32([0x31, 0x32, 0x33, 0x34, 0x35, 0x36, 0x37, 0x38, 0x39]) == 0xCBF4_3926
  {
    hide TableStep;
    CheckStep1();
    FirstOctet(Reg(0xFFFF_FFFF), 0x31, [0x32, 0x33, 0x34, 0x35, 0x36, 0x37, 0x38, 0x39], 0x7C23_1048);
    assert [0x31] + [0x32, 0x33, 0x34, 0x35, 0x36, 0x37, 0x38, 0x39]
        == [0x31, 0x32, 0x33, 0x34, 0x35, 0x36, 0x37, 0x38, 0x39];
    CheckStep2();
    FirstOctet(Reg(0x7C23_1048), 0x32, [0x33, 0x34, 0x35, 0x36, 0x37, 0x38, 0x39], 0xB0AC_BB32);
    assert [0x32] + [0x33, 0x34, 0x35, 0x36, 0x37, 0x38, 0x39] == [0x32, 0x33, 0x34, 0x35, 0x36, 0x37, 0x38, 0x39];
    CheckStep3();
    FirstOctet(Reg(0xB0AC_BB32), 0x33, [0x34, 0x35, 0x36, 0x37, 0x38, 0x39], 0x77B7_9C2D);
    assert [0x33] + [0x34, 0x35, 0x36, 0x37, 0x38, 0x39] == [0x33, 0x34, 0x35, 0x36, 0x37, 0x38, 0x39];
    CheckStep4();
    FirstOctet(Reg(0x77B7_9C2D), 0x34, [0x35, 0x36, 0x37, 0x38, 0x39], 0x641C_1F5C);
    assert [0x34] + [0x35, 0x36, 0x37, 0x38, 0x39] == [0x34, 0x35, 0x36, 0x37, 0x38, 0x39];
    CheckStep5();
    FirstOctet(Reg(0x641C_1F5C), 0x35, [0x36, 0x37, 0x38, 0x39], 0x340A_C5E3);
    assert [0x35] + [0x36, 0x37, 0x38, 0x39] == [0x35, 0x36, 0x37, 0x38, 0x39];
    CheckStep6();
    FirstOctet(Reg(0x340A_C5E3), 0x36, [0x37, 0x38, 0x39], 0xF68D_2C9E);
    assert [0x36] + [0x37, 0x38, 0x39] == [0x36, 0x37, 0x38, 0x39];
    CheckStep7();
    FirstOctet(Reg(0xF68D_2C9E), 0x37, [0x38, 0x39], 0xAFFC_9660);
    assert [0x37] + [0x38, 0x39] == [0x37, 0x38, 0x39];
    CheckStep8();
    FirstOctet(Reg(0xAFFC_9660), 0x38, [0x39], 0x651F_2550);
    assert [0x38] + [0x39] == [0x38, 0x39];
    CheckStep9();
    FirstOctet(Reg(0x651F_2550), 0x39, [], 0x340B_C6D9);
    assert [0x39] + [] == [0x39];
  }
}
