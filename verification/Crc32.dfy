/** The 32-bit cyclic redundancy check of ISO/IEC 13818-1, Annex A (libucsi/crc32.h and crc32.c). */
module Crc32 {
  const CRC32_INIT: bv32 := 0xffff_ffff
  const POLYNOMIAL: bv32 := 0x04c1_1db7

  /** One of four neighbours in the table. */
  function Row(i: bv8, a: bv32, b: bv32, c: bv32, d: bv32): bv32 {
    if i & 2 == 0 then (if i & 1 == 0 then a else b) else (if i & 1 == 0 then c else d)
  }

  /** `crc32tbl` */
  function Table(i: bv8): bv32 {
    if i < 128 then
      if i < 64 then
        if i < 32 then
          if i < 16 then
            if i < 8 then
              if i < 4 then Row(i, 0x0000_0000, 0x04c1_1db7, 0x0982_3b6e, 0x0d43_26d9) else Row(i, 0x1304_76dc, 0x17c5_6b6b, 0x1a86_4db2, 0x1e47_5005)
            else
              if i < 12 then Row(i, 0x2608_edb8, 0x22c9_f00f, 0x2f8a_d6d6, 0x2b4b_cb61) else Row(i, 0x350c_9b64, 0x31cd_86d3, 0x3c8e_a00a, 0x384f_bdbd)
          else
            if i < 24 then
              if i < 20 then Row(i, 0x4c11_db70, 0x48d0_c6c7, 0x4593_e01e, 0x4152_fda9) else Row(i, 0x5f15_adac, 0x5bd4_b01b, 0x5697_96c2, 0x5256_8b75)
            else
              if i < 28 then Row(i, 0x6a19_36c8, 0x6ed8_2b7f, 0x639b_0da6, 0x675a_1011) else Row(i, 0x791d_4014, 0x7ddc_5da3, 0x709f_7b7a, 0x745e_66cd)
        else
          if i < 48 then
            if i < 40 then
              if i < 36 then Row(i, 0x9823_b6e0, 0x9ce2_ab57, 0x91a1_8d8e, 0x9560_9039) else Row(i, 0x8b27_c03c, 0x8fe6_dd8b, 0x82a5_fb52, 0x8664_e6e5)
            else
              if i < 44 then Row(i, 0xbe2b_5b58, 0xbaea_46ef, 0xb7a9_6036, 0xb368_7d81) else Row(i, 0xad2f_2d84, 0xa9ee_3033, 0xa4ad_16ea, 0xa06c_0b5d)
          else
            if i < 56 then
              if i < 52 then Row(i, 0xd432_6d90, 0xd0f3_7027, 0xddb0_56fe, 0xd971_4b49) else Row(i, 0xc736_1b4c, 0xc3f7_06fb, 0xceb4_2022, 0xca75_3d95)
            else
              if i < 60 then Row(i, 0xf23a_8028, 0xf6fb_9d9f, 0xfbb8_bb46, 0xff79_a6f1) else Row(i, 0xe13e_f6f4, 0xe5ff_eb43, 0xe8bc_cd9a, 0xec7d_d02d)
      else
        if i < 96 then
          if i < 80 then
            if i < 72 then
              if i < 68 then Row(i, 0x3486_7077, 0x3047_6dc0, 0x3d04_4b19, 0x39c5_56ae) else Row(i, 0x2782_06ab, 0x2343_1b1c, 0x2e00_3dc5, 0x2ac1_2072)
            else
              if i < 76 then Row(i, 0x128e_9dcf, 0x164f_8078, 0x1b0c_a6a1, 0x1fcd_bb16) else Row(i, 0x018a_eb13, 0x054b_f6a4, 0x0808_d07d, 0x0cc9_cdca)
          else
            if i < 88 then
              if i < 84 then Row(i, 0x7897_ab07, 0x7c56_b6b0, 0x7115_9069, 0x75d4_8dde) else Row(i, 0x6b93_dddb, 0x6f52_c06c, 0x6211_e6b5, 0x66d0_fb02)
            else
              if i < 92 then Row(i, 0x5e9f_46bf, 0x5a5e_5b08, 0x571d_7dd1, 0x53dc_6066) else Row(i, 0x4d9b_3063, 0x495a_2dd4, 0x4419_0b0d, 0x40d8_16ba)
        else
          if i < 112 then
            if i < 104 then
              if i < 100 then Row(i, 0xaca5_c697, 0xa864_db20, 0xa527_fdf9, 0xa1e6_e04e) else Row(i, 0xbfa1_b04b, 0xbb60_adfc, 0xb623_8b25, 0xb2e2_9692)
            else
              if i < 108 then Row(i, 0x8aad_2b2f, 0x8e6c_3698, 0x832f_1041, 0x87ee_0df6) else Row(i, 0x99a9_5df3, 0x9d68_4044, 0x902b_669d, 0x94ea_7b2a)
          else
            if i < 120 then
              if i < 116 then Row(i, 0xe0b4_1de7, 0xe475_0050, 0xe936_2689, 0xedf7_3b3e) else Row(i, 0xf3b0_6b3b, 0xf771_768c, 0xfa32_5055, 0xfef3_4de2)
            else
              if i < 124 then Row(i, 0xc6bc_f05f, 0xc27d_ede8, 0xcf3e_cb31, 0xcbff_d686) else Row(i, 0xd5b8_8683, 0xd179_9b34, 0xdc3a_bded, 0xd8fb_a05a)
    else
      if i < 192 then
        if i < 160 then
          if i < 144 then
            if i < 136 then
              if i < 132 then Row(i, 0x690c_e0ee, 0x6dcd_fd59, 0x608e_db80, 0x644f_c637) else Row(i, 0x7a08_9632, 0x7ec9_8b85, 0x738a_ad5c, 0x774b_b0eb)
            else
              if i < 140 then Row(i, 0x4f04_0d56, 0x4bc5_10e1, 0x4686_3638, 0x4247_2b8f) else Row(i, 0x5c00_7b8a, 0x58c1_663d, 0x5582_40e4, 0x5143_5d53)
          else
            if i < 152 then
              if i < 148 then Row(i, 0x251d_3b9e, 0x21dc_2629, 0x2c9f_00f0, 0x285e_1d47) else Row(i, 0x3619_4d42, 0x32d8_50f5, 0x3f9b_762c, 0x3b5a_6b9b)
            else
              if i < 156 then Row(i, 0x0315_d626, 0x07d4_cb91, 0x0a97_ed48, 0x0e56_f0ff) else Row(i, 0x1011_a0fa, 0x14d0_bd4d, 0x1993_9b94, 0x1d52_8623)
        else
          if i < 176 then
            if i < 168 then
              if i < 164 then Row(i, 0xf12f_560e, 0xf5ee_4bb9, 0xf8ad_6d60, 0xfc6c_70d7) else Row(i, 0xe22b_20d2, 0xe6ea_3d65, 0xeba9_1bbc, 0xef68_060b)
            else
              if i < 172 then Row(i, 0xd727_bbb6, 0xd3e6_a601, 0xdea5_80d8, 0xda64_9d6f) else Row(i, 0xc423_cd6a, 0xc0e2_d0dd, 0xcda1_f604, 0xc960_ebb3)
          else
            if i < 184 then
              if i < 180 then Row(i, 0xbd3e_8d7e, 0xb9ff_90c9, 0xb4bc_b610, 0xb07d_aba7) else Row(i, 0xae3a_fba2, 0xaafb_e615, 0xa7b8_c0cc, 0xa379_dd7b)
            else
              if i < 188 then Row(i, 0x9b36_60c6, 0x9ff7_7d71, 0x92b4_5ba8, 0x9675_461f) else Row(i, 0x8832_161a, 0x8cf3_0bad, 0x81b0_2d74, 0x8571_30c3)
      else
        if i < 224 then
          if i < 208 then
            if i < 200 then
              if i < 196 then Row(i, 0x5d8a_9099, 0x594b_8d2e, 0x5408_abf7, 0x50c9_b640) else Row(i, 0x4e8e_e645, 0x4a4f_fbf2, 0x470c_dd2b, 0x43cd_c09c)
            else
              if i < 204 then Row(i, 0x7b82_7d21, 0x7f43_6096, 0x7200_464f, 0x76c1_5bf8) else Row(i, 0x6886_0bfd, 0x6c47_164a, 0x6104_3093, 0x65c5_2d24)
          else
            if i < 216 then
              if i < 212 then Row(i, 0x119b_4be9, 0x155a_565e, 0x1819_7087, 0x1cd8_6d30) else Row(i, 0x029f_3d35, 0x065e_2082, 0x0b1d_065b, 0x0fdc_1bec)
            else
              if i < 220 then Row(i, 0x3793_a651, 0x3352_bbe6, 0x3e11_9d3f, 0x3ad0_8088) else Row(i, 0x2497_d08d, 0x2056_cd3a, 0x2d15_ebe3, 0x29d4_f654)
        else
          if i < 240 then
            if i < 232 then
              if i < 228 then Row(i, 0xc5a9_2679, 0xc168_3bce, 0xcc2b_1d17, 0xc8ea_00a0) else Row(i, 0xd6ad_50a5, 0xd26c_4d12, 0xdf2f_6bcb, 0xdbee_767c)
            else
              if i < 236 then Row(i, 0xe3a1_cbc1, 0xe760_d676, 0xea23_f0af, 0xeee2_ed18) else Row(i, 0xf0a5_bd1d, 0xf464_a0aa, 0xf927_8673, 0xfde6_9bc4)
          else
            if i < 248 then
              if i < 244 then Row(i, 0x89b8_fd09, 0x8d79_e0be, 0x803a_c667, 0x84fb_dbd0) else Row(i, 0x9abc_8bd5, 0x9e7d_9662, 0x933e_b0bb, 0x97ff_ad0c)
            else
              if i < 252 then Row(i, 0xafb0_10b1, 0xab71_0d06, 0xa632_2bdf, 0xa2f3_3668) else Row(i, 0xbcb4_666d, 0xb875_7bda, 0xb536_5d03, 0xb1f7_40b4)
  }

  /* ---- The shift register ---- */

  predicate Top(x: bv32) { x & 0x8000_0000 != 0 }

  /** The register after one message bit. */
  function Shift(crc: bv32, bit: bool): bv32 {
    if Top(crc) != bit then (crc << 1) ^ POLYNOMIAL else crc << 1
  }

  function ShiftFour(crc: bv32, p0: bool, p1: bool, p2: bool, p3: bool): bv32 {
    Shift(Shift(Shift(Shift(crc, p0), p1), p2), p3)
  }

  /** The register after the bits of one octet, the highest first. */
  function ShiftByte(crc: bv32, b: bv8): bv32 {
    ShiftFour(ShiftFour(crc, b & 0x80 != 0, b & 0x40 != 0, b & 0x20 != 0, b & 0x10 != 0),
              b & 0x08 != 0, b & 0x04 != 0, b & 0x02 != 0, b & 0x01 != 0)
  }

  /** One turn of the loop of `crc32`. */
  function Step(crc: bv32, b: bv8): bv32 {
    (crc << 8) ^ Table(((crc >> 24) & 0xff) as bv8 ^ b)
  }

  /** Every constant of the table is what eight shifts make of its index. */
  lemma TableIsRegister(i: bv8)
    ensures Table(i) == ShiftByte(0, i)
  {
    hide Table, ShiftByte;
    if i < 64 { if i < 32 { FirstRows(i); } else { SecondRows(i); } }
    else if i < 128 { if i < 96 { ThirdRows(i); } else { FourthRows(i); } }
    else if i < 192 { if i < 160 { FifthRows(i); } else { SixthRows(i); } }
    else if i < 224 { SeventhRows(i); } else { LastRows(i); }
  }

  lemma FirstRows(i: bv8)
    requires i < 32
    ensures Table(i) == ShiftByte(0, i)
  {
  }

  lemma SecondRows(i: bv8)
    requires 32 <= i < 64
    ensures Table(i) == ShiftByte(0, i)
  {
  }

  lemma ThirdRows(i: bv8)
    requires 64 <= i < 96
    ensures Table(i) == ShiftByte(0, i)
  {
  }

  lemma FourthRows(i: bv8)
    requires 96 <= i < 128
    ensures Table(i) == ShiftByte(0, i)
  {
  }

  lemma FifthRows(i: bv8)
    requires 128 <= i < 160
    ensures Table(i) == ShiftByte(0, i)
  {
  }

  lemma SixthRows(i: bv8)
    requires 160 <= i < 192
    ensures Table(i) == ShiftByte(0, i)
  {
  }

  lemma SeventhRows(i: bv8)
    requires 192 <= i < 224
    ensures Table(i) == ShiftByte(0, i)
  {
  }

  lemma LastRows(i: bv8)
    requires 224 <= i
    ensures Table(i) == ShiftByte(0, i)
  {
  }

  /* The lemmas below name every intermediate word, which keeps each bit-vector goal small.

     What is in the register already slides out at the top and only decides, bit by bit,
     whether the polynomial is fed back: `c` starts with `y`, and `d` gets the bits of `y` with the message. */

  lemma SlideTop(y: bv32, d: bv32)
    ensures Top(y ^ d) == (Top(y) != Top(d))
  {
  }

  lemma SlideOff(y: bv32, c: bv32, d: bv32, z: bv32, s: bv32, t: bv32)
    requires c == y ^ d && s == c << 1 && t == d << 1 && z == y << 1
    ensures s == z ^ t
  {
  }

  lemma SlideOn(y: bv32, c: bv32, d: bv32, z: bv32, s: bv32, t: bv32)
    requires c == y ^ d && s == (c << 1) ^ POLYNOMIAL && t == (d << 1) ^ POLYNOMIAL && z == y << 1
    ensures s == z ^ t
  {
  }

  lemma Feed(c: bv32, bit: bool, s: bv32)
    requires s == Shift(c, bit)
    ensures s == if Top(c) != bit then (c << 1) ^ POLYNOMIAL else c << 1
  {
  }

  lemma Slide(y: bv32, c: bv32, d: bv32, p: bool, q: bool, z: bv32, s: bv32, t: bv32)
    requires c == y ^ d && s == Shift(c, p) && t == Shift(d, q) && z == y << 1
    requires q == (p != Top(y)) && Top(c) == (Top(y) != Top(d))
    ensures s == z ^ t
  {
    Feed(c, p, s);
    Feed(d, q, t);
    if Top(c) != p {
      SlideOn(y, c, d, z, s, t);
    } else {
      SlideOff(y, c, d, z, s, t);
    }
  }

  lemma Turn(y: bv32, c: bv32, d: bv32, p: bool, q: bool, z: bv32, s: bv32, t: bv32)
    requires c == y ^ d && s == Shift(c, p) && t == Shift(d, q) && z == y << 1
    requires q == (p != Top(y))
    ensures s == z ^ t
  {
    SlideTop(y, d);
    Slide(y, c, d, p, q, z, s, t);
  }

  lemma FourTurns(y0: bv32, y1: bv32, y2: bv32, y3: bv32, y4: bv32, c0: bv32, c4: bv32, d0: bv32, d4: bv32,
                  p0: bool, p1: bool, p2: bool, p3: bool, q0: bool, q1: bool, q2: bool, q3: bool)
    requires c0 == y0 ^ d0
    requires y1 == y0 << 1 && y2 == y1 << 1 && y3 == y2 << 1 && y4 == y3 << 1
    requires c4 == ShiftFour(c0, p0, p1, p2, p3) && d4 == ShiftFour(d0, q0, q1, q2, q3)
    requires q0 == (p0 != Top(y0)) && q1 == (p1 != Top(y1)) && q2 == (p2 != Top(y2)) && q3 == (p3 != Top(y3))
    ensures c4 == y4 ^ d4
  {
    var c1, d1 := Shift(c0, p0), Shift(d0, q0);
    var c2, d2 := Shift(c1, p1), Shift(d1, q1);
    var c3, d3 := Shift(c2, p2), Shift(d2, q2);
    Turn(y0, c0, d0, p0, q0, y1, c1, d1);
    Turn(y1, c1, d1, p1, q1, y2, c2, d2);
    Turn(y2, c2, d2, p2, q2, y3, c3, d3);
    Turn(y3, c3, d3, p3, q3, y4, c4, d4);
  }

  lemma Doublings(y0: bv32, y1: bv32, y2: bv32, y3: bv32, y4: bv32, y5: bv32, y6: bv32, y7: bv32, y8: bv32)
    requires y1 == y0 << 1 && y2 == y1 << 1 && y3 == y2 << 1 && y4 == y3 << 1
    requires y5 == y4 << 1 && y6 == y5 << 1 && y7 == y6 << 1 && y8 == y0 << 8
    ensures y8 == y7 << 1
  {
  }

  lemma TopBits(y0: bv32, y1: bv32, y2: bv32, y3: bv32, y4: bv32, y5: bv32, y6: bv32, y7: bv32, b: bv8, x: bv8)
    requires y1 == y0 << 1 && y2 == y1 << 1 && y3 == y2 << 1 && y4 == y3 << 1
    requires y5 == y4 << 1 && y6 == y5 << 1 && y7 == y6 << 1
    requires x == ((y0 >> 24) & 0xff) as bv8 ^ b
    ensures (x & 0x80 != 0) == ((b & 0x80 != 0) != Top(y0)) && (x & 0x40 != 0) == ((b & 0x40 != 0) != Top(y1))
    ensures (x & 0x20 != 0) == ((b & 0x20 != 0) != Top(y2)) && (x & 0x10 != 0) == ((b & 0x10 != 0) != Top(y3))
    ensures (x & 0x08 != 0) == ((b & 0x08 != 0) != Top(y4)) && (x & 0x04 != 0) == ((b & 0x04 != 0) != Top(y5))
    ensures (x & 0x02 != 0) == ((b & 0x02 != 0) != Top(y6)) && (x & 0x01 != 0) == ((b & 0x01 != 0) != Top(y7))
  {
  }

  lemma EightTurns(y0: bv32, y1: bv32, y2: bv32, y3: bv32, y4: bv32, y5: bv32, y6: bv32, y7: bv32, y8: bv32,
                   c0: bv32, d0: bv32, c8: bv32, d8: bv32,
                   p0: bool, p1: bool, p2: bool, p3: bool, p4: bool, p5: bool, p6: bool, p7: bool,
                   q0: bool, q1: bool, q2: bool, q3: bool, q4: bool, q5: bool, q6: bool, q7: bool)
    requires c0 == y0 ^ d0
    requires y1 == y0 << 1 && y2 == y1 << 1 && y3 == y2 << 1 && y4 == y3 << 1
    requires y5 == y4 << 1 && y6 == y5 << 1 && y7 == y6 << 1 && y8 == y7 << 1
    requires q0 == (p0 != Top(y0)) && q1 == (p1 != Top(y1)) && q2 == (p2 != Top(y2)) && q3 == (p3 != Top(y3))
    requires q4 == (p4 != Top(y4)) && q5 == (p5 != Top(y5)) && q6 == (p6 != Top(y6)) && q7 == (p7 != Top(y7))
    requires c8 == ShiftFour(ShiftFour(c0, p0, p1, p2, p3), p4, p5, p6, p7)
    requires d8 == ShiftFour(ShiftFour(d0, q0, q1, q2, q3), q4, q5, q6, q7)
    ensures c8 == y8 ^ d8
  {
    var c4, d4 := ShiftFour(c0, p0, p1, p2, p3), ShiftFour(d0, q0, q1, q2, q3);
    FourTurns(y0, y1, y2, y3, y4, c0, c4, d0, d4, p0, p1, p2, p3, q0, q1, q2, q3);
    FourTurns(y4, y5, y6, y7, y8, c4, c8, d4, d8, p4, p5, p6, p7, q4, q5, q6, q7);
  }

  lemma UnfoldByte(c0: bv32, b: bv8, c8: bv32,
                   p0: bool, p1: bool, p2: bool, p3: bool, p4: bool, p5: bool, p6: bool, p7: bool)
    requires c8 == ShiftByte(c0, b)
    requires p0 == (b & 0x80 != 0) && p1 == (b & 0x40 != 0) && p2 == (b & 0x20 != 0) && p3 == (b & 0x10 != 0)
    requires p4 == (b & 0x08 != 0) && p5 == (b & 0x04 != 0) && p6 == (b & 0x02 != 0) && p7 == (b & 0x01 != 0)
    ensures c8 == ShiftFour(ShiftFour(c0, p0, p1, p2, p3), p4, p5, p6, p7)
  {
  }

  /** The same for the bits of an octet: `c` starts as the sum of `y` and `d`. */
  lemma OctetTurns(y0: bv32, y1: bv32, y2: bv32, y3: bv32, y4: bv32, y5: bv32, y6: bv32, y7: bv32, y8: bv32,
                   c0: bv32, d0: bv32, b: bv8, x: bv8, c8: bv32, d8: bv32,
                   p0: bool, p1: bool, p2: bool, p3: bool, p4: bool, p5: bool, p6: bool, p7: bool,
                   q0: bool, q1: bool, q2: bool, q3: bool, q4: bool, q5: bool, q6: bool, q7: bool)
    requires y1 == y0 << 1 && y2 == y1 << 1 && y3 == y2 << 1 && y4 == y3 << 1
    requires y5 == y4 << 1 && y6 == y5 << 1 && y7 == y6 << 1 && y8 == y7 << 1
    requires p0 == (b & 0x80 != 0) && p1 == (b & 0x40 != 0) && p2 == (b & 0x20 != 0) && p3 == (b & 0x10 != 0)
    requires p4 == (b & 0x08 != 0) && p5 == (b & 0x04 != 0) && p6 == (b & 0x02 != 0) && p7 == (b & 0x01 != 0)
    requires q0 == (x & 0x80 != 0) && q1 == (x & 0x40 != 0) && q2 == (x & 0x20 != 0) && q3 == (x & 0x10 != 0)
    requires q4 == (x & 0x08 != 0) && q5 == (x & 0x04 != 0) && q6 == (x & 0x02 != 0) && q7 == (x & 0x01 != 0)
    requires x == ((y0 >> 24) & 0xff) as bv8 ^ b
    requires c0 == y0 ^ d0 && c8 == ShiftByte(c0, b) && d8 == ShiftByte(d0, x)
    ensures c8 == y8 ^ d8
  {
    TopBits(y0, y1, y2, y3, y4, y5, y6, y7, b, x);
    UnfoldByte(c0, b, c8, p0, p1, p2, p3, p4, p5, p6, p7);
    UnfoldByte(d0, x, d8, q0, q1, q2, q3, q4, q5, q6, q7);
    EightTurns(y0, y1, y2, y3, y4, y5, y6, y7, y8, c0, d0, c8, d8,
               p0, p1, p2, p3, p4, p5, p6, p7, q0, q1, q2, q3, q4, q5, q6, q7);
  }

  lemma OctetSplits(crc: bv32, b: bv8, x: bv8, d0: bv32, c8: bv32, d8: bv32, z: bv32,
                    y1: bv32, y2: bv32, y3: bv32, y4: bv32, y5: bv32, y6: bv32, y7: bv32)
    requires x == ((crc >> 24) & 0xff) as bv8 ^ b && d0 == 0 && z == crc << 8
    requires y1 == crc << 1 && y2 == y1 << 1 && y3 == y2 << 1 && y4 == y3 << 1
    requires y5 == y4 << 1 && y6 == y5 << 1 && y7 == y6 << 1
    requires c8 == ShiftByte(crc, b) && d8 == ShiftByte(d0, x)
    ensures c8 == z ^ d8
  {
    Doublings(crc, y1, y2, y3, y4, y5, y6, y7, z);
    OctetTurns(crc, y1, y2, y3, y4, y5, y6, y7, z, crc, d0, b, x, c8, d8,
               b & 0x80 != 0, b & 0x40 != 0, b & 0x20 != 0, b & 0x10 != 0,
               b & 0x08 != 0, b & 0x04 != 0, b & 0x02 != 0, b & 0x01 != 0,
               x & 0x80 != 0, x & 0x40 != 0, x & 0x20 != 0, x & 0x10 != 0,
               x & 0x08 != 0, x & 0x04 != 0, x & 0x02 != 0, x & 0x01 != 0);
  }

  /** All that eight shifts leave is the register shifted up, and what its top octet and the message leave in an
      empty register. */
  lemma RegisterSplits(crc: bv32, b: bv8, x: bv8, z: bv32, c8: bv32, d8: bv32)
    requires x == ((crc >> 24) & 0xff) as bv8 ^ b && z == crc << 8
    requires c8 == ShiftByte(crc, b) && d8 == ShiftByte(0, x)
    ensures c8 == z ^ d8
  {
    hide ShiftByte;
    var y1 := crc << 1; var y2 := y1 << 1; var y3 := y2 << 1; var y4 := y3 << 1;
    var y5 := y4 << 1; var y6 := y5 << 1; var y7 := y6 << 1;
    OctetSplits(crc, b, x, 0, c8, d8, z, y1, y2, y3, y4, y5, y6, y7);
  }

  /** A turn of the loop, its table entry named. */
  lemma StepLooksUp(crc: bv32, b: bv8, x: bv8, entry: bv32, z: bv32, c8: bv32)
    requires x == ((crc >> 24) & 0xff) as bv8 ^ b && z == crc << 8
    requires entry == Table(x) && c8 == Step(crc, b)
    ensures c8 == z ^ entry
  {
  }

  lemma StepSame(crc: bv32, b: bv8, x: bv8, entry: bv32, z: bv32, c8: bv32, st: bv32)
    requires x == ((crc >> 24) & 0xff) as bv8 ^ b && z == crc << 8
    requires entry == Table(x) && entry == ShiftByte(0, x) && c8 == ShiftByte(crc, b) && st == Step(crc, b)
    ensures st == c8
  {
    hide Table, Step, ShiftByte;
    StepLooksUp(crc, b, x, entry, z, st);
    RegisterSplits(crc, b, x, z, c8, entry);
  }

  /** A turn of the table loop is eight shifts of the register. */
  lemma StepIsRegister(crc: bv32, b: bv8)
    ensures Step(crc, b) == ShiftByte(crc, b)
  {
    var x := ((crc >> 24) & 0xff) as bv8 ^ b;
    TableIsRegister(x);
    StepSame(crc, b, x, Table(x), crc << 8, ShiftByte(crc, b), Step(crc, b));
  }

  /* ---- Whole messages ---- */

  /** `crc32` over a message, from any start value. */
  function Crc(crc: bv32, msg: seq<bv8>): bv32
    decreases |msg|
  {
    if msg == [] then crc else Step(Crc(crc, msg[..|msg| - 1]), msg[|msg| - 1])
  }

  /** The shift register fed with the message bit by bit. */
  function Register(crc: bv32, msg: seq<bv8>): bv32
    decreases |msg|
  {
    if msg == [] then crc else ShiftByte(Register(crc, msg[..|msg| - 1]), msg[|msg| - 1])
  }

  /** The table loop over an array. */
  method Crc32(start: bv32, buf: array<bv8>, len: nat) returns (crc: bv32)
    requires len <= buf.Length
    ensures crc == Crc(start, buf[..len])
  {
    crc := start;
    var i := 0;
    while i < len
      invariant i <= len && crc == Crc(start, buf[..i])
    {
      crc := Step(crc, buf[i]);
      i := i + 1;
      assert buf[..i][..i - 1] == buf[..i - 1];
    }
  }

  lemma {:induction false} CrcAppend(crc: bv32, a: seq<bv8>, b: seq<bv8>)
    ensures Crc(crc, a + b) == Crc(Crc(crc, a), b)
    decreases |b|
  {
    hide Step;
    if b == [] {
      assert a + b == a;
    } else {
      CrcAppend(crc, a, b[..|b| - 1]);
      assert (a + b)[..|a + b| - 1] == a + b[..|b| - 1];
    }
  }

  /** The table loop is the shift register, for every start value and every message. */
  lemma {:induction false} CrcIsRegister(crc: bv32, msg: seq<bv8>)
    ensures Crc(crc, msg) == Register(crc, msg)
    decreases |msg|
  {
    if msg != [] {
      CrcIsRegister(crc, msg[..|msg| - 1]);
      StepIsRegister(Crc(crc, msg[..|msg| - 1]), msg[|msg| - 1]);
    }
  }
}
