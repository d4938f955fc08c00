/** md5_process of src/cbits/md5sum.c: the 64 steps written out, each setting one of four
    variables that take turns. */
module Md5Process {
  import opened Octets
  import opened Md5Spec

  const T_MASK: bv32 := 0xffff_ffff

  lemma NoSteps(r: nat, st: Regs, x: seq<bv32>)
    requires |x| == 16
    ensures Steps(r, 0, st, x) == st
  {}

  /** A step with the word, rotation and constant the source writes out. */
  lemma NextStep(r: nat, j: nat, st: Regs, x: seq<bv32>, at: Regs, k: nat, s: nat, t: bv32)
    requires |x| == 16 && at == Steps(r, j, st, x)
    requires k == WordIndex(r, j) && s == Shift(r, j) && t == Constant(r, j)
    ensures Steps(r, j + 1, st, x) == Regs(at.d, Set(Mixed(r, at.b, at.c, at.d), at.a, at.b, x[k], s, t), at.b, at.c)
  {}

  /** Round 1 of md5_process, in two halves. */
  method Round1Begin(st: Regs, x: seq<bv32>) returns (r: Regs)
    requires |x| == 16
    ensures r == Steps(0, 8, st, x)
  {
    hide F, Set, Steps, Step, Rot, T2, T3, T4, G, H, I;
    var a, b, c, d := st.a, st.b, st.c, st.d;
    NoSteps(0, st, x);
    NextStep(0, 0, st, x, Regs(a, b, c, d), 0, 7, T_MASK ^ 0x28955b87);
    a := Set(F(b, c, d), a, b, x[0], 7, T_MASK ^ 0x28955b87);
    NextStep(0, 1, st, x, Regs(d, a, b, c), 1, 12, T_MASK ^ 0x173848a9);
    d := Set(F(a, b, c), d, a, x[1], 12, T_MASK ^ 0x173848a9);
    NextStep(0, 2, st, x, Regs(c, d, a, b), 2, 17, 0x242070db);
    c := Set(F(d, a, b), c, d, x[2], 17, 0x242070db);
    NextStep(0, 3, st, x, Regs(b, c, d, a), 3, 22, T_MASK ^ 0x3e423111);
    b := Set(F(c, d, a), b, c, x[3], 22, T_MASK ^ 0x3e423111);
    NextStep(0, 4, st, x, Regs(a, b, c, d), 4, 7, T_MASK ^ 0x0a83f050);
    a := Set(F(b, c, d), a, b, x[4], 7, T_MASK ^ 0x0a83f050);
    NextStep(0, 5, st, x, Regs(d, a, b, c), 5, 12, 0x4787c62a);
    d := Set(F(a, b, c), d, a, x[5], 12, 0x4787c62a);
    NextStep(0, 6, st, x, Regs(c, d, a, b), 6, 17, T_MASK ^ 0x57cfb9ec);
    c := Set(F(d, a, b), c, d, x[6], 17, T_MASK ^ 0x57cfb9ec);
    NextStep(0, 7, st, x, Regs(b, c, d, a), 7, 22, T_MASK ^ 0x02b96afe);
    b := Set(F(c, d, a), b, c, x[7], 22, T_MASK ^ 0x02b96afe);
    r := Regs(a, b, c, d);
  }

  method Round1End(ghost st: Regs, x: seq<bv32>, mid: Regs) returns (r: Regs)
    requires |x| == 16 && mid == Steps(0, 8, st, x)
    ensures r == Steps(0, 16, st, x)
  {
    hide F, Set, Steps, Step, Rot, T2, T3, T4, G, H, I;
    var a, b, c, d := mid.a, mid.b, mid.c, mid.d;
    NextStep(0, 8, st, x, Regs(a, b, c, d), 8, 7, 0x698098d8);
    a := Set(F(b, c, d), a, b, x[8], 7, 0x698098d8);
    NextStep(0, 9, st, x, Regs(d, a, b, c), 9, 12, T_MASK ^ 0x74bb0850);
    d := Set(F(a, b, c), d, a, x[9], 12, T_MASK ^ 0x74bb0850);
    NextStep(0, 10, st, x, Regs(c, d, a, b), 10, 17, T_MASK ^ 0x0000a44e);
    c := Set(F(d, a, b), c, d, x[10], 17, T_MASK ^ 0x0000a44e);
    NextStep(0, 11, st, x, Regs(b, c, d, a), 11, 22, T_MASK ^ 0x76a32841);
    b := Set(F(c, d, a), b, c, x[11], 22, T_MASK ^ 0x76a32841);
    NextStep(0, 12, st, x, Regs(a, b, c, d), 12, 7, 0x6b901122);
    a := Set(F(b, c, d), a, b, x[12], 7, 0x6b901122);
    NextStep(0, 13, st, x, Regs(d, a, b, c), 13, 12, T_MASK ^ 0x02678e6c);
    d := Set(F(a, b, c), d, a, x[13], 12, T_MASK ^ 0x02678e6c);
    NextStep(0, 14, st, x, Regs(c, d, a, b), 14, 17, T_MASK ^ 0x5986bc71);
    c := Set(F(d, a, b), c, d, x[14], 17, T_MASK ^ 0x5986bc71);
    NextStep(0, 15, st, x, Regs(b, c, d, a), 15, 22, 0x49b40821);
    b := Set(F(c, d, a), b, c, x[15], 22, 0x49b40821);
    r := Regs(a, b, c, d);
  }

  /** Round 2 of md5_process, in two halves. */
  method Round2Begin(st: Regs, x: seq<bv32>) returns (r: Regs)
    requires |x| == 16
    ensures r == Steps(1, 8, st, x)
  {
    hide G, Set, Steps, Step, Rot, T1, T3, T4, F, H, I;
    var a, b, c, d := st.a, st.b, st.c, st.d;
    NoSteps(1, st, x);
    NextStep(1, 0, st, x, Regs(a, b, c, d), 1, 5, T_MASK ^ 0x09e1da9d);
    a := Set(G(b, c, d), a, b, x[1], 5, T_MASK ^ 0x09e1da9d);
    NextStep(1, 1, st, x, Regs(d, a, b, c), 6, 9, T_MASK ^ 0x3fbf4cbf);
    d := Set(G(a, b, c), d, a, x[6], 9, T_MASK ^ 0x3fbf4cbf);
    NextStep(1, 2, st, x, Regs(c, d, a, b), 11, 14, 0x265e5a51);
    c := Set(G(d, a, b), c, d, x[11], 14, 0x265e5a51);
    NextStep(1, 3, st, x, Regs(b, c, d, a), 0, 20, T_MASK ^ 0x16493855);
    b := Set(G(c, d, a), b, c, x[0], 20, T_MASK ^ 0x16493855);
    NextStep(1, 4, st, x, Regs(a, b, c, d), 5, 5, T_MASK ^ 0x29d0efa2);
    a := Set(G(b, c, d), a, b, x[5], 5, T_MASK ^ 0x29d0efa2);
    NextStep(1, 5, st, x, Regs(d, a, b, c), 10, 9, 0x02441453);
    d := Set(G(a, b, c), d, a, x[10], 9, 0x02441453);
    NextStep(1, 6, st, x, Regs(c, d, a, b), 15, 14, T_MASK ^ 0x275e197e);
    c := Set(G(d, a, b), c, d, x[15], 14, T_MASK ^ 0x275e197e);
    NextStep(1, 7, st, x, Regs(b, c, d, a), 4, 20, T_MASK ^ 0x182c0437);
    b := Set(G(c, d, a), b, c, x[4], 20, T_MASK ^ 0x182c0437);
    r := Regs(a, b, c, d);
  }

  method Round2End(ghost st: Regs, x: seq<bv32>, mid: Regs) returns (r: Regs)
    requires |x| == 16 && mid == Steps(1, 8, st, x)
    ensures r == Steps(1, 16, st, x)
  {
    hide G, Set, Steps, Step, Rot, T1, T3, T4, F, H, I;
    var a, b, c, d := mid.a, mid.b, mid.c, mid.d;
    NextStep(1, 8, st, x, Regs(a, b, c, d), 9, 5, 0x21e1cde6);
    a := Set(G(b, c, d), a, b, x[9], 5, 0x21e1cde6);
    NextStep(1, 9, st, x, Regs(d, a, b, c), 14, 9, T_MASK ^ 0x3cc8f829);
    d := Set(G(a, b, c), d, a, x[14], 9, T_MASK ^ 0x3cc8f829);
    NextStep(1, 10, st, x, Regs(c, d, a, b), 3, 14, T_MASK ^ 0x0b2af278);
    c := Set(G(d, a, b), c, d, x[3], 14, T_MASK ^ 0x0b2af278);
    NextStep(1, 11, st, x, Regs(b, c, d, a), 8, 20, 0x455a14ed);
    b := Set(G(c, d, a), b, c, x[8], 20, 0x455a14ed);
    NextStep(1, 12, st, x, Regs(a, b, c, d), 13, 5, T_MASK ^ 0x561c16fa);
    a := Set(G(b, c, d), a, b, x[13], 5, T_MASK ^ 0x561c16fa);
    NextStep(1, 13, st, x, Regs(d, a, b, c), 2, 9, T_MASK ^ 0x03105c07);
    d := Set(G(a, b, c), d, a, x[2], 9, T_MASK ^ 0x03105c07);
    NextStep(1, 14, st, x, Regs(c, d, a, b), 7, 14, 0x676f02d9);
    c := Set(G(d, a, b), c, d, x[7], 14, 0x676f02d9);
    NextStep(1, 15, st, x, Regs(b, c, d, a), 12, 20, T_MASK ^ 0x72d5b375);
    b := Set(G(c, d, a), b, c, x[12], 20, T_MASK ^ 0x72d5b375);
    r := Regs(a, b, c, d);
  }

  /** Round 3 of md5_process, in two halves. */
  method Round3Begin(st: Regs, x: seq<bv32>) returns (r: Regs)
    requires |x| == 16
    ensures r == Steps(2, 8, st, x)
  {
    hide H, Set, Steps, Step, Rot, T1, T2, T4, F, G, I;
    var a, b, c, d := st.a, st.b, st.c, st.d;
    NoSteps(2, st, x);
    NextStep(2, 0, st, x, Regs(a, b, c, d), 5, 4, T_MASK ^ 0x0005c6bd);
    a := Set(H(b, c, d), a, b, x[5], 4, T_MASK ^ 0x0005c6bd);
    NextStep(2, 1, st, x, Regs(d, a, b, c), 8, 11, T_MASK ^ 0x788e097e);
    d := Set(H(a, b, c), d, a, x[8], 11, T_MASK ^ 0x788e097e);
    NextStep(2, 2, st, x, Regs(c, d, a, b), 11, 16, 0x6d9d6122);
    c := Set(H(d, a, b), c, d, x[11], 16, 0x6d9d6122);
    NextStep(2, 3, st, x, Regs(b, c, d, a), 14, 23, T_MASK ^ 0x021ac7f3);
    b := Set(H(c, d, a), b, c, x[14], 23, T_MASK ^ 0x021ac7f3);
    NextStep(2, 4, st, x, Regs(a, b, c, d), 1, 4, T_MASK ^ 0x5b4115bb);
    a := Set(H(b, c, d), a, b, x[1], 4, T_MASK ^ 0x5b4115bb);
    NextStep(2, 5, st, x, Regs(d, a, b, c), 4, 11, 0x4bdecfa9);
    d := Set(H(a, b, c), d, a, x[4], 11, 0x4bdecfa9);
    NextStep(2, 6, st, x, Regs(c, d, a, b), 7, 16, T_MASK ^ 0x0944b49f);
    c := Set(H(d, a, b), c, d, x[7], 16, T_MASK ^ 0x0944b49f);
    NextStep(2, 7, st, x, Regs(b, c, d, a), 10, 23, T_MASK ^ 0x4140438f);
    b := Set(H(c, d, a), b, c, x[10], 23, T_MASK ^ 0x4140438f);
    r := Regs(a, b, c, d);
  }

  method Round3End(ghost st: Regs, x: seq<bv32>, mid: Regs) returns (r: Regs)
    requires |x| == 16 && mid == Steps(2, 8, st, x)
    ensures r == Steps(2, 16, st, x)
  {
    hide H, Set, Steps, Step, Rot, T1, T2, T4, F, G, I;
    var a, b, c, d := mid.a, mid.b, mid.c, mid.d;
    NextStep(2, 8, st, x, Regs(a, b, c, d), 13, 4, 0x289b7ec6);
    a := Set(H(b, c, d), a, b, x[13], 4, 0x289b7ec6);
    NextStep(2, 9, st, x, Regs(d, a, b, c), 0, 11, T_MASK ^ 0x155ed805);
    d := Set(H(a, b, c), d, a, x[0], 11, T_MASK ^ 0x155ed805);
    NextStep(2, 10, st, x, Regs(c, d, a, b), 3, 16, T_MASK ^ 0x2b10cf7a);
    c := Set(H(d, a, b), c, d, x[3], 16, T_MASK ^ 0x2b10cf7a);
    NextStep(2, 11, st, x, Regs(b, c, d, a), 6, 23, 0x04881d05);
    b := Set(H(c, d, a), b, c, x[6], 23, 0x04881d05);
    NextStep(2, 12, st, x, Regs(a, b, c, d), 9, 4, T_MASK ^ 0x262b2fc6);
    a := Set(H(b, c, d), a, b, x[9], 4, T_MASK ^ 0x262b2fc6);
    NextStep(2, 13, st, x, Regs(d, a, b, c), 12, 11, T_MASK ^ 0x1924661a);
    d := Set(H(a, b, c), d, a, x[12], 11, T_MASK ^ 0x1924661a);
    NextStep(2, 14, st, x, Regs(c, d, a, b), 15, 16, 0x1fa27cf8);
    c := Set(H(d, a, b), c, d, x[15], 16, 0x1fa27cf8);
    NextStep(2, 15, st, x, Regs(b, c, d, a), 2, 23, T_MASK ^ 0x3b53a99a);
    b := Set(H(c, d, a), b, c, x[2], 23, T_MASK ^ 0x3b53a99a);
    r := Regs(a, b, c, d);
  }

  /** Round 4 of md5_process, in two halves. */
  method Round4Begin(st: Regs, x: seq<bv32>) returns (r: Regs)
    requires |x| == 16
    ensures r == Steps(3, 8, st, x)
  {
    hide I, Set, Steps, Step, Rot, T1, T2, T3, F, G, H;
    var a, b, c, d := st.a, st.b, st.c, st.d;
    NoSteps(3, st, x);
    NextStep(3, 0, st, x, Regs(a, b, c, d), 0, 6, T_MASK ^ 0x0bd6ddbb);
    a := Set(I(b, c, d), a, b, x[0], 6, T_MASK ^ 0x0bd6ddbb);
    NextStep(3, 1, st, x, Regs(d, a, b, c), 7, 10, 0x432aff97);
    d := Set(I(a, b, c), d, a, x[7], 10, 0x432aff97);
    NextStep(3, 2, st, x, Regs(c, d, a, b), 14, 15, T_MASK ^ 0x546bdc58);
    c := Set(I(d, a, b), c, d, x[14], 15, T_MASK ^ 0x546bdc58);
    NextStep(3, 3, st, x, Regs(b, c, d, a), 5, 21, T_MASK ^ 0x036c5fc6);
    b := Set(I(c, d, a), b, c, x[5], 21, T_MASK ^ 0x036c5fc6);
    NextStep(3, 4, st, x, Regs(a, b, c, d), 12, 6, 0x655b59c3);
    a := Set(I(b, c, d), a, b, x[12], 6, 0x655b59c3);
    NextStep(3, 5, st, x, Regs(d, a, b, c), 3, 10, T_MASK ^ 0x70f3336d);
    d := Set(I(a, b, c), d, a, x[3], 10, T_MASK ^ 0x70f3336d);
    NextStep(3, 6, st, x, Regs(c, d, a, b), 10, 15, T_MASK ^ 0x00100b82);
    c := Set(I(d, a, b), c, d, x[10], 15, T_MASK ^ 0x00100b82);
    NextStep(3, 7, st, x, Regs(b, c, d, a), 1, 21, T_MASK ^ 0x7a7ba22e);
    b := Set(I(c, d, a), b, c, x[1], 21, T_MASK ^ 0x7a7ba22e);
    r := Regs(a, b, c, d);
  }

  method Round4End(ghost st: Regs, x: seq<bv32>, mid: Regs) returns (r: Regs)
    requires |x| == 16 && mid == Steps(3, 8, st, x)
    ensures r == Steps(3, 16, st, x)
  {
    hide I, Set, Steps, Step, Rot, T1, T2, T3, F, G, H;
    var a, b, c, d := mid.a, mid.b, mid.c, mid.d;
    NextStep(3, 8, st, x, Regs(a, b, c, d), 8, 6, 0x6fa87e4f);
    a := Set(I(b, c, d), a, b, x[8], 6, 0x6fa87e4f);
    NextStep(3, 9, st, x, Regs(d, a, b, c), 15, 10, T_MASK ^ 0x01d3191f);
    d := Set(I(a, b, c), d, a, x[15], 10, T_MASK ^ 0x01d3191f);
    NextStep(3, 10, st, x, Regs(c, d, a, b), 6, 15, T_MASK ^ 0x5cfebceb);
    c := Set(I(d, a, b), c, d, x[6], 15, T_MASK ^ 0x5cfebceb);
    NextStep(3, 11, st, x, Regs(b, c, d, a), 13, 21, 0x4e0811a1);
    b := Set(I(c, d, a), b, c, x[13], 21, 0x4e0811a1);
    NextStep(3, 12, st, x, Regs(a, b, c, d), 4, 6, T_MASK ^ 0x08ac817d);
    a := Set(I(b, c, d), a, b, x[4], 6, T_MASK ^ 0x08ac817d);
    NextStep(3, 13, st, x, Regs(d, a, b, c), 11, 10, T_MASK ^ 0x42c50dca);
    d := Set(I(a, b, c), d, a, x[11], 10, T_MASK ^ 0x42c50dca);
    NextStep(3, 14, st, x, Regs(c, d, a, b), 2, 15, 0x2ad7d2bb);
    c := Set(I(d, a, b), c, d, x[2], 15, 0x2ad7d2bb);
    NextStep(3, 15, st, x, Regs(b, c, d, a), 9, 21, T_MASK ^ 0x14792c6e);
    b := Set(I(c, d, a), b, c, x[9], 21, T_MASK ^ 0x14792c6e);
    r := Regs(a, b, c, d);
  }

  /** One block: the four rounds, then the registers added to what they were. */
  method Process(st: Regs, block: Bytes) returns (r: Regs)
    requires |block| == 64
    ensures r == Compress(st, block)
  {
    hide Steps, Words;
    var x := Words(block);
    var m := Round1Begin(st, x);
    var r1 := Round1End(st, x, m);
    m := Round2Begin(r1, x);
    var r2 := Round2End(r1, x, m);
    m := Round3Begin(r2, x);
    var r3 := Round3End(r2, x, m);
    m := Round4Begin(r3, x);
    var r4 := Round4End(r3, x, m);
    r := Added(st, r4);
  }
}
