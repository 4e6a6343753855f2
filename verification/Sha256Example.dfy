/**
 * A known answer: the digest of "abc" (section 8.5 of RFC 6234), followed word
 * by word and round by round, so that every constant, rotation and order of the
 * definition counts.
 */
module Sha256Example {
  import opened Bytes
  import opened Sha256

  const ABC: bytes := [97, 98, 99]

  // Every lemma of these follows from the words, or the variables, before it.

  lemma BlockIs()
    ensures IsBlock(Padded(ABC)) && Padded(ABC) == ABC + [0x80] + Zeros(52) + [0, 0, 0, 0, 0, 0, 0, 24]
  {
    hide ByteOf;
    LengthIs();
    assert BigEndian64(24) == [0, 0, 0, 0, 0, 0, 0, 24];
  }

  lemma LengthIs()
    ensures ByteOf(24, 0) == 24 && forall k :: 1 <= k < 8 ==> ByteOf(24, k) == 0
  {
    forall k | 1 <= k < 8 ensures ByteOf(24, k) == 0 { ZeroHigh(k); }
  }

  lemma ZeroHigh(k: nat)
    requires k >= 1
    ensures ShiftBytes(24, k) == 0
  {
    NoneLeft(k - 1);
  }

  lemma {:induction false} NoneLeft(k: nat)
    ensures ShiftBytes(0, k) == 0
  {
    if k > 0 { NoneLeft(k - 1); }
  }

  lemma FirstWords(m: bytes)
    requires IsBlock(m) && m == ABC + [0x80] + Zeros(52) + [0, 0, 0, 0, 0, 0, 0, 24]
    ensures Schedule(m, 0) == 0x61626380 && Schedule(m, 15) == 0x00000018 && forall t :: 0 < t < 15 ==> Schedule(m, t) == 0
  {
    hide Schedule, BigEndian, Zeros;
    BigEndianIs();
    ZerosAre(52);
    ScheduleStart(m, 0);
    ScheduleStart(m, 15);
    forall t | 0 < t < 15 ensures Schedule(m, t) == 0 {
      ScheduleStart(m, t);
      assert m[4 * t] == m[4 * t + 1] == m[4 * t + 2] == m[4 * t + 3] == 0;
    }
  }

  lemma ZerosAre(n: nat)
    ensures |Zeros(n)| == n && forall i :: 0 <= i < n ==> Zeros(n)[i] == 0
  {
  }

  lemma BigEndianIs()
    ensures BigEndian(0, 0, 0, 0) == 0 && BigEndian(0, 0, 0, 24) == 24 && BigEndian(97, 98, 99, 128) == 0x61626380
  {
  }

  lemma Words16(m: bytes)
    requires IsBlock(m)
    requires Schedule(m, 0) == 0x61626380 && Schedule(m, 1) == 0x00000000 && Schedule(m, 2) == 0x00000000 && Schedule(m, 3) == 0x00000000
    requires Schedule(m, 4) == 0x00000000 && Schedule(m, 5) == 0x00000000 && Schedule(m, 6) == 0x00000000 && Schedule(m, 7) == 0x00000000
    requires Schedule(m, 8) == 0x00000000 && Schedule(m, 9) == 0x00000000 && Schedule(m, 10) == 0x00000000 && Schedule(m, 11) == 0x00000000
    requires Schedule(m, 12) == 0x00000000 && Schedule(m, 13) == 0x00000000 && Schedule(m, 14) == 0x00000000 && Schedule(m, 15) == 0x00000018
    ensures Schedule(m, 16) == 0x61626380 && Schedule(m, 17) == 0x000f0000 && Schedule(m, 18) == 0x7da86405 && Schedule(m, 19) == 0x600003c6
    ensures Schedule(m, 20) == 0x3e9d7b78 && Schedule(m, 21) == 0x0183fc00 && Schedule(m, 22) == 0x12dcbfdb && Schedule(m, 23) == 0xe2e2c38e
  {
    hide Schedule;
    ScheduleStep(m, 16);
    ScheduleStep(m, 17);
    ScheduleStep(m, 18);
    ScheduleStep(m, 19);
    ScheduleStep(m, 20);
    ScheduleStep(m, 21);
    ScheduleStep(m, 22);
    ScheduleStep(m, 23);
  }

  lemma Words24(m: bytes)
    requires IsBlock(m)
    requires Schedule(m, 8) == 0x00000000 && Schedule(m, 9) == 0x00000000 && Schedule(m, 10) == 0x00000000 && Schedule(m, 11) == 0x00000000
    requires Schedule(m, 12) == 0x00000000 && Schedule(m, 13) == 0x00000000 && Schedule(m, 14) == 0x00000000 && Schedule(m, 15) == 0x00000018
    requires Schedule(m, 16) == 0x61626380 && Schedule(m, 17) == 0x000f0000 && Schedule(m, 18) == 0x7da86405 && Schedule(m, 19) == 0x600003c6
    requires Schedule(m, 20) == 0x3e9d7b78 && Schedule(m, 21) == 0x0183fc00 && Schedule(m, 22) == 0x12dcbfdb && Schedule(m, 23) == 0xe2e2c38e
    ensures Schedule(m, 24) == 0xc8215c1a && Schedule(m, 25) == 0xb73679a2 && Schedule(m, 26) == 0xe5bc3909 && Schedule(m, 27) == 0x32663c5b
    ensures Schedule(m, 28) == 0x9d209d67 && Schedule(m, 29) == 0xec8726cb && Schedule(m, 30) == 0x702138a4 && Schedule(m, 31) == 0xd3b7973b
  {
    hide Schedule;
    ScheduleStep(m, 24);
    ScheduleStep(m, 25);
    ScheduleStep(m, 26);
    ScheduleStep(m, 27);
    ScheduleStep(m, 28);
    ScheduleStep(m, 29);
    ScheduleStep(m, 30);
    ScheduleStep(m, 31);
  }

  lemma Words32(m: bytes)
    requires IsBlock(m)
    requires Schedule(m, 16) == 0x61626380 && Schedule(m, 17) == 0x000f0000 && Schedule(m, 18) == 0x7da86405 && Schedule(m, 19) == 0x600003c6
    requires Schedule(m, 20) == 0x3e9d7b78 && Schedule(m, 21) == 0x0183fc00 && Schedule(m, 22) == 0x12dcbfdb && Schedule(m, 23) == 0xe2e2c38e
    requires Schedule(m, 24) == 0xc8215c1a && Schedule(m, 25) == 0xb73679a2 && Schedule(m, 26) == 0xe5bc3909 && Schedule(m, 27) == 0x32663c5b
    requires Schedule(m, 28) == 0x9d209d67 && Schedule(m, 29) == 0xec8726cb && Schedule(m, 30) == 0x702138a4 && Schedule(m, 31) == 0xd3b7973b
    ensures Schedule(m, 32) == 0x93f5997f && Schedule(m, 33) == 0x3b68ba73 && Schedule(m, 34) == 0xaff4ffc1 && Schedule(m, 35) == 0xf10a5c62
    ensures Schedule(m, 36) == 0x0a8b3996 && Schedule(m, 37) == 0x72af830a && Schedule(m, 38) == 0x9409e33e && Schedule(m, 39) == 0x24641522
  {
    hide Schedule;
    ScheduleStep(m, 32);
    ScheduleStep(m, 33);
    ScheduleStep(m, 34);
    ScheduleStep(m, 35);
    ScheduleStep(m, 36);
    ScheduleStep(m, 37);
    ScheduleStep(m, 38);
    ScheduleStep(m, 39);
  }

  lemma Words40(m: bytes)
    requires IsBlock(m)
    requires Schedule(m, 24) == 0xc8215c1a && Schedule(m, 25) == 0xb73679a2 && Schedule(m, 26) == 0xe5bc3909 && Schedule(m, 27) == 0x32663c5b
    requires Schedule(m, 28) == 0x9d209d67 && Schedule(m, 29) == 0xec8726cb && Schedule(m, 30) == 0x702138a4 && Schedule(m, 31) == 0xd3b7973b
    requires Schedule(m, 32) == 0x93f5997f && Schedule(m, 33) == 0x3b68ba73 && Schedule(m, 34) == 0xaff4ffc1 && Schedule(m, 35) == 0xf10a5c62
    requires Schedule(m, 36) == 0x0a8b3996 && Schedule(m, 37) == 0x72af830a && Schedule(m, 38) == 0x9409e33e && Schedule(m, 39) == 0x24641522
    ensures Schedule(m, 40) == 0x9f47bf94 && Schedule(m, 41) == 0xf0a64f5a && Schedule(m, 42) == 0x3e246a79 && Schedule(m, 43) == 0x27333ba3
    ensures Schedule(m, 44) == 0x0c4763f2 && Schedule(m, 45) == 0x840abf27 && Schedule(m, 46) == 0x7a290d5d && Schedule(m, 47) == 0x065c43da
  {
    hide Schedule;
    ScheduleStep(m, 40);
    ScheduleStep(m, 41);
    ScheduleStep(m, 42);
    ScheduleStep(m, 43);
    ScheduleStep(m, 44);
    ScheduleStep(m, 45);
    ScheduleStep(m, 46);
    ScheduleStep(m, 47);
  }

  lemma Words48(m: bytes)
    requires IsBlock(m)
    requires Schedule(m, 32) == 0x93f5997f && Schedule(m, 33) == 0x3b68ba73 && Schedule(m, 34) == 0xaff4ffc1 && Schedule(m, 35) == 0xf10a5c62
    requires Schedule(m, 36) == 0x0a8b3996 && Schedule(m, 37) == 0x72af830a && Schedule(m, 38) == 0x9409e33e && Schedule(m, 39) == 0x24641522
    requires Schedule(m, 40) == 0x9f47bf94 && Schedule(m, 41) == 0xf0a64f5a && Schedule(m, 42) == 0x3e246a79 && Schedule(m, 43) == 0x27333ba3
    requires Schedule(m, 44) == 0x0c4763f2 && Schedule(m, 45) == 0x840abf27 && Schedule(m, 46) == 0x7a290d5d && Schedule(m, 47) == 0x065c43da
    ensures Schedule(m, 48) == 0xfb3e89cb && Schedule(m, 49) == 0xcc7617db && Schedule(m, 50) == 0xb9e66c34 && Schedule(m, 51) == 0xa9993667
    ensures Schedule(m, 52) == 0x84badedd && Schedule(m, 53) == 0xc21462bc && Schedule(m, 54) == 0x1487472c && Schedule(m, 55) == 0xb20f7a99
  {
    hide Schedule;
    ScheduleStep(m, 48);
    ScheduleStep(m, 49);
    ScheduleStep(m, 50);
    ScheduleStep(m, 51);
    ScheduleStep(m, 52);
    ScheduleStep(m, 53);
    ScheduleStep(m, 54);
    ScheduleStep(m, 55);
  }

  lemma Words56(m: bytes)
    requires IsBlock(m)
    requires Schedule(m, 40) == 0x9f47bf94 && Schedule(m, 41) == 0xf0a64f5a && Schedule(m, 42) == 0x3e246a79 && Schedule(m, 43) == 0x27333ba3
    requires Schedule(m, 44) == 0x0c4763f2 && Schedule(m, 45) == 0x840abf27 && Schedule(m, 46) == 0x7a290d5d && Schedule(m, 47) == 0x065c43da
    requires Schedule(m, 48) == 0xfb3e89cb && Schedule(m, 49) == 0xcc7617db && Schedule(m, 50) == 0xb9e66c34 && Schedule(m, 51) == 0xa9993667
    requires Schedule(m, 52) == 0x84badedd && Schedule(m, 53) == 0xc21462bc && Schedule(m, 54) == 0x1487472c && Schedule(m, 55) == 0xb20f7a99
    ensures Schedule(m, 56) == 0xef57b9cd && Schedule(m, 57) == 0xebe6b238 && Schedule(m, 58) == 0x9fe3095e && Schedule(m, 59) == 0x78bc8d4b
    ensures Schedule(m, 60) == 0xa43fcf15 && Schedule(m, 61) == 0x668b2ff8 && Schedule(m, 62) == 0xeeaba2cc && Schedule(m, 63) == 0x12b1edeb
  {
    hide Schedule;
    ScheduleStep(m, 56);
    ScheduleStep(m, 57);
    ScheduleStep(m, 58);
    ScheduleStep(m, 59);
    ScheduleStep(m, 60);
    ScheduleStep(m, 61);
    ScheduleStep(m, 62);
    ScheduleStep(m, 63);
  }

  lemma Keys0()
    ensures KAt(0) == 0x428a2f98 && KAt(1) == 0x71374491 && KAt(2) == 0xb5c0fbcf && KAt(3) == 0xe9b5dba5
    ensures KAt(4) == 0x3956c25b && KAt(5) == 0x59f111f1 && KAt(6) == 0x923f82a4 && KAt(7) == 0xab1c5ed5
  {
  }

  lemma Keys8()
    ensures KAt(8) == 0xd807aa98 && KAt(9) == 0x12835b01 && KAt(10) == 0x243185be && KAt(11) == 0x550c7dc3
    ensures KAt(12) == 0x72be5d74 && KAt(13) == 0x80deb1fe && KAt(14) == 0x9bdc06a7 && KAt(15) == 0xc19bf174
  {
  }

  lemma Keys16()
    ensures KAt(16) == 0xe49b69c1 && KAt(17) == 0xefbe4786 && KAt(18) == 0x0fc19dc6 && KAt(19) == 0x240ca1cc
    ensures KAt(20) == 0x2de92c6f && KAt(21) == 0x4a7484aa && KAt(22) == 0x5cb0a9dc && KAt(23) == 0x76f988da
  {
  }

  lemma Keys24()
    ensures KAt(24) == 0x983e5152 && KAt(25) == 0xa831c66d && KAt(26) == 0xb00327c8 && KAt(27) == 0xbf597fc7
    ensures KAt(28) == 0xc6e00bf3 && KAt(29) == 0xd5a79147 && KAt(30) == 0x06ca6351 && KAt(31) == 0x14292967
  {
  }

  lemma Keys32()
    ensures KAt(32) == 0x27b70a85 && KAt(33) == 0x2e1b2138 && KAt(34) == 0x4d2c6dfc && KAt(35) == 0x53380d13
    ensures KAt(36) == 0x650a7354 && KAt(37) == 0x766a0abb && KAt(38) == 0x81c2c92e && KAt(39) == 0x92722c85
  {
  }

  lemma Keys40()
    ensures KAt(40) == 0xa2bfe8a1 && KAt(41) == 0xa81a664b && KAt(42) == 0xc24b8b70 && KAt(43) == 0xc76c51a3
    ensures KAt(44) == 0xd192e819 && KAt(45) == 0xd6990624 && KAt(46) == 0xf40e3585 && KAt(47) == 0x106aa070
  {
  }

  lemma Keys48()
    ensures KAt(48) == 0x19a4c116 && KAt(49) == 0x1e376c08 && KAt(50) == 0x2748774c && KAt(51) == 0x34b0bcb5
    ensures KAt(52) == 0x391c0cb3 && KAt(53) == 0x4ed8aa4a && KAt(54) == 0x5b9cca4f && KAt(55) == 0x682e6ff3
  {
  }

  lemma Keys56()
    ensures KAt(56) == 0x748f82ee && KAt(57) == 0x78a5636f && KAt(58) == 0x84c87814 && KAt(59) == 0x8cc70208
    ensures KAt(60) == 0x90befffa && KAt(61) == 0xa4506ceb && KAt(62) == 0xbef9a3f7 && KAt(63) == 0xc67178f2
  {
  }

  lemma Rounds0(m: bytes, v: Vars)
    requires IsBlock(m)
    requires Schedule(m, 0) == 0x61626380 && Schedule(m, 1) == 0x00000000 && Schedule(m, 2) == 0x00000000 && Schedule(m, 3) == 0x00000000
    requires Schedule(m, 4) == 0x00000000 && Schedule(m, 5) == 0x00000000 && Schedule(m, 6) == 0x00000000 && Schedule(m, 7) == 0x00000000
    requires Rounds(v, m, 0) == Vars(0x6a09e667, 0xbb67ae85, 0x3c6ef372, 0xa54ff53a, 0x510e527f, 0x9b05688c, 0x1f83d9ab, 0x5be0cd19)
    ensures Rounds(v, m, 8) == Vars(0x85a07b5f, 0xe5030380, 0x2b4209f5, 0x04409a6a, 0x0c657a79, 0x9b27a401, 0x714260ad, 0x43ada245)
  {
    hide Rounds, Schedule, KAt;
    Keys0();
    RoundsStep(v, m, 0);
    assert Rounds(v, m, 1) == Vars(0x5d6aebcd, 0x6a09e667, 0xbb67ae85, 0x3c6ef372, 0xfa2a4622, 0x510e527f, 0x9b05688c, 0x1f83d9ab);
    RoundsStep(v, m, 1);
    assert Rounds(v, m, 2) == Vars(0x5a6ad9ad, 0x5d6aebcd, 0x6a09e667, 0xbb67ae85, 0x78ce7989, 0xfa2a4622, 0x510e527f, 0x9b05688c);
    RoundsStep(v, m, 2);
    assert Rounds(v, m, 3) == Vars(0xc8c347a7, 0x5a6ad9ad, 0x5d6aebcd, 0x6a09e667, 0xf92939eb, 0x78ce7989, 0xfa2a4622, 0x510e527f);
    RoundsStep(v, m, 3);
    assert Rounds(v, m, 4) == Vars(0xd550f666, 0xc8c347a7, 0x5a6ad9ad, 0x5d6aebcd, 0x24e00850, 0xf92939eb, 0x78ce7989, 0xfa2a4622);
    RoundsStep(v, m, 4);
    assert Rounds(v, m, 5) == Vars(0x04409a6a, 0xd550f666, 0xc8c347a7, 0x5a6ad9ad, 0x43ada245, 0x24e00850, 0xf92939eb, 0x78ce7989);
    RoundsStep(v, m, 5);
    assert Rounds(v, m, 6) == Vars(0x2b4209f5, 0x04409a6a, 0xd550f666, 0xc8c347a7, 0x714260ad, 0x43ada245, 0x24e00850, 0xf92939eb);
    RoundsStep(v, m, 6);
    assert Rounds(v, m, 7) == Vars(0xe5030380, 0x2b4209f5, 0x04409a6a, 0xd550f666, 0x9b27a401, 0x714260ad, 0x43ada245, 0x24e00850);
    RoundsStep(v, m, 7);
  }

  lemma Rounds8(m: bytes, v: Vars)
    requires IsBlock(m)
    requires Schedule(m, 8) == 0x00000000 && Schedule(m, 9) == 0x00000000 && Schedule(m, 10) == 0x00000000 && Schedule(m, 11) == 0x00000000
    requires Schedule(m, 12) == 0x00000000 && Schedule(m, 13) == 0x00000000 && Schedule(m, 14) == 0x00000000 && Schedule(m, 15) == 0x00000018
    requires Rounds(v, m, 8) == Vars(0x85a07b5f, 0xe5030380, 0x2b4209f5, 0x04409a6a, 0x0c657a79, 0x9b27a401, 0x714260ad, 0x43ada245)
    ensures Rounds(v, m, 16) == Vars(0xb0fa238e, 0xc0645fde, 0xd932eb16, 0x87912990, 0x07590dcd, 0x0b92f20c, 0x745a48de, 0x1e578218)
  {
    hide Rounds, Schedule, KAt;
    Keys8();
    RoundsStep(v, m, 8);
    assert Rounds(v, m, 9) == Vars(0x8e04ecb9, 0x85a07b5f, 0xe5030380, 0x2b4209f5, 0x32ca2d8c, 0x0c657a79, 0x9b27a401, 0x714260ad);
    RoundsStep(v, m, 9);
    assert Rounds(v, m, 10) == Vars(0x8c87346b, 0x8e04ecb9, 0x85a07b5f, 0xe5030380, 0x1cc92596, 0x32ca2d8c, 0x0c657a79, 0x9b27a401);
    RoundsStep(v, m, 10);
    assert Rounds(v, m, 11) == Vars(0x4798a3f4, 0x8c87346b, 0x8e04ecb9, 0x85a07b5f, 0x436b23e8, 0x1cc92596, 0x32ca2d8c, 0x0c657a79);
    RoundsStep(v, m, 11);
    assert Rounds(v, m, 12) == Vars(0xf71fc5a9, 0x4798a3f4, 0x8c87346b, 0x8e04ecb9, 0x816fd6e9, 0x436b23e8, 0x1cc92596, 0x32ca2d8c);
    RoundsStep(v, m, 12);
    assert Rounds(v, m, 13) == Vars(0x87912990, 0xf71fc5a9, 0x4798a3f4, 0x8c87346b, 0x1e578218, 0x816fd6e9, 0x436b23e8, 0x1cc92596);
    RoundsStep(v, m, 13);
    assert Rounds(v, m, 14) == Vars(0xd932eb16, 0x87912990, 0xf71fc5a9, 0x4798a3f4, 0x745a48de, 0x1e578218, 0x816fd6e9, 0x436b23e8);
    RoundsStep(v, m, 14);
    assert Rounds(v, m, 15) == Vars(0xc0645fde, 0xd932eb16, 0x87912990, 0xf71fc5a9, 0x0b92f20c, 0x745a48de, 0x1e578218, 0x816fd6e9);
    RoundsStep(v, m, 15);
  }

  lemma Rounds16(m: bytes, v: Vars)
    requires IsBlock(m)
    requires Schedule(m, 16) == 0x61626380 && Schedule(m, 17) == 0x000f0000 && Schedule(m, 18) == 0x7da86405 && Schedule(m, 19) == 0x600003c6
    requires Schedule(m, 20) == 0x3e9d7b78 && Schedule(m, 21) == 0x0183fc00 && Schedule(m, 22) == 0x12dcbfdb && Schedule(m, 23) == 0xe2e2c38e
    requires Rounds(v, m, 16) == Vars(0xb0fa238e, 0xc0645fde, 0xd932eb16, 0x87912990, 0x07590dcd, 0x0b92f20c, 0x745a48de, 0x1e578218)
    ensures Rounds(v, m, 24) == Vars(0xc5d53d8d, 0xa7a3623f, 0xc2606d6d, 0x9dc68b63, 0xaa47c347, 0x49f5114a, 0xe1257970, 0x8ada8930)
  {
    hide Rounds, Schedule, KAt;
    Keys16();
    RoundsStep(v, m, 16);
    assert Rounds(v, m, 17) == Vars(0x21da9a9b, 0xb0fa238e, 0xc0645fde, 0xd932eb16, 0x8034229c, 0x07590dcd, 0x0b92f20c, 0x745a48de);
    RoundsStep(v, m, 17);
    assert Rounds(v, m, 18) == Vars(0xc2fbd9d1, 0x21da9a9b, 0xb0fa238e, 0xc0645fde, 0x846ee454, 0x8034229c, 0x07590dcd, 0x0b92f20c);
    RoundsStep(v, m, 18);
    assert Rounds(v, m, 19) == Vars(0xfe777bbf, 0xc2fbd9d1, 0x21da9a9b, 0xb0fa238e, 0xcc899961, 0x846ee454, 0x8034229c, 0x07590dcd);
    RoundsStep(v, m, 19);
    assert Rounds(v, m, 20) == Vars(0xe1f20c33, 0xfe777bbf, 0xc2fbd9d1, 0x21da9a9b, 0xb0638179, 0xcc899961, 0x846ee454, 0x8034229c);
    RoundsStep(v, m, 20);
    assert Rounds(v, m, 21) == Vars(0x9dc68b63, 0xe1f20c33, 0xfe777bbf, 0xc2fbd9d1, 0x8ada8930, 0xb0638179, 0xcc899961, 0x846ee454);
    RoundsStep(v, m, 21);
    assert Rounds(v, m, 22) == Vars(0xc2606d6d, 0x9dc68b63, 0xe1f20c33, 0xfe777bbf, 0xe1257970, 0x8ada8930, 0xb0638179, 0xcc899961);
    RoundsStep(v, m, 22);
    assert Rounds(v, m, 23) == Vars(0xa7a3623f, 0xc2606d6d, 0x9dc68b63, 0xe1f20c33, 0x49f5114a, 0xe1257970, 0x8ada8930, 0xb0638179);
    RoundsStep(v, m, 23);
  }

  lemma Rounds24(m: bytes, v: Vars)
    requires IsBlock(m)
    requires Schedule(m, 24) == 0xc8215c1a && Schedule(m, 25) == 0xb73679a2 && Schedule(m, 26) == 0xe5bc3909 && Schedule(m, 27) == 0x32663c5b
    requires Schedule(m, 28) == 0x9d209d67 && Schedule(m, 29) == 0xec8726cb && Schedule(m, 30) == 0x702138a4 && Schedule(m, 31) == 0xd3b7973b
    requires Rounds(v, m, 24) == Vars(0xc5d53d8d, 0xa7a3623f, 0xc2606d6d, 0x9dc68b63, 0xaa47c347, 0x49f5114a, 0xe1257970, 0x8ada8930)
    ensures Rounds(v, m, 32) == Vars(0x73b33bf5, 0xea992a22, 0xa0060b30, 0x363482c9, 0xba591112, 0x0109ab3a, 0xade79437, 0x6112a3b7)
  {
    hide Rounds, Schedule, KAt;
    Keys24();
    RoundsStep(v, m, 24);
    assert Rounds(v, m, 25) == Vars(0x1c2c2838, 0xc5d53d8d, 0xa7a3623f, 0xc2606d6d, 0x2823ef91, 0xaa47c347, 0x49f5114a, 0xe1257970);
    RoundsStep(v, m, 25);
    assert Rounds(v, m, 26) == Vars(0xcde8037d, 0x1c2c2838, 0xc5d53d8d, 0xa7a3623f, 0x14383d8e, 0x2823ef91, 0xaa47c347, 0x49f5114a);
    RoundsStep(v, m, 26);
    assert Rounds(v, m, 27) == Vars(0xb62ec4bc, 0xcde8037d, 0x1c2c2838, 0xc5d53d8d, 0xc74c6516, 0x14383d8e, 0x2823ef91, 0xaa47c347);
    RoundsStep(v, m, 27);
    assert Rounds(v, m, 28) == Vars(0x77d37528, 0xb62ec4bc, 0xcde8037d, 0x1c2c2838, 0xedffbff8, 0xc74c6516, 0x14383d8e, 0x2823ef91);
    RoundsStep(v, m, 28);
    assert Rounds(v, m, 29) == Vars(0x363482c9, 0x77d37528, 0xb62ec4bc, 0xcde8037d, 0x6112a3b7, 0xedffbff8, 0xc74c6516, 0x14383d8e);
    RoundsStep(v, m, 29);
    assert Rounds(v, m, 30) == Vars(0xa0060b30, 0x363482c9, 0x77d37528, 0xb62ec4bc, 0xade79437, 0x6112a3b7, 0xedffbff8, 0xc74c6516);
    RoundsStep(v, m, 30);
    assert Rounds(v, m, 31) == Vars(0xea992a22, 0xa0060b30, 0x363482c9, 0x77d37528, 0x0109ab3a, 0xade79437, 0x6112a3b7, 0xedffbff8);
    RoundsStep(v, m, 31);
  }

  lemma Rounds32(m: bytes, v: Vars)
    requires IsBlock(m)
    requires Schedule(m, 32) == 0x93f5997f && Schedule(m, 33) == 0x3b68ba73 && Schedule(m, 34) == 0xaff4ffc1 && Schedule(m, 35) == 0xf10a5c62
    requires Schedule(m, 36) == 0x0a8b3996 && Schedule(m, 37) == 0x72af830a && Schedule(m, 38) == 0x9409e33e && Schedule(m, 39) == 0x24641522
    requires Rounds(v, m, 32) == Vars(0x73b33bf5, 0xea992a22, 0xa0060b30, 0x363482c9, 0xba591112, 0x0109ab3a, 0xade79437, 0x6112a3b7)
    ensures Rounds(v, m, 40) == Vars(0x79ea687a, 0x6dc57a8a, 0x34df1604, 0x41a65cb1, 0x1efbc0a0, 0xf0781bc8, 0xa507a53d, 0x0772a26b)
  {
    hide Rounds, Schedule, KAt;
    Keys32();
    RoundsStep(v, m, 32);
    assert Rounds(v, m, 33) == Vars(0x98e12507, 0x73b33bf5, 0xea992a22, 0xa0060b30, 0x9cd9f5f6, 0xba591112, 0x0109ab3a, 0xade79437);
    RoundsStep(v, m, 33);
    assert Rounds(v, m, 34) == Vars(0xfe604df5, 0x98e12507, 0x73b33bf5, 0xea992a22, 0x59249dd3, 0x9cd9f5f6, 0xba591112, 0x0109ab3a);
    RoundsStep(v, m, 34);
    assert Rounds(v, m, 35) == Vars(0xa9a7738c, 0xfe604df5, 0x98e12507, 0x73b33bf5, 0x085f3833, 0x59249dd3, 0x9cd9f5f6, 0xba591112);
    RoundsStep(v, m, 35);
    assert Rounds(v, m, 36) == Vars(0x65a0cfe4, 0xa9a7738c, 0xfe604df5, 0x98e12507, 0xf4b002d6, 0x085f3833, 0x59249dd3, 0x9cd9f5f6);
    RoundsStep(v, m, 36);
    assert Rounds(v, m, 37) == Vars(0x41a65cb1, 0x65a0cfe4, 0xa9a7738c, 0xfe604df5, 0x0772a26b, 0xf4b002d6, 0x085f3833, 0x59249dd3);
    RoundsStep(v, m, 37);
    assert Rounds(v, m, 38) == Vars(0x34df1604, 0x41a65cb1, 0x65a0cfe4, 0xa9a7738c, 0xa507a53d, 0x0772a26b, 0xf4b002d6, 0x085f3833);
    RoundsStep(v, m, 38);
    assert Rounds(v, m, 39) == Vars(0x6dc57a8a, 0x34df1604, 0x41a65cb1, 0x65a0cfe4, 0xf0781bc8, 0xa507a53d, 0x0772a26b, 0xf4b002d6);
    RoundsStep(v, m, 39);
  }

  lemma Rounds40(m: bytes, v: Vars)
    requires IsBlock(m)
    requires Schedule(m, 40) == 0x9f47bf94 && Schedule(m, 41) == 0xf0a64f5a && Schedule(m, 42) == 0x3e246a79 && Schedule(m, 43) == 0x27333ba3
    requires Schedule(m, 44) == 0x0c4763f2 && Schedule(m, 45) == 0x840abf27 && Schedule(m, 46) == 0x7a290d5d && Schedule(m, 47) == 0x065c43da
    requires Rounds(v, m, 40) == Vars(0x79ea687a, 0x6dc57a8a, 0x34df1604, 0x41a65cb1, 0x1efbc0a0, 0xf0781bc8, 0xa507a53d, 0x0772a26b)
    ensures Rounds(v, m, 48) == Vars(0x4172328d, 0xa14c14b0, 0x72ab4b91, 0x26628815, 0xfecf0bc6, 0xd57b94a9, 0xb7755da1, 0xa80f11f0)
  {
    hide Rounds, Schedule, KAt;
    Keys40();
    RoundsStep(v, m, 40);
    assert Rounds(v, m, 41) == Vars(0xd6670766, 0x79ea687a, 0x6dc57a8a, 0x34df1604, 0x26352d63, 0x1efbc0a0, 0xf0781bc8, 0xa507a53d);
    RoundsStep(v, m, 41);
    assert Rounds(v, m, 42) == Vars(0xdf46652f, 0xd6670766, 0x79ea687a, 0x6dc57a8a, 0x838b2711, 0x26352d63, 0x1efbc0a0, 0xf0781bc8);
    RoundsStep(v, m, 42);
    assert Rounds(v, m, 43) == Vars(0x17aa0dfe, 0xdf46652f, 0xd6670766, 0x79ea687a, 0xdecd4715, 0x838b2711, 0x26352d63, 0x1efbc0a0);
    RoundsStep(v, m, 43);
    assert Rounds(v, m, 44) == Vars(0x9d4baf93, 0x17aa0dfe, 0xdf46652f, 0xd6670766, 0xfda24c2e, 0xdecd4715, 0x838b2711, 0x26352d63);
    RoundsStep(v, m, 44);
    assert Rounds(v, m, 45) == Vars(0x26628815, 0x9d4baf93, 0x17aa0dfe, 0xdf46652f, 0xa80f11f0, 0xfda24c2e, 0xdecd4715, 0x838b2711);
    RoundsStep(v, m, 45);
    assert Rounds(v, m, 46) == Vars(0x72ab4b91, 0x26628815, 0x9d4baf93, 0x17aa0dfe, 0xb7755da1, 0xa80f11f0, 0xfda24c2e, 0xdecd4715);
    RoundsStep(v, m, 46);
    assert Rounds(v, m, 47) == Vars(0xa14c14b0, 0x72ab4b91, 0x26628815, 0x9d4baf93, 0xd57b94a9, 0xb7755da1, 0xa80f11f0, 0xfda24c2e);
    RoundsStep(v, m, 47);
  }

  lemma Rounds48(m: bytes, v: Vars)
    requires IsBlock(m)
    requires Schedule(m, 48) == 0xfb3e89cb && Schedule(m, 49) == 0xcc7617db && Schedule(m, 50) == 0xb9e66c34 && Schedule(m, 51) == 0xa9993667
    requires Schedule(m, 52) == 0x84badedd && Schedule(m, 53) == 0xc21462bc && Schedule(m, 54) == 0x1487472c && Schedule(m, 55) == 0xb20f7a99
    requires Rounds(v, m, 48) == Vars(0x4172328d, 0xa14c14b0, 0x72ab4b91, 0x26628815, 0xfecf0bc6, 0xd57b94a9, 0xb7755da1, 0xa80f11f0)
    ensures Rounds(v, m, 56) == Vars(0x38cc9913, 0x3ec45cdb, 0xf5702fdb, 0x101fd28f, 0x54cb266b, 0xe50e1b4f, 0x9f4787c3, 0x529e7d00)
  {
    hide Rounds, Schedule, KAt;
    Keys48();
    RoundsStep(v, m, 48);
    assert Rounds(v, m, 49) == Vars(0x05757ceb, 0x4172328d, 0xa14c14b0, 0x72ab4b91, 0xbd714038, 0xfecf0bc6, 0xd57b94a9, 0xb7755da1);
    RoundsStep(v, m, 49);
    assert Rounds(v, m, 50) == Vars(0xf11bfaa8, 0x05757ceb, 0x4172328d, 0xa14c14b0, 0x6e5c390c, 0xbd714038, 0xfecf0bc6, 0xd57b94a9);
    RoundsStep(v, m, 50);
    assert Rounds(v, m, 51) == Vars(0x7a0508a1, 0xf11bfaa8, 0x05757ceb, 0x4172328d, 0x52f1ccf7, 0x6e5c390c, 0xbd714038, 0xfecf0bc6);
    RoundsStep(v, m, 51);
    assert Rounds(v, m, 52) == Vars(0x886e7a22, 0x7a0508a1, 0xf11bfaa8, 0x05757ceb, 0x49231c1e, 0x52f1ccf7, 0x6e5c390c, 0xbd714038);
    RoundsStep(v, m, 52);
    assert Rounds(v, m, 53) == Vars(0x101fd28f, 0x886e7a22, 0x7a0508a1, 0xf11bfaa8, 0x529e7d00, 0x49231c1e, 0x52f1ccf7, 0x6e5c390c);
    RoundsStep(v, m, 53);
    assert Rounds(v, m, 54) == Vars(0xf5702fdb, 0x101fd28f, 0x886e7a22, 0x7a0508a1, 0x9f4787c3, 0x529e7d00, 0x49231c1e, 0x52f1ccf7);
    RoundsStep(v, m, 54);
    assert Rounds(v, m, 55) == Vars(0x3ec45cdb, 0xf5702fdb, 0x101fd28f, 0x886e7a22, 0xe50e1b4f, 0x9f4787c3, 0x529e7d00, 0x49231c1e);
    RoundsStep(v, m, 55);
  }

  lemma Rounds56(m: bytes, v: Vars)
    requires IsBlock(m)
    requires Schedule(m, 56) == 0xef57b9cd && Schedule(m, 57) == 0xebe6b238 && Schedule(m, 58) == 0x9fe3095e && Schedule(m, 59) == 0x78bc8d4b
    requires Schedule(m, 60) == 0xa43fcf15 && Schedule(m, 61) == 0x668b2ff8 && Schedule(m, 62) == 0xeeaba2cc && Schedule(m, 63) == 0x12b1edeb
    requires Rounds(v, m, 56) == Vars(0x38cc9913, 0x3ec45cdb, 0xf5702fdb, 0x101fd28f, 0x54cb266b, 0xe50e1b4f, 0x9f4787c3, 0x529e7d00)
    ensures Rounds(v, m, 64) == Vars(0x506e3058, 0xd39a2165, 0x04d24d6c, 0xb85e2ce9, 0x5ef50f24, 0xfb121210, 0x948d25b6, 0x961f4894)
  {
    hide Rounds, Schedule, KAt;
    Keys56();
    RoundsStep(v, m, 56);
    assert Rounds(v, m, 57) == Vars(0xfcd1887b, 0x38cc9913, 0x3ec45cdb, 0xf5702fdb, 0x9b5e906c, 0x54cb266b, 0xe50e1b4f, 0x9f4787c3);
    RoundsStep(v, m, 57);
    assert Rounds(v, m, 58) == Vars(0xc062d46f, 0xfcd1887b, 0x38cc9913, 0x3ec45cdb, 0x7e44008e, 0x9b5e906c, 0x54cb266b, 0xe50e1b4f);
    RoundsStep(v, m, 58);
    assert Rounds(v, m, 59) == Vars(0xffb70472, 0xc062d46f, 0xfcd1887b, 0x38cc9913, 0x6d83bfc6, 0x7e44008e, 0x9b5e906c, 0x54cb266b);
    RoundsStep(v, m, 59);
    assert Rounds(v, m, 60) == Vars(0xb6ae8fff, 0xffb70472, 0xc062d46f, 0xfcd1887b, 0xb21bad3d, 0x6d83bfc6, 0x7e44008e, 0x9b5e906c);
    RoundsStep(v, m, 60);
    assert Rounds(v, m, 61) == Vars(0xb85e2ce9, 0xb6ae8fff, 0xffb70472, 0xc062d46f, 0x961f4894, 0xb21bad3d, 0x6d83bfc6, 0x7e44008e);
    RoundsStep(v, m, 61);
    assert Rounds(v, m, 62) == Vars(0x04d24d6c, 0xb85e2ce9, 0xb6ae8fff, 0xffb70472, 0x948d25b6, 0x961f4894, 0xb21bad3d, 0x6d83bfc6);
    RoundsStep(v, m, 62);
    assert Rounds(v, m, 63) == Vars(0xd39a2165, 0x04d24d6c, 0xb85e2ce9, 0xb6ae8fff, 0xfb121210, 0x948d25b6, 0x961f4894, 0xb21bad3d);
    RoundsStep(v, m, 63);
  }

  /** SHA-256 of "abc". */
  lemma KnownAnswer()
    ensures Digest(ABC) == [
              0xba, 0x78, 0x16, 0xbf, 0x8f, 0x01, 0xcf, 0xea, 0x41, 0x41, 0x40, 0xde, 0x5d, 0xae, 0x22, 0x23,
              0xb0, 0x03, 0x61, 0xa3, 0x96, 0x17, 0x7a, 0x9c, 0xb4, 0x10, 0xff, 0x61, 0xf2, 0x00, 0x15, 0xad]
  {
    hide Rounds, Schedule;
    var m := Padded(ABC);
    BlockIs();
    FirstWords(m);
    Words16(m);
    Words24(m);
    Words32(m);
    Words40(m);
    Words48(m);
    Words56(m);
    RoundsStart(VarsOf(IV), m);
    Rounds0(m, VarsOf(IV));
    Rounds8(m, VarsOf(IV));
    Rounds16(m, VarsOf(IV));
    Rounds24(m, VarsOf(IV));
    Rounds32(m, VarsOf(IV));
    Rounds40(m, VarsOf(IV));
    Rounds48(m, VarsOf(IV));
    Rounds56(m, VarsOf(IV));
    HashAppendBlock([], m);
    assert [] + m == m;
  }
}
