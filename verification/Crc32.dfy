/** The table-driven CRC-32 of `src/lib/crc32.c` and the bit-at-a-time definition it computes:
    the reflected CRC with polynomial 0xEDB88320 of section 8 of RFC 1952. */
module Crc32 {
  import opened Subsequences

  // ---------- The definition, one bit at a time ----------

  function Xor(a: bv32, b: bv32): bv32 {
    a ^ b
  }

  /** One bit out at the low end; the constant is the polynomial, lowest power in the top bit. */
  function ShiftBit(c: bv32): bv32 {
    if c & 1 == 1 then (c >> 1) ^ 0xEDB88320 else c >> 1
  }

  function Iterate<W>(f: W -> W, n: nat, c: W): W {
    if n == 0 then c else f(Iterate(f, n - 1, c))
  }

  function ShiftByte(c: bv32): bv32 {
    Iterate(ShiftBit, 8, c)
  }

  /** One byte of a message goes into the register. */
  function Absorb(c: bv32, b: bv8): bv32 {
    ShiftByte(Xor(c, b as bv32))
  }

  /** The register after a message, from a given start. */
  function Register(start: bv32, data: seq<bv8>): bv32 {
    if data == [] then start else Absorb(Register(start, Front(data)), Last(data))
  }

  function Crc32Of(data: seq<bv8>): bv32 {
    Xor(Register(0xFFFF_FFFF, data), 0xFFFF_FFFF)
  }

  // ---------- The table, in rows of eight ----------

  function Quarter0(h: bv3): (r: seq<bv32>)
    ensures |r| == 8
  {
    match h
    case 0 => [
      0x00000000, 0x77073096, 0xee0e612c, 0x990951ba,
      0x076dc419, 0x706af48f, 0xe963a535, 0x9e6495a3]
    case 1 => [
      0x0edb8832, 0x79dcb8a4, 0xe0d5e91e, 0x97d2d988,
      0x09b64c2b, 0x7eb17cbd, 0xe7b82d07, 0x90bf1d91]
    case 2 => [
      0x1db71064, 0x6ab020f2, 0xf3b97148, 0x84be41de,
      0x1adad47d, 0x6ddde4eb, 0xf4d4b551, 0x83d385c7]
    case 3 => [
      0x136c9856, 0x646ba8c0, 0xfd62f97a, 0x8a65c9ec,
      0x14015c4f, 0x63066cd9, 0xfa0f3d63, 0x8d080df5]
    case 4 => [
      0x3b6e20c8, 0x4c69105e, 0xd56041e4, 0xa2677172,
      0x3c03e4d1, 0x4b04d447, 0xd20d85fd, 0xa50ab56b]
    case 5 => [
      0x35b5a8fa, 0x42b2986c, 0xdbbbc9d6, 0xacbcf940,
      0x32d86ce3, 0x45df5c75, 0xdcd60dcf, 0xabd13d59]
    case 6 => [
      0x26d930ac, 0x51de003a, 0xc8d75180, 0xbfd06116,
      0x21b4f4b5, 0x56b3c423, 0xcfba9599, 0xb8bda50f]
    case 7 => [
      0x2802b89e, 0x5f058808, 0xc60cd9b2, 0xb10be924,
      0x2f6f7c87, 0x58684c11, 0xc1611dab, 0xb6662d3d]
  }

  function Quarter1(h: bv3): (r: seq<bv32>)
    ensures |r| == 8
  {
    match h
    case 0 => [
      0x76dc4190, 0x01db7106, 0x98d220bc, 0xefd5102a,
      0x71b18589, 0x06b6b51f, 0x9fbfe4a5, 0xe8b8d433]
    case 1 => [
      0x7807c9a2, 0x0f00f934, 0x9609a88e, 0xe10e9818,
      0x7f6a0dbb, 0x086d3d2d, 0x91646c97, 0xe6635c01]
    case 2 => [
      0x6b6b51f4, 0x1c6c6162, 0x856530d8, 0xf262004e,
      0x6c0695ed, 0x1b01a57b, 0x8208f4c1, 0xf50fc457]
    case 3 => [
      0x65b0d9c6, 0x12b7e950, 0x8bbeb8ea, 0xfcb9887c,
      0x62dd1ddf, 0x15da2d49, 0x8cd37cf3, 0xfbd44c65]
    case 4 => [
      0x4db26158, 0x3ab551ce, 0xa3bc0074, 0xd4bb30e2,
      0x4adfa541, 0x3dd895d7, 0xa4d1c46d, 0xd3d6f4fb]
    case 5 => [
      0x4369e96a, 0x346ed9fc, 0xad678846, 0xda60b8d0,
      0x44042d73, 0x33031de5, 0xaa0a4c5f, 0xdd0d7cc9]
    case 6 => [
      0x5005713c, 0x270241aa, 0xbe0b1010, 0xc90c2086,
      0x5768b525, 0x206f85b3, 0xb966d409, 0xce61e49f]
    case 7 => [
      0x5edef90e, 0x29d9c998, 0xb0d09822, 0xc7d7a8b4,
      0x59b33d17, 0x2eb40d81, 0xb7bd5c3b, 0xc0ba6cad]
  }

  function Quarter2(h: bv3): (r: seq<bv32>)
    ensures |r| == 8
  {
    match h
    case 0 => [
      0xedb88320, 0x9abfb3b6, 0x03b6e20c, 0x74b1d29a,
      0xead54739, 0x9dd277af, 0x04db2615, 0x73dc1683]
    case 1 => [
      0xe3630b12, 0x94643b84, 0x0d6d6a3e, 0x7a6a5aa8,
      0xe40ecf0b, 0x9309ff9d, 0x0a00ae27, 0x7d079eb1]
    case 2 => [
      0xf00f9344, 0x8708a3d2, 0x1e01f268, 0x6906c2fe,
      0xf762575d, 0x806567cb, 0x196c3671, 0x6e6b06e7]
    case 3 => [
      0xfed41b76, 0x89d32be0, 0x10da7a5a, 0x67dd4acc,
      0xf9b9df6f, 0x8ebeeff9, 0x17b7be43, 0x60b08ed5]
    case 4 => [
      0xd6d6a3e8, 0xa1d1937e, 0x38d8c2c4, 0x4fdff252,
      0xd1bb67f1, 0xa6bc5767, 0x3fb506dd, 0x48b2364b]
    case 5 => [
      0xd80d2bda, 0xaf0a1b4c, 0x36034af6, 0x41047a60,
      0xdf60efc3, 0xa867df55, 0x316e8eef, 0x4669be79]
    case 6 => [
      0xcb61b38c, 0xbc66831a, 0x256fd2a0, 0x5268e236,
      0xcc0c7795, 0xbb0b4703, 0x220216b9, 0x5505262f]
    case 7 => [
      0xc5ba3bbe, 0xb2bd0b28, 0x2bb45a92, 0x5cb36a04,
      0xc2d7ffa7, 0xb5d0cf31, 0x2cd99e8b, 0x5bdeae1d]
  }

  function Quarter3(h: bv3): (r: seq<bv32>)
    ensures |r| == 8
  {
    match h
    case 0 => [
      0x9b64c2b0, 0xec63f226, 0x756aa39c, 0x026d930a,
      0x9c0906a9, 0xeb0e363f, 0x72076785, 0x05005713]
    case 1 => [
      0x95bf4a82, 0xe2b87a14, 0x7bb12bae, 0x0cb61b38,
      0x92d28e9b, 0xe5d5be0d, 0x7cdcefb7, 0x0bdbdf21]
    case 2 => [
      0x86d3d2d4, 0xf1d4e242, 0x68ddb3f8, 0x1fda836e,
      0x81be16cd, 0xf6b9265b, 0x6fb077e1, 0x18b74777]
    case 3 => [
      0x88085ae6, 0xff0f6a70, 0x66063bca, 0x11010b5c,
      0x8f659eff, 0xf862ae69, 0x616bffd3, 0x166ccf45]
    case 4 => [
      0xa00ae278, 0xd70dd2ee, 0x4e048354, 0x3903b3c2,
      0xa7672661, 0xd06016f7, 0x4969474d, 0x3e6e77db]
    case 5 => [
      0xaed16a4a, 0xd9d65adc, 0x40df0b66, 0x37d83bf0,
      0xa9bcae53, 0xdebb9ec5, 0x47b2cf7f, 0x30b5ffe9]
    case 6 => [
      0xbdbdf21c, 0xcabac28a, 0x53b39330, 0x24b4a3a6,
      0xbad03605, 0xcdd70693, 0x54de5729, 0x23d967bf]
    case 7 => [
      0xb3667a2e, 0xc4614ab8, 0x5d681b02, 0x2a6f2b94,
      0xb40bbe37, 0xc30c8ea1, 0x5a05df1b, 0x2d02ef8d]
  }

  function Row(h: bv5): (r: seq<bv32>)
    ensures |r| == 8
  {
    var low := (h & 7) as bv3;
    match h >> 3
    case 0 => Quarter0(low)
    case 1 => Quarter1(low)
    case 2 => Quarter2(low)
    case _ => Quarter3(low)
  }

  function Table(i: bv8): bv32 {
    Row((i >> 3) as bv5)[(i & 7) as int]
  }

  // ---------- Shifting is linear ----------

  lemma XorShift(a: bv32, b: bv32)
    ensures (a ^ b) >> 1 == (a >> 1) ^ (b >> 1)
  {
  }

  lemma XorLowBit(a: bv32, b: bv32)
    ensures (a ^ b) & 1 == (a & 1) ^ (b & 1)
    ensures a & 1 == 0 || a & 1 == 1
  {
  }

  lemma XorRegroup(a: bv32, b: bv32, p: bv32)
    ensures (a ^ p) ^ b == (a ^ b) ^ p && a ^ (b ^ p) == (a ^ b) ^ p && (a ^ p) ^ (b ^ p) == a ^ b
  {
  }

  lemma ShiftBitLinear(a: bv32, b: bv32)
    ensures ShiftBit(a ^ b) == ShiftBit(a) ^ ShiftBit(b)
  {
    XorShift(a, b);
    XorLowBit(a, b);
    XorLowBit(b, a);
    XorRegroup(a >> 1, b >> 1, 0xEDB88320);
    assert (0 as bv32) ^ 0 == 0 && (0 as bv32) ^ 1 == 1 && (1 as bv32) ^ 0 == 1 && (1 as bv32) ^ 1 == 0;
    if a & 1 == 0 {
      if b & 1 == 0 {
      }
    }
  }

  /** An operation that distributes over another one still does when it is repeated. */
  lemma {:induction false} IterateDistributes<W(!new)>(f: W -> W, op: (W, W) -> W, n: nat, a: W, b: W)
    requires forall p, q :: f(op(p, q)) == op(f(p), f(q))
    ensures Iterate(f, n, op(a, b)) == op(Iterate(f, n, a), Iterate(f, n, b))
  {
    if n > 0 {
      IterateDistributes(f, op, n - 1, a, b);
    }
  }

  lemma ShiftByteLinear(a: bv32, b: bv32)
    ensures ShiftByte(Xor(a, b)) == Xor(ShiftByte(a), ShiftByte(b))
  {
    forall p: bv32, q: bv32 ensures ShiftBit(Xor(p, q)) == Xor(ShiftBit(p), ShiftBit(q)) {
      ShiftBitLinear(p, q);
    }
    IterateDistributes(ShiftBit, Xor, 8, a, b);
  }

  /** High bits only move down: no polynomial is added for them within one byte. */
  lemma ShiftByteHigh(h: bv32)
    requires h & 0xFF == 0
    ensures ShiftByte(h) == h >> 8
  {
    assert h & 1 == 0 && (h >> 1) & 1 == 0 && (h >> 2) & 1 == 0 && (h >> 3) & 1 == 0;
    assert (h >> 4) & 1 == 0 && (h >> 5) & 1 == 0 && (h >> 6) & 1 == 0 && (h >> 7) & 1 == 0;
    assert ShiftBit(h) == h >> 1 && ShiftBit(h >> 1) == h >> 2;
    assert ShiftBit(h >> 2) == h >> 3 && ShiftBit(h >> 3) == h >> 4;
    assert ShiftBit(h >> 4) == h >> 5 && ShiftBit(h >> 5) == h >> 6;
    assert ShiftBit(h >> 6) == h >> 7 && ShiftBit(h >> 7) == h >> 8;
  }

  // ---------- All 256 entries ----------

  lemma FirstRow(l: bv3)
    ensures Row(0)[l as int] == ShiftByte(l as bv32)
  {
    match l
    case 0 => assert ShiftByte(0) == Row(0)[0];
    case 1 => assert ShiftByte(1) == Row(0)[1];
    case 2 => assert ShiftByte(2) == Row(0)[2];
    case 3 => assert ShiftByte(3) == Row(0)[3];
    case 4 => assert ShiftByte(4) == Row(0)[4];
    case 5 => assert ShiftByte(5) == Row(0)[5];
    case 6 => assert ShiftByte(6) == Row(0)[6];
    case 7 => assert ShiftByte(7) == Row(0)[7];
  }

  lemma FirstColumn0To15(h: bv5)
    requires 0 <= h <= 15
    ensures Row(h)[0] == ShiftByte((h as bv32) << 3)
  {
    match h
    case 0 => assert ShiftByte(0) == Row(0)[0];
    case 1 => assert ShiftByte(8) == Row(1)[0];
    case 2 => assert ShiftByte(16) == Row(2)[0];
    case 3 => assert ShiftByte(24) == Row(3)[0];
    case 4 => assert ShiftByte(32) == Row(4)[0];
    case 5 => assert ShiftByte(40) == Row(5)[0];
    case 6 => assert ShiftByte(48) == Row(6)[0];
    case 7 => assert ShiftByte(56) == Row(7)[0];
    case 8 => assert ShiftByte(64) == Row(8)[0];
    case 9 => assert ShiftByte(72) == Row(9)[0];
    case 10 => assert ShiftByte(80) == Row(10)[0];
    case 11 => assert ShiftByte(88) == Row(11)[0];
    case 12 => assert ShiftByte(96) == Row(12)[0];
    case 13 => assert ShiftByte(104) == Row(13)[0];
    case 14 => assert ShiftByte(112) == Row(14)[0];
    case 15 => assert ShiftByte(120) == Row(15)[0];
    case _ => assert false;
  }

  lemma FirstColumn16To31(h: bv5)
    requires 16 <= h <= 31
    ensures Row(h)[0] == ShiftByte((h as bv32) << 3)
  {
    match h
    case 16 => assert ShiftByte(128) == Row(16)[0];
    case 17 => assert ShiftByte(136) == Row(17)[0];
    case 18 => assert ShiftByte(144) == Row(18)[0];
    case 19 => assert ShiftByte(152) == Row(19)[0];
    case 20 => assert ShiftByte(160) == Row(20)[0];
    case 21 => assert ShiftByte(168) == Row(21)[0];
    case 22 => assert ShiftByte(176) == Row(22)[0];
    case 23 => assert ShiftByte(184) == Row(23)[0];
    case 24 => assert ShiftByte(192) == Row(24)[0];
    case 25 => assert ShiftByte(200) == Row(25)[0];
    case 26 => assert ShiftByte(208) == Row(26)[0];
    case 27 => assert ShiftByte(216) == Row(27)[0];
    case 28 => assert ShiftByte(224) == Row(28)[0];
    case 29 => assert ShiftByte(232) == Row(29)[0];
    case 30 => assert ShiftByte(240) == Row(30)[0];
    case 31 => assert ShiftByte(248) == Row(31)[0];
    case _ => assert false;
  }

  /** Within a row, the entries differ from the head of the row as the first row's do. */
  ghost predicate Follows<W>(op: (W, W) -> W, r: seq<W>, z: seq<W>)
    requires |r| == |z| == 8
  {
    && r[0] == op(r[0], z[0]) && r[1] == op(r[0], z[1]) && r[2] == op(r[0], z[2]) && r[3] == op(r[0], z[3])
    && r[4] == op(r[0], z[4]) && r[5] == op(r[0], z[5]) && r[6] == op(r[0], z[6]) && r[7] == op(r[0], z[7])
  }

  lemma Rows0To3(h: bv5)
    requires 0 <= h <= 3
    ensures Follows(Xor, Row(h), Row(0))
  {
    match h
    case 0 => assert Follows(Xor, Row(0), Row(0));
    case 1 => assert Follows(Xor, Row(1), Row(0));
    case 2 => assert Follows(Xor, Row(2), Row(0));
    case 3 => assert Follows(Xor, Row(3), Row(0));
    case _ => assert false;
  }

  lemma Rows4To7(h: bv5)
    requires 4 <= h <= 7
    ensures Follows(Xor, Row(h), Row(0))
  {
    match h
    case 4 => assert Follows(Xor, Row(4), Row(0));
    case 5 => assert Follows(Xor, Row(5), Row(0));
    case 6 => assert Follows(Xor, Row(6), Row(0));
    case 7 => assert Follows(Xor, Row(7), Row(0));
    case _ => assert false;
  }

  lemma Rows8To11(h: bv5)
    requires 8 <= h <= 11
    ensures Follows(Xor, Row(h), Row(0))
  {
    match h
    case 8 => assert Follows(Xor, Row(8), Row(0));
    case 9 => assert Follows(Xor, Row(9), Row(0));
    case 10 => assert Follows(Xor, Row(10), Row(0));
    case 11 => assert Follows(Xor, Row(11), Row(0));
    case _ => assert false;
  }

  lemma Rows12To15(h: bv5)
    requires 12 <= h <= 15
    ensures Follows(Xor, Row(h), Row(0))
  {
    match h
    case 12 => assert Follows(Xor, Row(12), Row(0));
    case 13 => assert Follows(Xor, Row(13), Row(0));
    case 14 => assert Follows(Xor, Row(14), Row(0));
    case 15 => assert Follows(Xor, Row(15), Row(0));
    case _ => assert false;
  }

  lemma Rows16To19(h: bv5)
    requires 16 <= h <= 19
    ensures Follows(Xor, Row(h), Row(0))
  {
    match h
    case 16 => assert Follows(Xor, Row(16), Row(0));
    case 17 => assert Follows(Xor, Row(17), Row(0));
    case 18 => assert Follows(Xor, Row(18), Row(0));
    case 19 => assert Follows(Xor, Row(19), Row(0));
    case _ => assert false;
  }

  lemma Rows20To23(h: bv5)
    requires 20 <= h <= 23
    ensures Follows(Xor, Row(h), Row(0))
  {
    match h
    case 20 => assert Follows(Xor, Row(20), Row(0));
    case 21 => assert Follows(Xor, Row(21), Row(0));
    case 22 => assert Follows(Xor, Row(22), Row(0));
    case 23 => assert Follows(Xor, Row(23), Row(0));
    case _ => assert false;
  }

  lemma Rows24To27(h: bv5)
    requires 24 <= h <= 27
    ensures Follows(Xor, Row(h), Row(0))
  {
    match h
    case 24 => assert Follows(Xor, Row(24), Row(0));
    case 25 => assert Follows(Xor, Row(25), Row(0));
    case 26 => assert Follows(Xor, Row(26), Row(0));
    case 27 => assert Follows(Xor, Row(27), Row(0));
    case _ => assert false;
  }

  lemma Rows28To31(h: bv5)
    requires 28 <= h <= 31
    ensures Follows(Xor, Row(h), Row(0))
  {
    match h
    case 28 => assert Follows(Xor, Row(28), Row(0));
    case 29 => assert Follows(Xor, Row(29), Row(0));
    case 30 => assert Follows(Xor, Row(30), Row(0));
    case 31 => assert Follows(Xor, Row(31), Row(0));
    case _ => assert false;
  }

  lemma RowFollows(h: bv5)
    ensures Follows(Xor, Row(h), Row(0))
  {
    if h <= 15 {
      if h <= 7 {
        if h <= 3 {
          Rows0To3(h);
        } else {
          Rows4To7(h);
        }
      } else if h <= 11 {
        Rows8To11(h);
      } else {
        Rows12To15(h);
      }
    } else if h <= 23 {
      if h <= 19 {
        Rows16To19(h);
      } else {
        Rows20To23(h);
      }
    } else if h <= 27 {
      Rows24To27(h);
    } else {
      Rows28To31(h);
    }
  }

  lemma FirstColumn(h: bv5)
    ensures Row(h)[0] == ShiftByte((h as bv32) << 3)
  {
    if h <= 15 {
      FirstColumn0To15(h);
    } else {
      FirstColumn16To31(h);
    }
  }

  lemma EntryOf<W>(op: (W, W) -> W, r: seq<W>, z: seq<W>, l: nat)
    requires |r| == |z| == 8 && Follows(op, r, z) && l < 8
    ensures r[l] == op(r[0], z[l])
  {
  }

  lemma SplitIndex(i: bv8)
    ensures Xor(((i >> 3) as bv5 as bv32) << 3, (i & 7) as bv3 as bv32) == i as bv32
    ensures ((i & 7) as bv3) as int == (i & 7) as int
  {
  }

  /** Every entry is what eight single-bit shifts of its index give. */
  lemma TableIsRight(i: bv8)
    ensures Table(i) == ShiftByte(i as bv32)
  {
    var h, l := (i >> 3) as bv5, (i & 7) as bv3;
    SplitIndex(i);
    RowFollows(h);
    EntryOf(Xor, Row(h), Row(0), l as int);
    FirstColumn(h);
    FirstRow(l);
    ShiftByteLinear((h as bv32) << 3, l as bv32);
  }

  // ---------- The loop ----------

  /** The source's `char` is signed: it is widened with copies of its top bit. */
  function Widen(ch: bv8): bv32 {
    if ch >= 0x80 then 0xFFFF_FF00 | (ch as bv32) else ch as bv32
  }

  /** The update of the register by table: the `XDEBUG_CRC32` macro. */
  function Update(table: bv8 -> bv32, crc: bv32, ch: bv8): bv32 {
    Xor(crc >> 8, table(((crc ^ Widen(ch)) & 0xFF) as bv8))
  }

  /** What every entry of the table has to be. */
  ghost predicate IsRight(table: bv8 -> bv32) {
    forall i: bv8 :: table(i) == ShiftByte(i as bv32)
  }

  lemma IndexOf(crc: bv32, ch: bv8)
    ensures (crc ^ Widen(ch)) & 0xFF == Xor(crc & 0xFF, ch as bv32) <= 0xFF
  {
  }

  lemma SplitRegister(crc: bv32, ch: bv8)
    ensures Xor(crc, ch as bv32) == Xor(crc & 0xFFFF_FF00, Xor(crc & 0xFF, ch as bv32))
  {
  }

  lemma TableAt(table: bv8 -> bv32, x: bv32)
    requires x <= 0xFF && IsRight(table)
    ensures table(x as bv8) == ShiftByte(x)
  {
    assert (x as bv8) as bv32 == x;
  }

  /** With a right table, one table step is eight bit steps. */
  lemma UpdateAbsorbs(table: bv8 -> bv32, crc: bv32, ch: bv8)
    requires IsRight(table)
    ensures Update(table, crc, ch) == Absorb(crc, ch)
  {
    AbsorbSplit(crc, ch);
    UpdateSplit(table, crc, ch);
    HighShifts(crc);
  }

  lemma AbsorbSplit(crc: bv32, ch: bv8)
    ensures Absorb(crc, ch) == Xor(ShiftByte(crc & 0xFFFF_FF00), ShiftByte(Xor(crc & 0xFF, ch as bv32)))
  {
    SplitRegister(crc, ch);
    ShiftByteLinear(crc & 0xFFFF_FF00, Xor(crc & 0xFF, ch as bv32));
  }

  lemma UpdateSplit(table: bv8 -> bv32, crc: bv32, ch: bv8)
    requires IsRight(table)
    ensures Update(table, crc, ch) == Xor(crc >> 8, ShiftByte(Xor(crc & 0xFF, ch as bv32)))
  {
    IndexOf(crc, ch);
    TableAt(table, Xor(crc & 0xFF, ch as bv32));
  }

  lemma HighShifts(crc: bv32)
    ensures ShiftByte(crc & 0xFFFF_FF00) == crc >> 8
  {
    assert (crc & 0xFFFF_FF00) & 0xFF == 0 && (crc & 0xFFFF_FF00) >> 8 == crc >> 8;
    ShiftByteHigh(crc & 0xFFFF_FF00);
  }

  lemma AllEntries()
    ensures IsRight(Table)
  {
    forall i: bv8 ensures Table(i) == ShiftByte(i as bv32) {
      TableIsRight(i);
    }
  }

  method ComputeCrc32(data: seq<bv8>) returns (r: bv32)
    ensures r == Crc32Of(data)
  {
    var crc: bv32 := 0xFFFF_FFFF;
    AllEntries();
    var left, i := |data|, 0;
    while left > 0
      invariant left >= 0 && 0 <= i && i + left == |data|
      invariant crc == Register(0xFFFF_FFFF, data[..i])
    {
      UpdateAbsorbs(Table, crc, data[i]);
      assert Front(data[..i + 1]) == data[..i];
      crc := Update(Table, crc, data[i]);
      left, i := left - 1, i + 1;
    }
    assert data[..i] == data;
    r := Xor(crc, 0xFFFF_FFFF);
  }

  // ---------- What the checksum is for ----------

  lemma OnlyZeroShiftsToZero(c: bv32)
    ensures ShiftBit(c) == 0 ==> c == 0
  {
  }

  lemma {:induction false} IterateReaches<W(!new)>(f: W -> W, n: nat, c: W, z: W)
    requires forall p :: f(p) == z ==> p == z
    ensures Iterate(f, n, c) == z ==> c == z
  {
    if n > 0 {
      IterateReaches(f, n - 1, c, z);
    }
  }

  lemma XorIsZero(a: bv32, b: bv32)
    ensures Xor(a, b) == 0 ==> a == b
  {
    XorRules(a, b);
  }

  lemma XorRules(a: bv32, b: bv32)
    ensures Xor(Xor(a, b), b) == a && Xor(0, b) == b && Xor(a, a) == 0
  {
  }

  /** Two registers that differ stay different over one byte. */
  lemma ShiftByteKeepsApart(a: bv32, b: bv32)
    requires a != b
    ensures ShiftByte(a) != ShiftByte(b)
  {
    XorIsZero(a, b);
    XorRules(ShiftByte(a), 0);
    ShiftByteLinear(a, b);
    forall p: bv32 ensures ShiftBit(p) == 0 ==> p == 0 {
      OnlyZeroShiftsToZero(p);
    }
    IterateReaches(ShiftBit, 8, Xor(a, b), 0);
  }

  lemma XorCancels(a: bv32, b: bv32, c: bv32)
    ensures Xor(a, c) == Xor(b, c) <==> a == b
    ensures Xor(c, a) == Xor(c, b) <==> a == b
  {
  }

  lemma AbsorbKeepsApart(a: bv32, b: bv32, x: bv8)
    requires a != b
    ensures Absorb(a, x) != Absorb(b, x)
  {
    XorCancels(a, b, x as bv32);
    ShiftByteKeepsApart(Xor(a, x as bv32), Xor(b, x as bv32));
  }

  lemma AbsorbTellsApart(c: bv32, x: bv8, y: bv8)
    requires x != y
    ensures Absorb(c, x) != Absorb(c, y)
  {
    assert x as bv32 != y as bv32;
    XorCancels(x as bv32, y as bv32, c);
    ShiftByteKeepsApart(Xor(c, x as bv32), Xor(c, y as bv32));
  }

  lemma {:induction false} RegistersStayApart(a: bv32, b: bv32, data: seq<bv8>)
    requires a != b
    ensures Register(a, data) != Register(b, data)
  {
    if data != [] {
      RegistersStayApart(a, b, Front(data));
      AbsorbKeepsApart(Register(a, Front(data)), Register(b, Front(data)), Last(data));
    }
  }

  lemma {:induction false} RegisterConcat(start: bv32, s: seq<bv8>, t: seq<bv8>)
    ensures Register(start, s + t) == Register(Register(start, s), t)
    decreases |t|
  {
    if t == [] {
      assert s + t == s;
    } else {
      assert Front(s + t) == s + Front(t);
      RegisterConcat(start, s, Front(t));
    }
  }

  /** Changing any one byte of any message changes its checksum. */
  lemma DetectsOneByte(before: seq<bv8>, x: bv8, y: bv8, after: seq<bv8>)
    requires x != y
    ensures Crc32Of(before + [x] + after) != Crc32Of(before + [y] + after)
  {
    var r := Register(0xFFFF_FFFF, before);
    RegisterConcat(0xFFFF_FFFF, before + [x], after);
    RegisterConcat(0xFFFF_FFFF, before + [y], after);
    assert Front(before + [x]) == before && Front(before + [y]) == before;
    var a, b := Absorb(r, x), Absorb(r, y);
    AbsorbTellsApart(r, x, y);
    RegistersStayApart(a, b, after);
    XorCancels(Register(a, after), Register(b, after), 0xFFFF_FFFF);
  }

  lemma Stepped(before: seq<bv8>, ch: bv8, from: bv32, to: bv32)
    requires Register(0xFFFF_FFFF, before) == from && Update(Table, from, ch) == to
    ensures Register(0xFFFF_FFFF, before + [ch]) == to
  {
    AllEntries();
    UpdateAbsorbs(Table, from, ch);
    assert Front(before + [ch]) == before;
  }

  lemma SteppedThree(before: seq<bv8>, x: bv8, y: bv8, z: bv8, from: bv32, a: bv32, b: bv32, to: bv32)
    requires Register(0xFFFF_FFFF, before) == from && Update(Table, from, x) == a
    requires Update(Table, a, y) == b && Update(Table, b, z) == to
    ensures Register(0xFFFF_FFFF, before + [x, y, z]) == to
  {
    Stepped(before, x, from, a);
    Stepped(before + [x], y, a, b);
    Stepped(before + [x] + [y], z, b, to);
    assert before + [x] + [y] + [z] == before + [x, y, z];
  }

  lemma FirstDigits()
    ensures Update(Table, 0xFFFF_FFFF, 0x31) == 0x7c231048
    ensures Update(Table, 0x7c231048, 0x32) == 0xb0acbb32
    ensures Update(Table, 0xb0acbb32, 0x33) == 0x77b79c2d
  {
  }

  lemma MiddleDigits()
    ensures Update(Table, 0x77b79c2d, 0x34) == 0x641c1f5c
    ensures Update(Table, 0x641c1f5c, 0x35) == 0x340ac5e3
    ensures Update(Table, 0x340ac5e3, 0x36) == 0xf68d2c9e
  {
  }

  lemma LastDigits()
    ensures Update(Table, 0xf68d2c9e, 0x37) == 0xaffc9660
    ensures Update(Table, 0xaffc9660, 0x38) == 0x651f2550
    ensures Update(Table, 0x651f2550, 0x39) == 0x340bc6d9
  {
  }

  /** The check value of this checksum: that of the nine digits from 1 to 9. */
  lemma CheckValue()
    ensures Crc32Of([0x31, 0x32, 0x33] + [0x34, 0x35, 0x36] + [0x37, 0x38, 0x39]) == 0xCBF43926
  {
    FirstDigits();
    MiddleDigits();
    LastDigits();
    var first := [0x31, 0x32, 0x33];
    var middle := first + [0x34, 0x35, 0x36];
    assert [] + first == first;
    SteppedThree([], 0x31, 0x32, 0x33, 0xFFFF_FFFF, 0x7c231048, 0xb0acbb32, 0x77b79c2d);
    SteppedThree(first, 0x34, 0x35, 0x36, 0x77b79c2d, 0x641c1f5c, 0x340ac5e3, 0xf68d2c9e);
    SteppedThree(middle, 0x37, 0x38, 0x39, 0xf68d2c9e, 0xaffc9660, 0x651f2550, 0x340bc6d9);
  }
}
