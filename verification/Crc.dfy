// CRC-32 (section 8 of RFC 1952): bit by bit, by table, and on one 32-bit word.
module Crc {
  function Xor(a: bv32, b: bv32): bv32 { a ^ b }

  function Shift8(r: bv32): bv32 { r >> 8 }

  function LowByte(r: bv32): bv32 { r & 0xff }

  function HighBytes(r: bv32): bv32 { r & 0xffff_ff00 }

  /** One bit: shift right; if the bit shifted out was set, xor the reversed polynomial 0x04c11db7. */
  function BitStep(r: bv32): bv32 {
    if r & 1 != 0 then (r >> 1) ^ 0xedb8_8320 else r >> 1
  }

  function Steps(r: bv32, n: nat): bv32 {
    if n == 0 then r else BitStep(Steps(r, n - 1))
  }

  /** The register after the bytes of `data`: each byte is xored in and shifted out bit by bit. */
  function Register(data: seq<bv8>): bv32 {
    if data == [] then 0xffff_ffff
    else Steps(Xor(Register(data[..|data| - 1]), data[|data| - 1] as bv32), 8)
  }

  /** The CRC of section 8 of RFC 1952. */
  function Crc32(data: seq<bv8>): bv32 { Xor(Register(data), 0xffff_ffff) }

  // ----- Eight bits at once -----

  function EightSteps(r: bv32): bv32 {
    BitStep(BitStep(BitStep(BitStep(BitStep(BitStep(BitStep(BitStep(r))))))))
  }

  lemma StepLinear(a: bv32, b: bv32, c: bv32)
    requires c == a ^ b
    ensures BitStep(c) == BitStep(a) ^ BitStep(b)
  {
    if a & 1 != 0 && b & 1 != 0 {
      assert c & 1 == 0;
    } else if a & 1 != 0 || b & 1 != 0 {
      assert c & 1 != 0;
    }
  }

  lemma BitLinear(a: bv32, b: bv32)
    ensures BitStep(Xor(a, b)) == Xor(BitStep(a), BitStep(b))
  {
    hide BitStep;
    StepLinear(a, b, Xor(a, b));
  }

  lemma {:induction false} StepsLinear(a: bv32, b: bv32, n: nat)
    ensures Steps(Xor(a, b), n) == Xor(Steps(a, n), Steps(b, n))
  {
    hide BitStep, Xor;
    if n > 0 {
      StepsLinear(a, b, n - 1);
      BitLinear(Steps(a, n - 1), Steps(b, n - 1));
    }
  }

  lemma EightIs(r: bv32)
    ensures Steps(r, 8) == EightSteps(r)
  {
    hide BitStep;
    assert Steps(r, 0) == r;
    assert Steps(r, 2) == BitStep(BitStep(r));
    assert Steps(r, 4) == BitStep(BitStep(Steps(r, 2)));
    assert Steps(r, 6) == BitStep(BitStep(Steps(r, 4)));
  }

  lemma HighShift(r: bv32)
    ensures EightSteps(HighBytes(r)) == Shift8(r)
  {
  }

  lemma Parts(r: bv32)
    ensures r == Xor(HighBytes(r), LowByte(r))
  {
  }

  /** Eight steps move the register down by a byte and mix in what eight steps make of its low byte. */
  lemma ByteAtATime(r: bv32)
    ensures Steps(r, 8) == Xor(Shift8(r), EightSteps(LowByte(r)))
  {
    hide EightSteps, Xor, Shift8, LowByte, HighBytes, Steps;
    Parts(r);
    StepsLinear(HighBytes(r), LowByte(r), 8);
    EightIs(HighBytes(r));
    EightIs(LowByte(r));
    HighShift(r);
  }

  // ----- crc_32_tab -----

  function Row0(x: bv32): bv32 {
    if x == 0x00 then 0x00000000 else if x == 0x01 then 0x77073096 else if x == 0x02 then 0xee0e612c
    else if x == 0x03 then 0x990951ba else if x == 0x04 then 0x076dc419 else if x == 0x05 then 0x706af48f
    else if x == 0x06 then 0xe963a535 else if x == 0x07 then 0x9e6495a3 else if x == 0x08 then 0x0edb8832
    else if x == 0x09 then 0x79dcb8a4 else if x == 0x0a then 0xe0d5e91e else if x == 0x0b then 0x97d2d988
    else if x == 0x0c then 0x09b64c2b else if x == 0x0d then 0x7eb17cbd else if x == 0x0e then 0xe7b82d07
    else 0x90bf1d91
  }

  function Row1(x: bv32): bv32 {
    if x == 0x10 then 0x1db71064 else if x == 0x11 then 0x6ab020f2 else if x == 0x12 then 0xf3b97148
    else if x == 0x13 then 0x84be41de else if x == 0x14 then 0x1adad47d else if x == 0x15 then 0x6ddde4eb
    else if x == 0x16 then 0xf4d4b551 else if x == 0x17 then 0x83d385c7 else if x == 0x18 then 0x136c9856
    else if x == 0x19 then 0x646ba8c0 else if x == 0x1a then 0xfd62f97a else if x == 0x1b then 0x8a65c9ec
    else if x == 0x1c then 0x14015c4f else if x == 0x1d then 0x63066cd9 else if x == 0x1e then 0xfa0f3d63
    else 0x8d080df5
  }

  function Row2(x: bv32): bv32 {
    if x == 0x20 then 0x3b6e20c8 else if x == 0x21 then 0x4c69105e else if x == 0x22 then 0xd56041e4
    else if x == 0x23 then 0xa2677172 else if x == 0x24 then 0x3c03e4d1 else if x == 0x25 then 0x4b04d447
    else if x == 0x26 then 0xd20d85fd else if x == 0x27 then 0xa50ab56b else if x == 0x28 then 0x35b5a8fa
    else if x == 0x29 then 0x42b2986c else if x == 0x2a then 0xdbbbc9d6 else if x == 0x2b then 0xacbcf940
    else if x == 0x2c then 0x32d86ce3 else if x == 0x2d then 0x45df5c75 else if x == 0x2e then 0xdcd60dcf
    else 0xabd13d59
  }

  function Row3(x: bv32): bv32 {
    if x == 0x30 then 0x26d930ac else if x == 0x31 then 0x51de003a else if x == 0x32 then 0xc8d75180
    else if x == 0x33 then 0xbfd06116 else if x == 0x34 then 0x21b4f4b5 else if x == 0x35 then 0x56b3c423
    else if x == 0x36 then 0xcfba9599 else if x == 0x37 then 0xb8bda50f else if x == 0x38 then 0x2802b89e
    else if x == 0x39 then 0x5f058808 else if x == 0x3a then 0xc60cd9b2 else if x == 0x3b then 0xb10be924
    else if x == 0x3c then 0x2f6f7c87 else if x == 0x3d then 0x58684c11 else if x == 0x3e then 0xc1611dab
    else 0xb6662d3d
  }

  function Row4(x: bv32): bv32 {
    if x == 0x40 then 0x76dc4190 else if x == 0x41 then 0x01db7106 else if x == 0x42 then 0x98d220bc
    else if x == 0x43 then 0xefd5102a else if x == 0x44 then 0x71b18589 else if x == 0x45 then 0x06b6b51f
    else if x == 0x46 then 0x9fbfe4a5 else if x == 0x47 then 0xe8b8d433 else if x == 0x48 then 0x7807c9a2
    else if x == 0x49 then 0x0f00f934 else if x == 0x4a then 0x9609a88e else if x == 0x4b then 0xe10e9818
    else if x == 0x4c then 0x7f6a0dbb else if x == 0x4d then 0x086d3d2d else if x == 0x4e then 0x91646c97
    else 0xe6635c01
  }

  function Row5(x: bv32): bv32 {
    if x == 0x50 then 0x6b6b51f4 else if x == 0x51 then 0x1c6c6162 else if x == 0x52 then 0x856530d8
    else if x == 0x53 then 0xf262004e else if x == 0x54 then 0x6c0695ed else if x == 0x55 then 0x1b01a57b
    else if x == 0x56 then 0x8208f4c1 else if x == 0x57 then 0xf50fc457 else if x == 0x58 then 0x65b0d9c6
    else if x == 0x59 then 0x12b7e950 else if x == 0x5a then 0x8bbeb8ea else if x == 0x5b then 0xfcb9887c
    else if x == 0x5c then 0x62dd1ddf else if x == 0x5d then 0x15da2d49 else if x == 0x5e then 0x8cd37cf3
    else 0xfbd44c65
  }

  function Row6(x: bv32): bv32 {
    if x == 0x60 then 0x4db26158 else if x == 0x61 then 0x3ab551ce else if x == 0x62 then 0xa3bc0074
    else if x == 0x63 then 0xd4bb30e2 else if x == 0x64 then 0x4adfa541 else if x == 0x65 then 0x3dd895d7
    else if x == 0x66 then 0xa4d1c46d else if x == 0x67 then 0xd3d6f4fb else if x == 0x68 then 0x4369e96a
    else if x == 0x69 then 0x346ed9fc else if x == 0x6a then 0xad678846 else if x == 0x6b then 0xda60b8d0
    else if x == 0x6c then 0x44042d73 else if x == 0x6d then 0x33031de5 else if x == 0x6e then 0xaa0a4c5f
    else 0xdd0d7cc9
  }

  function Row7(x: bv32): bv32 {
    if x == 0x70 then 0x5005713c else if x == 0x71 then 0x270241aa else if x == 0x72 then 0xbe0b1010
    else if x == 0x73 then 0xc90c2086 else if x == 0x74 then 0x5768b525 else if x == 0x75 then 0x206f85b3
    else if x == 0x76 then 0xb966d409 else if x == 0x77 then 0xce61e49f else if x == 0x78 then 0x5edef90e
    else if x == 0x79 then 0x29d9c998 else if x == 0x7a then 0xb0d09822 else if x == 0x7b then 0xc7d7a8b4
    else if x == 0x7c then 0x59b33d17 else if x == 0x7d then 0x2eb40d81 else if x == 0x7e then 0xb7bd5c3b
    else 0xc0ba6cad
  }

  function Row8(x: bv32): bv32 {
    if x == 0x80 then 0xedb88320 else if x == 0x81 then 0x9abfb3b6 else if x == 0x82 then 0x03b6e20c
    else if x == 0x83 then 0x74b1d29a else if x == 0x84 then 0xead54739 else if x == 0x85 then 0x9dd277af
    else if x == 0x86 then 0x04db2615 else if x == 0x87 then 0x73dc1683 else if x == 0x88 then 0xe3630b12
    else if x == 0x89 then 0x94643b84 else if x == 0x8a then 0x0d6d6a3e else if x == 0x8b then 0x7a6a5aa8
    else if x == 0x8c then 0xe40ecf0b else if x == 0x8d then 0x9309ff9d else if x == 0x8e then 0x0a00ae27
    else 0x7d079eb1
  }

  function Row9(x: bv32): bv32 {
    if x == 0x90 then 0xf00f9344 else if x == 0x91 then 0x8708a3d2 else if x == 0x92 then 0x1e01f268
    else if x == 0x93 then 0x6906c2fe else if x == 0x94 then 0xf762575d else if x == 0x95 then 0x806567cb
    else if x == 0x96 then 0x196c3671 else if x == 0x97 then 0x6e6b06e7 else if x == 0x98 then 0xfed41b76
    else if x == 0x99 then 0x89d32be0 else if x == 0x9a then 0x10da7a5a else if x == 0x9b then 0x67dd4acc
    else if x == 0x9c then 0xf9b9df6f else if x == 0x9d then 0x8ebeeff9 else if x == 0x9e then 0x17b7be43
    else 0x60b08ed5
  }

  function Row10(x: bv32): bv32 {
    if x == 0xa0 then 0xd6d6a3e8 else if x == 0xa1 then 0xa1d1937e else if x == 0xa2 then 0x38d8c2c4
    else if x == 0xa3 then 0x4fdff252 else if x == 0xa4 then 0xd1bb67f1 else if x == 0xa5 then 0xa6bc5767
    else if x == 0xa6 then 0x3fb506dd else if x == 0xa7 then 0x48b2364b else if x == 0xa8 then 0xd80d2bda
    else if x == 0xa9 then 0xaf0a1b4c else if x == 0xaa then 0x36034af6 else if x == 0xab then 0x41047a60
    else if x == 0xac then 0xdf60efc3 else if x == 0xad then 0xa867df55 else if x == 0xae then 0x316e8eef
    else 0x4669be79
  }

  function Row11(x: bv32): bv32 {
    if x == 0xb0 then 0xcb61b38c else if x == 0xb1 then 0xbc66831a else if x == 0xb2 then 0x256fd2a0
    else if x == 0xb3 then 0x5268e236 else if x == 0xb4 then 0xcc0c7795 else if x == 0xb5 then 0xbb0b4703
    else if x == 0xb6 then 0x220216b9 else if x == 0xb7 then 0x5505262f else if x == 0xb8 then 0xc5ba3bbe
    else if x == 0xb9 then 0xb2bd0b28 else if x == 0xba then 0x2bb45a92 else if x == 0xbb then 0x5cb36a04
    else if x == 0xbc then 0xc2d7ffa7 else if x == 0xbd then 0xb5d0cf31 else if x == 0xbe then 0x2cd99e8b
    else 0x5bdeae1d
  }

  function Row12(x: bv32): bv32 {
    if x == 0xc0 then 0x9b64c2b0 else if x == 0xc1 then 0xec63f226 else if x == 0xc2 then 0x756aa39c
    else if x == 0xc3 then 0x026d930a else if x == 0xc4 then 0x9c0906a9 else if x == 0xc5 then 0xeb0e363f
    else if x == 0xc6 then 0x72076785 else if x == 0xc7 then 0x05005713 else if x == 0xc8 then 0x95bf4a82
    else if x == 0xc9 then 0xe2b87a14 else if x == 0xca then 0x7bb12bae else if x == 0xcb then 0x0cb61b38
    else if x == 0xcc then 0x92d28e9b else if x == 0xcd then 0xe5d5be0d else if x == 0xce then 0x7cdcefb7
    else 0x0bdbdf21
  }

  function Row13(x: bv32): bv32 {
    if x == 0xd0 then 0x86d3d2d4 else if x == 0xd1 then 0xf1d4e242 else if x == 0xd2 then 0x68ddb3f8
    else if x == 0xd3 then 0x1fda836e else if x == 0xd4 then 0x81be16cd else if x == 0xd5 then 0xf6b9265b
    else if x == 0xd6 then 0x6fb077e1 else if x == 0xd7 then 0x18b74777 else if x == 0xd8 then 0x88085ae6
    else if x == 0xd9 then 0xff0f6a70 else if x == 0xda then 0x66063bca else if x == 0xdb then 0x11010b5c
    else if x == 0xdc then 0x8f659eff else if x == 0xdd then 0xf862ae69 else if x == 0xde then 0x616bffd3
    else 0x166ccf45
  }

  function Row14(x: bv32): bv32 {
    if x == 0xe0 then 0xa00ae278 else if x == 0xe1 then 0xd70dd2ee else if x == 0xe2 then 0x4e048354
    else if x == 0xe3 then 0x3903b3c2 else if x == 0xe4 then 0xa7672661 else if x == 0xe5 then 0xd06016f7
    else if x == 0xe6 then 0x4969474d else if x == 0xe7 then 0x3e6e77db else if x == 0xe8 then 0xaed16a4a
    else if x == 0xe9 then 0xd9d65adc else if x == 0xea then 0x40df0b66 else if x == 0xeb then 0x37d83bf0
    else if x == 0xec then 0xa9bcae53 else if x == 0xed then 0xdebb9ec5 else if x == 0xee then 0x47b2cf7f
    else 0x30b5ffe9
  }

  function Row15(x: bv32): bv32 {
    if x == 0xf0 then 0xbdbdf21c else if x == 0xf1 then 0xcabac28a else if x == 0xf2 then 0x53b39330
    else if x == 0xf3 then 0x24b4a3a6 else if x == 0xf4 then 0xbad03605 else if x == 0xf5 then 0xcdd70693
    else if x == 0xf6 then 0x54de5729 else if x == 0xf7 then 0x23d967bf else if x == 0xf8 then 0xb3667a2e
    else if x == 0xf9 then 0xc4614ab8 else if x == 0xfa then 0x5d681b02 else if x == 0xfb then 0x2a6f2b94
    else if x == 0xfc then 0xb40bbe37 else if x == 0xfd then 0xc30c8ea1 else if x == 0xfe then 0x5a05df1b
    else 0x2d02ef8d
  }

  function Entry(x: bv32): bv32 {
    if x < 0x80 then
      if x < 0x40 then if x < 0x20 then if x < 0x10 then Row0(x) else Row1(x) else if x < 0x30 then Row2(x) else Row3(x)
      else if x < 0x60 then if x < 0x50 then Row4(x) else Row5(x) else if x < 0x70 then Row6(x) else Row7(x)
    else
      if x < 0xc0 then if x < 0xa0 then if x < 0x90 then Row8(x) else Row9(x) else if x < 0xb0 then Row10(x) else Row11(x)
      else if x < 0xe0 then if x < 0xd0 then Row12(x) else Row13(x) else if x < 0xf0 then Row14(x) else Row15(x)
  }

  lemma RowIs0(x: bv32)
    requires 0x00 <= x <= 0x0f
    ensures Row0(x) == EightSteps(x)
  {
  }

  lemma RowIs1(x: bv32)
    requires 0x10 <= x <= 0x1f
    ensures Row1(x) == EightSteps(x)
  {
  }

  lemma RowIs2(x: bv32)
    requires 0x20 <= x <= 0x2f
    ensures Row2(x) == EightSteps(x)
  {
  }

  lemma RowIs3(x: bv32)
    requires 0x30 <= x <= 0x3f
    ensures Row3(x) == EightSteps(x)
  {
  }

  lemma RowIs4(x: bv32)
    requires 0x40 <= x <= 0x4f
    ensures Row4(x) == EightSteps(x)
  {
  }

  lemma RowIs5(x: bv32)
    requires 0x50 <= x <= 0x5f
    ensures Row5(x) == EightSteps(x)
  {
  }

  lemma RowIs6(x: bv32)
    requires 0x60 <= x <= 0x6f
    ensures Row6(x) == EightSteps(x)
  {
  }

  lemma RowIs7(x: bv32)
    requires 0x70 <= x <= 0x7f
    ensures Row7(x) == EightSteps(x)
  {
  }

  lemma RowIs8(x: bv32)
    requires 0x80 <= x <= 0x8f
    ensures Row8(x) == EightSteps(x)
  {
  }

  lemma RowIs9(x: bv32)
    requires 0x90 <= x <= 0x9f
    ensures Row9(x) == EightSteps(x)
  {
  }

  lemma RowIs10(x: bv32)
    requires 0xa0 <= x <= 0xaf
    ensures Row10(x) == EightSteps(x)
  {
  }

  lemma RowIs11(x: bv32)
    requires 0xb0 <= x <= 0xbf
    ensures Row11(x) == EightSteps(x)
  {
  }

  lemma RowIs12(x: bv32)
    requires 0xc0 <= x <= 0xcf
    ensures Row12(x) == EightSteps(x)
  {
  }

  lemma RowIs13(x: bv32)
    requires 0xd0 <= x <= 0xdf
    ensures Row13(x) == EightSteps(x)
  {
  }

  lemma RowIs14(x: bv32)
    requires 0xe0 <= x <= 0xef
    ensures Row14(x) == EightSteps(x)
  {
  }

  lemma RowIs15(x: bv32)
    requires 0xf0 <= x <= 0xff
    ensures Row15(x) == EightSteps(x)
  {
  }

  /** Every table entry is eight bitwise steps of its index. */
  lemma EntryIs(x: bv32)
    requires x < 256
    ensures Entry(x) == EightSteps(x)
  {
    hide EightSteps, Row0, Row1, Row2, Row3, Row4, Row5, Row6, Row7, Row8, Row9, Row10, Row11, Row12, Row13, Row14, Row15;
    if x < 0x80 {
      if x < 0x40 {
        if x < 0x20 { if x < 0x10 { RowIs0(x); } else { RowIs1(x); } } else if x < 0x30 { RowIs2(x); } else { RowIs3(x); }
      } else if x < 0x60 {
        if x < 0x50 { RowIs4(x); } else { RowIs5(x); }
      } else if x < 0x70 { RowIs6(x); } else { RowIs7(x); }
    } else if x < 0xc0 {
      if x < 0xa0 { if x < 0x90 { RowIs8(x); } else { RowIs9(x); } } else if x < 0xb0 { RowIs10(x); } else { RowIs11(x); }
    } else if x < 0xe0 {
      if x < 0xd0 { RowIs12(x); } else { RowIs13(x); }
    } else if x < 0xf0 { RowIs14(x); } else { RowIs15(x); }
  }

  /** Line 110: one byte by table. */
  function TableStep(crc: bv32, d: bv8): bv32 { Xor(Shift8(crc), Entry(LowByte(Xor(crc, d as bv32)))) }

  lemma ByteOnly(crc: bv32, d: bv8)
    ensures Shift8(Xor(crc, d as bv32)) == Shift8(crc) && LowByte(Xor(crc, d as bv32)) < 256
  {
  }

  lemma TableStepIs(crc: bv32, d: bv8)
    ensures TableStep(crc, d) == Steps(Xor(crc, d as bv32), 8)
  {
    hide EightSteps, Entry, Xor, Shift8, LowByte, Steps;
    var r := Xor(crc, d as bv32);
    ByteOnly(crc, d);
    EntryIs(LowByte(r));
    ByteAtATime(r);
  }

  lemma RegisterNext(data: seq<bv8>, i: nat)
    requires i < |data|
    ensures Register(data[..i + 1]) == Steps(Xor(Register(data[..i]), data[i] as bv32), 8)
  {
    assert data[..i + 1][..i] == data[..i];
  }

  method GetCrc32Small(data: seq<bv8>) returns (r: bv32)
    ensures r == Crc32(data)
  {
    hide BitStep, Xor, Register;
    RegisterNone();
    r := 0xffff_ffff;
    for i := 0 to |data|
      invariant r == Register(data[..i])
    {
      RegisterNext(data, i);
      r := Xor(r, data[i] as bv32);
      ghost var r0 := r;
      for b := 0 to 8
        invariant r == Steps(r0, b)
      {
        r := BitStep(r);
      }
    }
    assert data[..|data|] == data;
    r := Xor(r, 0xffff_ffff);
  }

  lemma RegisterNone()
    ensures forall data: seq<bv8> :: |data| == 0 ==> Register(data) == 0xffff_ffff
  {
  }

  method GetCrc32Large(data: seq<bv8>) returns (crc: bv32)
    ensures crc == Crc32(data)
  {
    hide Xor, Register, Steps, TableStep;
    RegisterNone();
    crc := 0xffff_ffff;
    for i := 0 to |data|
      invariant crc == Register(data[..i])
    {
      RegisterNext(data, i);
      TableStepIs(crc, data[i]);
      crc := TableStep(crc, data[i]);
    }
    assert data[..|data|] == data;
    crc := Xor(crc, 0xffff_ffff);
  }

  /** The bytes of a word in memory. */
  function BytesOf(w: bv32): (d: seq<bv8>)
    ensures |d| == 4
  {
    [(w & 0xff) as bv8, ((w >> 8) & 0xff) as bv8, ((w >> 16) & 0xff) as bv8, (w >> 24) as bv8]
  }

  /** The lowest byte first. */
  lemma BytesOfIs(w: bv32)
    ensures var d := BytesOf(w); (d[3] as bv32 << 24) | (d[2] as bv32 << 16) | (d[1] as bv32 << 8) | d[0] as bv32 == w
  {
  }

  /** crc32int */
  function Crc32Int(w: bv32): bv32 {
    var d := BytesOf(w);
    Xor(TableStep(TableStep(TableStep(TableStep(0xffff_ffff, d[0]), d[1]), d[2]), d[3]), 0xffff_ffff)
  }

  /** crc32int is the CRC of the four bytes. */
  lemma Crc32IntIsCrc(w: bv32)
    ensures Crc32Int(w) == Crc32(BytesOf(w))
  {
    hide Xor, Register, Steps, TableStep, BytesOf;
    RegisterNone();
    var d := BytesOf(w);
    var r0, r1, r2, r3 := Register(d[..0]), Register(d[..1]), Register(d[..2]), Register(d[..3]);
    RegisterNext(d, 0);
    RegisterNext(d, 1);
    RegisterNext(d, 2);
    RegisterNext(d, 3);
    TableStepIs(r0, d[0]);
    TableStepIs(r1, d[1]);
    TableStepIs(r2, d[2]);
    TableStepIs(r3, d[3]);
    assert d[..4] == d;
  }

  /** One byte more on a known register. */
  lemma Further(data: seq<bv8>, r: bv32, b: bv8, next: bv32, longer: seq<bv8>)
    requires Register(data) == r && EightSteps(r ^ (b as bv32)) == next && longer == data + [b]
    ensures Register(longer) == next
  {
    hide EightSteps, Steps;
    assert longer[..|data|] == data;
    EightIs(Xor(r, b as bv32));
  }

  lemma CheckSteps()
    ensures EightSteps(0xffff_ffff ^ (0x31 as bv8) as bv32) == 0x7c23_1048
    ensures EightSteps(0x7c23_1048 ^ (0x32 as bv8) as bv32) == 0xb0ac_bb32
    ensures EightSteps(0xb0ac_bb32 ^ (0x33 as bv8) as bv32) == 0x77b7_9c2d
    ensures EightSteps(0x77b7_9c2d ^ (0x34 as bv8) as bv32) == 0x641c_1f5c
    ensures EightSteps(0x641c_1f5c ^ (0x35 as bv8) as bv32) == 0x340a_c5e3
    ensures EightSteps(0x340a_c5e3 ^ (0x36 as bv8) as bv32) == 0xf68d_2c9e
    ensures EightSteps(0xf68d_2c9e ^ (0x37 as bv8) as bv32) == 0xaffc_9660
    ensures EightSteps(0xaffc_9660 ^ (0x38 as bv8) as bv32) == 0x651f_2550
    ensures EightSteps(0x651f_2550 ^ (0x39 as bv8) as bv32) == 0x340b_c6d9
  {
  }

  /** The check value of CRC-32: the CRC of the nine digits 123456789 is 0xcbf43926. */
  lemma CheckValue()
    ensures Crc32([0x31, 0x32, 0x33, 0x34, 0x35, 0x36, 0x37, 0x38, 0x39]) == 0xcbf4_3926
  {
    hide EightSteps, Register;
    RegisterNone();
    CheckSteps();
    Further([], 0xffff_ffff, 0x31, 0x7c23_1048, [0x31]);
    Further([0x31], 0x7c23_1048, 0x32, 0xb0ac_bb32, [0x31, 0x32]);
    Further([0x31, 0x32], 0xb0ac_bb32, 0x33, 0x77b7_9c2d, [0x31, 0x32, 0x33]);
    Further([0x31, 0x32, 0x33], 0x77b7_9c2d, 0x34, 0x641c_1f5c, [0x31, 0x32, 0x33, 0x34]);
    Further([0x31, 0x32, 0x33, 0x34], 0x641c_1f5c, 0x35, 0x340a_c5e3, [0x31, 0x32, 0x33, 0x34, 0x35]);
    Further([0x31, 0x32, 0x33, 0x34, 0x35], 0x340a_c5e3, 0x36, 0xf68d_2c9e, [0x31, 0x32, 0x33, 0x34, 0x35, 0x36]);
    Further([0x31, 0x32, 0x33, 0x34, 0x35, 0x36], 0xf68d_2c9e, 0x37, 0xaffc_9660, [0x31, 0x32, 0x33, 0x34, 0x35, 0x36, 0x37]);
    Further([0x31, 0x32, 0x33, 0x34, 0x35, 0x36, 0x37], 0xaffc_9660, 0x38, 0x651f_2550, [0x31, 0x32, 0x33, 0x34, 0x35, 0x36, 0x37, 0x38]);
    Further([0x31, 0x32, 0x33, 0x34, 0x35, 0x36, 0x37, 0x38], 0x651f_2550, 0x39, 0x340b_c6d9, [0x31, 0x32, 0x33, 0x34, 0x35, 0x36, 0x37, 0x38, 0x39]);
  }
}
