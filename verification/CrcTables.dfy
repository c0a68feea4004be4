/** The two checksum tables, as `internal/utils/crc16.go` and `internal/utils/crc64.go` list them: sixteen
    entries to a row, chosen by the low half of the index. */
module CrcTables {
  function Crc160(lo: bv8): bv16 {
    if lo == 0 then 0x0000 else if lo == 1 then 0x1021 else if lo == 2 then 0x2042 else if lo == 3 then 0x3063 else
    if lo == 4 then 0x4084 else if lo == 5 then 0x50a5 else if lo == 6 then 0x60c6 else if lo == 7 then 0x70e7 else
    if lo == 8 then 0x8108 else if lo == 9 then 0x9129 else if lo == 10 then 0xa14a else if lo == 11 then 0xb16b else
    if lo == 12 then 0xc18c else if lo == 13 then 0xd1ad else if lo == 14 then 0xe1ce else 0xf1ef
  }

  function Crc161(lo: bv8): bv16 {
    if lo == 0 then 0x1231 else if lo == 1 then 0x0210 else if lo == 2 then 0x3273 else if lo == 3 then 0x2252 else
    if lo == 4 then 0x52b5 else if lo == 5 then 0x4294 else if lo == 6 then 0x72f7 else if lo == 7 then 0x62d6 else
    if lo == 8 then 0x9339 else if lo == 9 then 0x8318 else if lo == 10 then 0xb37b else if lo == 11 then 0xa35a else
    if lo == 12 then 0xd3bd else if lo == 13 then 0xc39c else if lo == 14 then 0xf3ff else 0xe3de
  }

  function Crc162(lo: bv8): bv16 {
    if lo == 0 then 0x2462 else if lo == 1 then 0x3443 else if lo == 2 then 0x0420 else if lo == 3 then 0x1401 else
    if lo == 4 then 0x64e6 else if lo == 5 then 0x74c7 else if lo == 6 then 0x44a4 else if lo == 7 then 0x5485 else
    if lo == 8 then 0xa56a else if lo == 9 then 0xb54b else if lo == 10 then 0x8528 else if lo == 11 then 0x9509 else
    if lo == 12 then 0xe5ee else if lo == 13 then 0xf5cf else if lo == 14 then 0xc5ac else 0xd58d
  }

  function Crc163(lo: bv8): bv16 {
    if lo == 0 then 0x3653 else if lo == 1 then 0x2672 else if lo == 2 then 0x1611 else if lo == 3 then 0x0630 else
    if lo == 4 then 0x76d7 else if lo == 5 then 0x66f6 else if lo == 6 then 0x5695 else if lo == 7 then 0x46b4 else
    if lo == 8 then 0xb75b else if lo == 9 then 0xa77a else if lo == 10 then 0x9719 else if lo == 11 then 0x8738 else
    if lo == 12 then 0xf7df else if lo == 13 then 0xe7fe else if lo == 14 then 0xd79d else 0xc7bc
  }

  function Crc164(lo: bv8): bv16 {
    if lo == 0 then 0x48c4 else if lo == 1 then 0x58e5 else if lo == 2 then 0x6886 else if lo == 3 then 0x78a7 else
    if lo == 4 then 0x0840 else if lo == 5 then 0x1861 else if lo == 6 then 0x2802 else if lo == 7 then 0x3823 else
    if lo == 8 then 0xc9cc else if lo == 9 then 0xd9ed else if lo == 10 then 0xe98e else if lo == 11 then 0xf9af else
    if lo == 12 then 0x8948 else if lo == 13 then 0x9969 else if lo == 14 then 0xa90a else 0xb92b
  }

  function Crc165(lo: bv8): bv16 {
    if lo == 0 then 0x5af5 else if lo == 1 then 0x4ad4 else if lo == 2 then 0x7ab7 else if lo == 3 then 0x6a96 else
    if lo == 4 then 0x1a71 else if lo == 5 then 0x0a50 else if lo == 6 then 0x3a33 else if lo == 7 then 0x2a12 else
    if lo == 8 then 0xdbfd else if lo == 9 then 0xcbdc else if lo == 10 then 0xfbbf else if lo == 11 then 0xeb9e else
    if lo == 12 then 0x9b79 else if lo == 13 then 0x8b58 else if lo == 14 then 0xbb3b else 0xab1a
  }

  function Crc166(lo: bv8): bv16 {
    if lo == 0 then 0x6ca6 else if lo == 1 then 0x7c87 else if lo == 2 then 0x4ce4 else if lo == 3 then 0x5cc5 else
    if lo == 4 then 0x2c22 else if lo == 5 then 0x3c03 else if lo == 6 then 0x0c60 else if lo == 7 then 0x1c41 else
    if lo == 8 then 0xedae else if lo == 9 then 0xfd8f else if lo == 10 then 0xcdec else if lo == 11 then 0xddcd else
    if lo == 12 then 0xad2a else if lo == 13 then 0xbd0b else if lo == 14 then 0x8d68 else 0x9d49
  }

  function Crc167(lo: bv8): bv16 {
    if lo == 0 then 0x7e97 else if lo == 1 then 0x6eb6 else if lo == 2 then 0x5ed5 else if lo == 3 then 0x4ef4 else
    if lo == 4 then 0x3e13 else if lo == 5 then 0x2e32 else if lo == 6 then 0x1e51 else if lo == 7 then 0x0e70 else
    if lo == 8 then 0xff9f else if lo == 9 then 0xefbe else if lo == 10 then 0xdfdd else if lo == 11 then 0xcffc else
    if lo == 12 then 0xbf1b else if lo == 13 then 0xaf3a else if lo == 14 then 0x9f59 else 0x8f78
  }

  function Crc168(lo: bv8): bv16 {
    if lo == 0 then 0x9188 else if lo == 1 then 0x81a9 else if lo == 2 then 0xb1ca else if lo == 3 then 0xa1eb else
    if lo == 4 then 0xd10c else if lo == 5 then 0xc12d else if lo == 6 then 0xf14e else if lo == 7 then 0xe16f else
    if lo == 8 then 0x1080 else if lo == 9 then 0x00a1 else if lo == 10 then 0x30c2 else if lo == 11 then 0x20e3 else
    if lo == 12 then 0x5004 else if lo == 13 then 0x4025 else if lo == 14 then 0x7046 else 0x6067
  }

  function Crc169(lo: bv8): bv16 {
    if lo == 0 then 0x83b9 else if lo == 1 then 0x9398 else if lo == 2 then 0xa3fb else if lo == 3 then 0xb3da else
    if lo == 4 then 0xc33d else if lo == 5 then 0xd31c else if lo == 6 then 0xe37f else if lo == 7 then 0xf35e else
    if lo == 8 then 0x02b1 else if lo == 9 then 0x1290 else if lo == 10 then 0x22f3 else if lo == 11 then 0x32d2 else
    if lo == 12 then 0x4235 else if lo == 13 then 0x5214 else if lo == 14 then 0x6277 else 0x7256
  }

  function Crc1610(lo: bv8): bv16 {
    if lo == 0 then 0xb5ea else if lo == 1 then 0xa5cb else if lo == 2 then 0x95a8 else if lo == 3 then 0x8589 else
    if lo == 4 then 0xf56e else if lo == 5 then 0xe54f else if lo == 6 then 0xd52c else if lo == 7 then 0xc50d else
    if lo == 8 then 0x34e2 else if lo == 9 then 0x24c3 else if lo == 10 then 0x14a0 else if lo == 11 then 0x0481 else
    if lo == 12 then 0x7466 else if lo == 13 then 0x6447 else if lo == 14 then 0x5424 else 0x4405
  }

  function Crc1611(lo: bv8): bv16 {
    if lo == 0 then 0xa7db else if lo == 1 then 0xb7fa else if lo == 2 then 0x8799 else if lo == 3 then 0x97b8 else
    if lo == 4 then 0xe75f else if lo == 5 then 0xf77e else if lo == 6 then 0xc71d else if lo == 7 then 0xd73c else
    if lo == 8 then 0x26d3 else if lo == 9 then 0x36f2 else if lo == 10 then 0x0691 else if lo == 11 then 0x16b0 else
    if lo == 12 then 0x6657 else if lo == 13 then 0x7676 else if lo == 14 then 0x4615 else 0x5634
  }

  function Crc1612(lo: bv8): bv16 {
    if lo == 0 then 0xd94c else if lo == 1 then 0xc96d else if lo == 2 then 0xf90e else if lo == 3 then 0xe92f else
    if lo == 4 then 0x99c8 else if lo == 5 then 0x89e9 else if lo == 6 then 0xb98a else if lo == 7 then 0xa9ab else
    if lo == 8 then 0x5844 else if lo == 9 then 0x4865 else if lo == 10 then 0x7806 else if lo == 11 then 0x6827 else
    if lo == 12 then 0x18c0 else if lo == 13 then 0x08e1 else if lo == 14 then 0x3882 else 0x28a3
  }

  function Crc1613(lo: bv8): bv16 {
    if lo == 0 then 0xcb7d else if lo == 1 then 0xdb5c else if lo == 2 then 0xeb3f else if lo == 3 then 0xfb1e else
    if lo == 4 then 0x8bf9 else if lo == 5 then 0x9bd8 else if lo == 6 then 0xabbb else if lo == 7 then 0xbb9a else
    if lo == 8 then 0x4a75 else if lo == 9 then 0x5a54 else if lo == 10 then 0x6a37 else if lo == 11 then 0x7a16 else
    if lo == 12 then 0x0af1 else if lo == 13 then 0x1ad0 else if lo == 14 then 0x2ab3 else 0x3a92
  }

  function Crc1614(lo: bv8): bv16 {
    if lo == 0 then 0xfd2e else if lo == 1 then 0xed0f else if lo == 2 then 0xdd6c else if lo == 3 then 0xcd4d else
    if lo == 4 then 0xbdaa else if lo == 5 then 0xad8b else if lo == 6 then 0x9de8 else if lo == 7 then 0x8dc9 else
    if lo == 8 then 0x7c26 else if lo == 9 then 0x6c07 else if lo == 10 then 0x5c64 else if lo == 11 then 0x4c45 else
    if lo == 12 then 0x3ca2 else if lo == 13 then 0x2c83 else if lo == 14 then 0x1ce0 else 0x0cc1
  }

  function Crc1615(lo: bv8): bv16 {
    if lo == 0 then 0xef1f else if lo == 1 then 0xff3e else if lo == 2 then 0xcf5d else if lo == 3 then 0xdf7c else
    if lo == 4 then 0xaf9b else if lo == 5 then 0xbfba else if lo == 6 then 0x8fd9 else if lo == 7 then 0x9ff8 else
    if lo == 8 then 0x6e17 else if lo == 9 then 0x7e36 else if lo == 10 then 0x4e55 else if lo == 11 then 0x5e74 else
    if lo == 12 then 0x2e93 else if lo == 13 then 0x3eb2 else if lo == 14 then 0x0ed1 else 0x1ef0
  }

  function Crc16Table(i: bv8): bv16 {
    var hi, lo := i >> 4, i & 15;
    if hi == 0 then Crc160(lo)
    else if hi == 1 then Crc161(lo)
    else if hi == 2 then Crc162(lo)
    else if hi == 3 then Crc163(lo)
    else if hi == 4 then Crc164(lo)
    else if hi == 5 then Crc165(lo)
    else if hi == 6 then Crc166(lo)
    else if hi == 7 then Crc167(lo)
    else if hi == 8 then Crc168(lo)
    else if hi == 9 then Crc169(lo)
    else if hi == 10 then Crc1610(lo)
    else if hi == 11 then Crc1611(lo)
    else if hi == 12 then Crc1612(lo)
    else if hi == 13 then Crc1613(lo)
    else if hi == 14 then Crc1614(lo)
    else Crc1615(lo)
  }

  function Crc640(lo: bv8): bv64 {
    if lo == 0 then 0x0000000000000000 else if lo == 1 then 0x7ad870c830358979 else
    if lo == 2 then 0xf5b0e190606b12f2 else if lo == 3 then 0x8f689158505e9b8b else
    if lo == 4 then 0xc038e5739841b68f else if lo == 5 then 0xbae095bba8743ff6 else
    if lo == 6 then 0x358804e3f82aa47d else if lo == 7 then 0x4f50742bc81f2d04 else
    if lo == 8 then 0xab28ecb46814fe75 else if lo == 9 then 0xd1f09c7c5821770c else
    if lo == 10 then 0x5e980d24087fec87 else if lo == 11 then 0x24407dec384a65fe else
    if lo == 12 then 0x6b1009c7f05548fa else if lo == 13 then 0x11c8790fc060c183 else
    if lo == 14 then 0x9ea0e857903e5a08 else 0xe478989fa00bd371
  }

  function Crc641(lo: bv8): bv64 {
    if lo == 0 then 0x7d08ff3b88be6f81 else if lo == 1 then 0x07d08ff3b88be6f8 else
    if lo == 2 then 0x88b81eabe8d57d73 else if lo == 3 then 0xf2606e63d8e0f40a else
    if lo == 4 then 0xbd301a4810ffd90e else if lo == 5 then 0xc7e86a8020ca5077 else
    if lo == 6 then 0x4880fbd87094cbfc else if lo == 7 then 0x32588b1040a14285 else
    if lo == 8 then 0xd620138fe0aa91f4 else if lo == 9 then 0xacf86347d09f188d else
    if lo == 10 then 0x2390f21f80c18306 else if lo == 11 then 0x594882d7b0f40a7f else
    if lo == 12 then 0x1618f6fc78eb277b else if lo == 13 then 0x6cc0863448deae02 else
    if lo == 14 then 0xe3a8176c18803589 else 0x997067a428b5bcf0
  }

  function Crc642(lo: bv8): bv64 {
    if lo == 0 then 0xfa11fe77117cdf02 else if lo == 1 then 0x80c98ebf2149567b else
    if lo == 2 then 0x0fa11fe77117cdf0 else if lo == 3 then 0x75796f2f41224489 else
    if lo == 4 then 0x3a291b04893d698d else if lo == 5 then 0x40f16bccb908e0f4 else
    if lo == 6 then 0xcf99fa94e9567b7f else if lo == 7 then 0xb5418a5cd963f206 else
    if lo == 8 then 0x513912c379682177 else if lo == 9 then 0x2be1620b495da80e else
    if lo == 10 then 0xa489f35319033385 else if lo == 11 then 0xde51839b2936bafc else
    if lo == 12 then 0x9101f7b0e12997f8 else if lo == 13 then 0xebd98778d11c1e81 else
    if lo == 14 then 0x64b116208142850a else 0x1e6966e8b1770c73
  }

  function Crc643(lo: bv8): bv64 {
    if lo == 0 then 0x8719014c99c2b083 else if lo == 1 then 0xfdc17184a9f739fa else
    if lo == 2 then 0x72a9e0dcf9a9a271 else if lo == 3 then 0x08719014c99c2b08 else
    if lo == 4 then 0x4721e43f0183060c else if lo == 5 then 0x3df994f731b68f75 else
    if lo == 6 then 0xb29105af61e814fe else if lo == 7 then 0xc849756751dd9d87 else
    if lo == 8 then 0x2c31edf8f1d64ef6 else if lo == 9 then 0x56e99d30c1e3c78f else
    if lo == 10 then 0xd9810c6891bd5c04 else if lo == 11 then 0xa3597ca0a188d57d else
    if lo == 12 then 0xec09088b6997f879 else if lo == 13 then 0x96d1784359a27100 else
    if lo == 14 then 0x19b9e91b09fcea8b else 0x636199d339c963f2
  }

  function Crc644(lo: bv8): bv64 {
    if lo == 0 then 0xdf7adabd7a6e2d6f else if lo == 1 then 0xa5a2aa754a5ba416 else
    if lo == 2 then 0x2aca3b2d1a053f9d else if lo == 3 then 0x50124be52a30b6e4 else
    if lo == 4 then 0x1f423fcee22f9be0 else if lo == 5 then 0x659a4f06d21a1299 else
    if lo == 6 then 0xeaf2de5e82448912 else if lo == 7 then 0x902aae96b271006b else
    if lo == 8 then 0x74523609127ad31a else if lo == 9 then 0x0e8a46c1224f5a63 else
    if lo == 10 then 0x81e2d7997211c1e8 else if lo == 11 then 0xfb3aa75142244891 else
    if lo == 12 then 0xb46ad37a8a3b6595 else if lo == 13 then 0xceb2a3b2ba0eecec else
    if lo == 14 then 0x41da32eaea507767 else 0x3b024222da65fe1e
  }

  function Crc645(lo: bv8): bv64 {
    if lo == 0 then 0xa2722586f2d042ee else if lo == 1 then 0xd8aa554ec2e5cb97 else
    if lo == 2 then 0x57c2c41692bb501c else if lo == 3 then 0x2d1ab4dea28ed965 else
    if lo == 4 then 0x624ac0f56a91f461 else if lo == 5 then 0x1892b03d5aa47d18 else
    if lo == 6 then 0x97fa21650afae693 else if lo == 7 then 0xed2251ad3acf6fea else
    if lo == 8 then 0x095ac9329ac4bc9b else if lo == 9 then 0x7382b9faaaf135e2 else
    if lo == 10 then 0xfcea28a2faafae69 else if lo == 11 then 0x8632586aca9a2710 else
    if lo == 12 then 0xc9622c4102850a14 else if lo == 13 then 0xb3ba5c8932b0836d else
    if lo == 14 then 0x3cd2cdd162ee18e6 else 0x460abd1952db919f
  }

  function Crc646(lo: bv8): bv64 {
    if lo == 0 then 0x256b24ca6b12f26d else if lo == 1 then 0x5fb354025b277b14 else
    if lo == 2 then 0xd0dbc55a0b79e09f else if lo == 3 then 0xaa03b5923b4c69e6 else
    if lo == 4 then 0xe553c1b9f35344e2 else if lo == 5 then 0x9f8bb171c366cd9b else
    if lo == 6 then 0x10e3202993385610 else if lo == 7 then 0x6a3b50e1a30ddf69 else
    if lo == 8 then 0x8e43c87e03060c18 else if lo == 9 then 0xf49bb8b633338561 else
    if lo == 10 then 0x7bf329ee636d1eea else if lo == 11 then 0x012b592653589793 else
    if lo == 12 then 0x4e7b2d0d9b47ba97 else if lo == 13 then 0x34a35dc5ab7233ee else
    if lo == 14 then 0xbbcbcc9dfb2ca865 else 0xc113bc55cb19211c
  }

  function Crc647(lo: bv8): bv64 {
    if lo == 0 then 0x5863dbf1e3ac9dec else if lo == 1 then 0x22bbab39d3991495 else
    if lo == 2 then 0xadd33a6183c78f1e else if lo == 3 then 0xd70b4aa9b3f20667 else
    if lo == 4 then 0x985b3e827bed2b63 else if lo == 5 then 0xe2834e4a4bd8a21a else
    if lo == 6 then 0x6debdf121b863991 else if lo == 7 then 0x1733afda2bb3b0e8 else
    if lo == 8 then 0xf34b37458bb86399 else if lo == 9 then 0x8993478dbb8deae0 else
    if lo == 10 then 0x06fbd6d5ebd3716b else if lo == 11 then 0x7c23a61ddbe6f812 else
    if lo == 12 then 0x3373d23613f9d516 else if lo == 13 then 0x49aba2fe23cc5c6f else
    if lo == 14 then 0xc6c333a67392c7e4 else 0xbc1b436e43a74e9d
  }

  function Crc648(lo: bv8): bv64 {
    if lo == 0 then 0x95ac9329ac4bc9b5 else if lo == 1 then 0xef74e3e19c7e40cc else
    if lo == 2 then 0x601c72b9cc20db47 else if lo == 3 then 0x1ac40271fc15523e else
    if lo == 4 then 0x5594765a340a7f3a else if lo == 5 then 0x2f4c0692043ff643 else
    if lo == 6 then 0xa02497ca54616dc8 else if lo == 7 then 0xdafce7026454e4b1 else
    if lo == 8 then 0x3e847f9dc45f37c0 else if lo == 9 then 0x445c0f55f46abeb9 else
    if lo == 10 then 0xcb349e0da4342532 else if lo == 11 then 0xb1eceec59401ac4b else
    if lo == 12 then 0xfebc9aee5c1e814f else if lo == 13 then 0x8464ea266c2b0836 else
    if lo == 14 then 0x0b0c7b7e3c7593bd else 0x71d40bb60c401ac4
  }

  function Crc649(lo: bv8): bv64 {
    if lo == 0 then 0xe8a46c1224f5a634 else if lo == 1 then 0x927c1cda14c02f4d else
    if lo == 2 then 0x1d148d82449eb4c6 else if lo == 3 then 0x67ccfd4a74ab3dbf else
    if lo == 4 then 0x289c8961bcb410bb else if lo == 5 then 0x5244f9a98c8199c2 else
    if lo == 6 then 0xdd2c68f1dcdf0249 else if lo == 7 then 0xa7f41839ecea8b30 else
    if lo == 8 then 0x438c80a64ce15841 else if lo == 9 then 0x3954f06e7cd4d138 else
    if lo == 10 then 0xb63c61362c8a4ab3 else if lo == 11 then 0xcce411fe1cbfc3ca else
    if lo == 12 then 0x83b465d5d4a0eece else if lo == 13 then 0xf96c151de49567b7 else
    if lo == 14 then 0x76048445b4cbfc3c else 0x0cdcf48d84fe7545
  }

  function Crc6410(lo: bv8): bv64 {
    if lo == 0 then 0x6fbd6d5ebd3716b7 else if lo == 1 then 0x15651d968d029fce else
    if lo == 2 then 0x9a0d8ccedd5c0445 else if lo == 3 then 0xe0d5fc06ed698d3c else
    if lo == 4 then 0xaf85882d2576a038 else if lo == 5 then 0xd55df8e515432941 else
    if lo == 6 then 0x5a3569bd451db2ca else if lo == 7 then 0x20ed197575283bb3 else
    if lo == 8 then 0xc49581ead523e8c2 else if lo == 9 then 0xbe4df122e51661bb else
    if lo == 10 then 0x3125607ab548fa30 else if lo == 11 then 0x4bfd10b2857d7349 else
    if lo == 12 then 0x04ad64994d625e4d else if lo == 13 then 0x7e7514517d57d734 else
    if lo == 14 then 0xf11d85092d094cbf else 0x8bc5f5c11d3cc5c6
  }

  function Crc6411(lo: bv8): bv64 {
    if lo == 0 then 0x12b5926535897936 else if lo == 1 then 0x686de2ad05bcf04f else
    if lo == 2 then 0xe70573f555e26bc4 else if lo == 3 then 0x9ddd033d65d7e2bd else
    if lo == 4 then 0xd28d7716adc8cfb9 else if lo == 5 then 0xa85507de9dfd46c0 else
    if lo == 6 then 0x273d9686cda3dd4b else if lo == 7 then 0x5de5e64efd965432 else
    if lo == 8 then 0xb99d7ed15d9d8743 else if lo == 9 then 0xc3450e196da80e3a else
    if lo == 10 then 0x4c2d9f413df695b1 else if lo == 11 then 0x36f5ef890dc31cc8 else
    if lo == 12 then 0x79a59ba2c5dc31cc else if lo == 13 then 0x037deb6af5e9b8b5 else
    if lo == 14 then 0x8c157a32a5b7233e else 0xf6cd0afa9582aa47
  }

  function Crc6412(lo: bv8): bv64 {
    if lo == 0 then 0x4ad64994d625e4da else if lo == 1 then 0x300e395ce6106da3 else
    if lo == 2 then 0xbf66a804b64ef628 else if lo == 3 then 0xc5bed8cc867b7f51 else
    if lo == 4 then 0x8aeeace74e645255 else if lo == 5 then 0xf036dc2f7e51db2c else
    if lo == 6 then 0x7f5e4d772e0f40a7 else if lo == 7 then 0x05863dbf1e3ac9de else
    if lo == 8 then 0xe1fea520be311aaf else if lo == 9 then 0x9b26d5e88e0493d6 else
    if lo == 10 then 0x144e44b0de5a085d else if lo == 11 then 0x6e963478ee6f8124 else
    if lo == 12 then 0x21c640532670ac20 else if lo == 13 then 0x5b1e309b16452559 else
    if lo == 14 then 0xd476a1c3461bbed2 else 0xaeaed10b762e37ab
  }

  function Crc6413(lo: bv8): bv64 {
    if lo == 0 then 0x37deb6af5e9b8b5b else if lo == 1 then 0x4d06c6676eae0222 else
    if lo == 2 then 0xc26e573f3ef099a9 else if lo == 3 then 0xb8b627f70ec510d0 else
    if lo == 4 then 0xf7e653dcc6da3dd4 else if lo == 5 then 0x8d3e2314f6efb4ad else
    if lo == 6 then 0x0256b24ca6b12f26 else if lo == 7 then 0x788ec2849684a65f else
    if lo == 8 then 0x9cf65a1b368f752e else if lo == 9 then 0xe62e2ad306bafc57 else
    if lo == 10 then 0x6946bb8b56e467dc else if lo == 11 then 0x139ecb4366d1eea5 else
    if lo == 12 then 0x5ccebf68aecec3a1 else if lo == 13 then 0x2616cfa09efb4ad8 else
    if lo == 14 then 0xa97e5ef8cea5d153 else 0xd3a62e30fe90582a
  }

  function Crc6414(lo: bv8): bv64 {
    if lo == 0 then 0xb0c7b7e3c7593bd8 else if lo == 1 then 0xca1fc72bf76cb2a1 else
    if lo == 2 then 0x45775673a732292a else if lo == 3 then 0x3faf26bb9707a053 else
    if lo == 4 then 0x70ff52905f188d57 else if lo == 5 then 0x0a2722586f2d042e else
    if lo == 6 then 0x854fb3003f739fa5 else if lo == 7 then 0xff97c3c80f4616dc else
    if lo == 8 then 0x1bef5b57af4dc5ad else if lo == 9 then 0x61372b9f9f784cd4 else
    if lo == 10 then 0xee5fbac7cf26d75f else if lo == 11 then 0x9487ca0fff135e26 else
    if lo == 12 then 0xdbd7be24370c7322 else if lo == 13 then 0xa10fceec0739fa5b else
    if lo == 14 then 0x2e675fb4576761d0 else 0x54bf2f7c6752e8a9
  }

  function Crc6415(lo: bv8): bv64 {
    if lo == 0 then 0xcdcf48d84fe75459 else if lo == 1 then 0xb71738107fd2dd20 else
    if lo == 2 then 0x387fa9482f8c46ab else if lo == 3 then 0x42a7d9801fb9cfd2 else
    if lo == 4 then 0x0df7adabd7a6e2d6 else if lo == 5 then 0x772fdd63e7936baf else
    if lo == 6 then 0xf8474c3bb7cdf024 else if lo == 7 then 0x829f3cf387f8795d else
    if lo == 8 then 0x66e7a46c27f3aa2c else if lo == 9 then 0x1c3fd4a417c62355 else
    if lo == 10 then 0x935745fc4798b8de else if lo == 11 then 0xe98f353477ad31a7 else
    if lo == 12 then 0xa6df411fbfb21ca3 else if lo == 13 then 0xdc0731d78f8795da else
    if lo == 14 then 0x536fa08fdfd90e51 else 0x29b7d047efec8728
  }

  function Crc64Table(i: bv8): bv64 {
    var hi, lo := i >> 4, i & 15;
    if hi == 0 then Crc640(lo)
    else if hi == 1 then Crc641(lo)
    else if hi == 2 then Crc642(lo)
    else if hi == 3 then Crc643(lo)
    else if hi == 4 then Crc644(lo)
    else if hi == 5 then Crc645(lo)
    else if hi == 6 then Crc646(lo)
    else if hi == 7 then Crc647(lo)
    else if hi == 8 then Crc648(lo)
    else if hi == 9 then Crc649(lo)
    else if hi == 10 then Crc6410(lo)
    else if hi == 11 then Crc6411(lo)
    else if hi == 12 then Crc6412(lo)
    else if hi == 13 then Crc6413(lo)
    else if hi == 14 then Crc6414(lo)
    else Crc6415(lo)
  }
}
