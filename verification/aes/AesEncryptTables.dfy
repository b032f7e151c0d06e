/** The tables Te0 to Te3 of AES_256_CBC.h, entry by entry: the S-box and a column of MixColumns
    in one. */
module AesEncryptTables {
  import opened AesSbox
  import opened AesColumns

  function Te0(b: bv8): bv32 {
    if b & 0x80 == 0 then if b & 0x40 == 0 then if b & 0x20 == 0 then if b & 0x10 == 0 then
      if b & 8 == 0 then if b & 4 == 0 then if b & 2 == 0 then if b & 1 == 0 then 0xc66363a5 else 0xf87c7c84 else if b & 1 == 0 then 0xee777799 else 0xf67b7b8d
      else if b & 2 == 0 then if b & 1 == 0 then 0xfff2f20d else 0xd66b6bbd else if b & 1 == 0 then 0xde6f6fb1 else 0x91c5c554
      else if b & 4 == 0 then if b & 2 == 0 then if b & 1 == 0 then 0x60303050 else 0x02010103 else if b & 1 == 0 then 0xce6767a9 else 0x562b2b7d
      else if b & 2 == 0 then if b & 1 == 0 then 0xe7fefe19 else 0xb5d7d762 else if b & 1 == 0 then 0x4dababe6 else 0xec76769a
    else
      if b & 8 == 0 then if b & 4 == 0 then if b & 2 == 0 then if b & 1 == 0 then 0x8fcaca45 else 0x1f82829d else if b & 1 == 0 then 0x89c9c940 else 0xfa7d7d87
      else if b & 2 == 0 then if b & 1 == 0 then 0xeffafa15 else 0xb25959eb else if b & 1 == 0 then 0x8e4747c9 else 0xfbf0f00b
      else if b & 4 == 0 then if b & 2 == 0 then if b & 1 == 0 then 0x41adadec else 0xb3d4d467 else if b & 1 == 0 then 0x5fa2a2fd else 0x45afafea
      else if b & 2 == 0 then if b & 1 == 0 then 0x239c9cbf else 0x53a4a4f7 else if b & 1 == 0 then 0xe4727296 else 0x9bc0c05b
    else if b & 0x10 == 0 then
      if b & 8 == 0 then if b & 4 == 0 then if b & 2 == 0 then if b & 1 == 0 then 0x75b7b7c2 else 0xe1fdfd1c else if b & 1 == 0 then 0x3d9393ae else 0x4c26266a
      else if b & 2 == 0 then if b & 1 == 0 then 0x6c36365a else 0x7e3f3f41 else if b & 1 == 0 then 0xf5f7f702 else 0x83cccc4f
      else if b & 4 == 0 then if b & 2 == 0 then if b & 1 == 0 then 0x6834345c else 0x51a5a5f4 else if b & 1 == 0 then 0xd1e5e534 else 0xf9f1f108
      else if b & 2 == 0 then if b & 1 == 0 then 0xe2717193 else 0xabd8d873 else if b & 1 == 0 then 0x62313153 else 0x2a15153f
    else
      if b & 8 == 0 then if b & 4 == 0 then if b & 2 == 0 then if b & 1 == 0 then 0x0804040c else 0x95c7c752 else if b & 1 == 0 then 0x46232365 else 0x9dc3c35e
      else if b & 2 == 0 then if b & 1 == 0 then 0x30181828 else 0x379696a1 else if b & 1 == 0 then 0x0a05050f else 0x2f9a9ab5
      else if b & 4 == 0 then if b & 2 == 0 then if b & 1 == 0 then 0x0e070709 else 0x24121236 else if b & 1 == 0 then 0x1b80809b else 0xdfe2e23d
      else if b & 2 == 0 then if b & 1 == 0 then 0xcdebeb26 else 0x4e272769 else if b & 1 == 0 then 0x7fb2b2cd else 0xea75759f
    else if b & 0x20 == 0 then if b & 0x10 == 0 then
      if b & 8 == 0 then if b & 4 == 0 then if b & 2 == 0 then if b & 1 == 0 then 0x1209091b else 0x1d83839e else if b & 1 == 0 then 0x582c2c74 else 0x341a1a2e
      else if b & 2 == 0 then if b & 1 == 0 then 0x361b1b2d else 0xdc6e6eb2 else if b & 1 == 0 then 0xb45a5aee else 0x5ba0a0fb
      else if b & 4 == 0 then if b & 2 == 0 then if b & 1 == 0 then 0xa45252f6 else 0x763b3b4d else if b & 1 == 0 then 0xb7d6d661 else 0x7db3b3ce
      else if b & 2 == 0 then if b & 1 == 0 then 0x5229297b else 0xdde3e33e else if b & 1 == 0 then 0x5e2f2f71 else 0x13848497
    else
      if b & 8 == 0 then if b & 4 == 0 then if b & 2 == 0 then if b & 1 == 0 then 0xa65353f5 else 0xb9d1d168 else if b & 1 == 0 then 0x00000000 else 0xc1eded2c
      else if b & 2 == 0 then if b & 1 == 0 then 0x40202060 else 0xe3fcfc1f else if b & 1 == 0 then 0x79b1b1c8 else 0xb65b5bed
      else if b & 4 == 0 then if b & 2 == 0 then if b & 1 == 0 then 0xd46a6abe else 0x8dcbcb46 else if b & 1 == 0 then 0x67bebed9 else 0x7239394b
      else if b & 2 == 0 then if b & 1 == 0 then 0x944a4ade else 0x984c4cd4 else if b & 1 == 0 then 0xb05858e8 else 0x85cfcf4a
    else if b & 0x10 == 0 then
      if b & 8 == 0 then if b & 4 == 0 then if b & 2 == 0 then if b & 1 == 0 then 0xbbd0d06b else 0xc5efef2a else if b & 1 == 0 then 0x4faaaae5 else 0xedfbfb16
      else if b & 2 == 0 then if b & 1 == 0 then 0x864343c5 else 0x9a4d4dd7 else if b & 1 == 0 then 0x66333355 else 0x11858594
      else if b & 4 == 0 then if b & 2 == 0 then if b & 1 == 0 then 0x8a4545cf else 0xe9f9f910 else if b & 1 == 0 then 0x04020206 else 0xfe7f7f81
      else if b & 2 == 0 then if b & 1 == 0 then 0xa05050f0 else 0x783c3c44 else if b & 1 == 0 then 0x259f9fba else 0x4ba8a8e3
    else
      if b & 8 == 0 then if b & 4 == 0 then if b & 2 == 0 then if b & 1 == 0 then 0xa25151f3 else 0x5da3a3fe else if b & 1 == 0 then 0x804040c0 else 0x058f8f8a
      else if b & 2 == 0 then if b & 1 == 0 then 0x3f9292ad else 0x219d9dbc else if b & 1 == 0 then 0x70383848 else 0xf1f5f504
      else if b & 4 == 0 then if b & 2 == 0 then if b & 1 == 0 then 0x63bcbcdf else 0x77b6b6c1 else if b & 1 == 0 then 0xafdada75 else 0x42212163
      else if b & 2 == 0 then if b & 1 == 0 then 0x20101030 else 0xe5ffff1a else if b & 1 == 0 then 0xfdf3f30e else 0xbfd2d26d
    else if b & 0x40 == 0 then if b & 0x20 == 0 then if b & 0x10 == 0 then
      if b & 8 == 0 then if b & 4 == 0 then if b & 2 == 0 then if b & 1 == 0 then 0x81cdcd4c else 0x180c0c14 else if b & 1 == 0 then 0x26131335 else 0xc3ecec2f
      else if b & 2 == 0 then if b & 1 == 0 then 0xbe5f5fe1 else 0x359797a2 else if b & 1 == 0 then 0x884444cc else 0x2e171739
      else if b & 4 == 0 then if b & 2 == 0 then if b & 1 == 0 then 0x93c4c457 else 0x55a7a7f2 else if b & 1 == 0 then 0xfc7e7e82 else 0x7a3d3d47
      else if b & 2 == 0 then if b & 1 == 0 then 0xc86464ac else 0xba5d5de7 else if b & 1 == 0 then 0x3219192b else 0xe6737395
    else
      if b & 8 == 0 then if b & 4 == 0 then if b & 2 == 0 then if b & 1 == 0 then 0xc06060a0 else 0x19818198 else if b & 1 == 0 then 0x9e4f4fd1 else 0xa3dcdc7f
      else if b & 2 == 0 then if b & 1 == 0 then 0x44222266 else 0x542a2a7e else if b & 1 == 0 then 0x3b9090ab else 0x0b888883
      else if b & 4 == 0 then if b & 2 == 0 then if b & 1 == 0 then 0x8c4646ca else 0xc7eeee29 else if b & 1 == 0 then 0x6bb8b8d3 else 0x2814143c
      else if b & 2 == 0 then if b & 1 == 0 then 0xa7dede79 else 0xbc5e5ee2 else if b & 1 == 0 then 0x160b0b1d else 0xaddbdb76
    else if b & 0x10 == 0 then
      if b & 8 == 0 then if b & 4 == 0 then if b & 2 == 0 then if b & 1 == 0 then 0xdbe0e03b else 0x64323256 else if b & 1 == 0 then 0x743a3a4e else 0x140a0a1e
      else if b & 2 == 0 then if b & 1 == 0 then 0x924949db else 0x0c06060a else if b & 1 == 0 then 0x4824246c else 0xb85c5ce4
      else if b & 4 == 0 then if b & 2 == 0 then if b & 1 == 0 then 0x9fc2c25d else 0xbdd3d36e else if b & 1 == 0 then 0x43acacef else 0xc46262a6
      else if b & 2 == 0 then if b & 1 == 0 then 0x399191a8 else 0x319595a4 else if b & 1 == 0 then 0xd3e4e437 else 0xf279798b
    else
      if b & 8 == 0 then if b & 4 == 0 then if b & 2 == 0 then if b & 1 == 0 then 0xd5e7e732 else 0x8bc8c843 else if b & 1 == 0 then 0x6e373759 else 0xda6d6db7
      else if b & 2 == 0 then if b & 1 == 0 then 0x018d8d8c else 0xb1d5d564 else if b & 1 == 0 then 0x9c4e4ed2 else 0x49a9a9e0
      else if b & 4 == 0 then if b & 2 == 0 then if b & 1 == 0 then 0xd86c6cb4 else 0xac5656fa else if b & 1 == 0 then 0xf3f4f407 else 0xcfeaea25
      else if b & 2 == 0 then if b & 1 == 0 then 0xca6565af else 0xf47a7a8e else if b & 1 == 0 then 0x47aeaee9 else 0x10080818
    else if b & 0x20 == 0 then if b & 0x10 == 0 then
      if b & 8 == 0 then if b & 4 == 0 then if b & 2 == 0 then if b & 1 == 0 then 0x6fbabad5 else 0xf0787888 else if b & 1 == 0 then 0x4a25256f else 0x5c2e2e72
      else if b & 2 == 0 then if b & 1 == 0 then 0x381c1c24 else 0x57a6a6f1 else if b & 1 == 0 then 0x73b4b4c7 else 0x97c6c651
      else if b & 4 == 0 then if b & 2 == 0 then if b & 1 == 0 then 0xcbe8e823 else 0xa1dddd7c else if b & 1 == 0 then 0xe874749c else 0x3e1f1f21
      else if b & 2 == 0 then if b & 1 == 0 then 0x964b4bdd else 0x61bdbddc else if b & 1 == 0 then 0x0d8b8b86 else 0x0f8a8a85
    else
      if b & 8 == 0 then if b & 4 == 0 then if b & 2 == 0 then if b & 1 == 0 then 0xe0707090 else 0x7c3e3e42 else if b & 1 == 0 then 0x71b5b5c4 else 0xcc6666aa
      else if b & 2 == 0 then if b & 1 == 0 then 0x904848d8 else 0x06030305 else if b & 1 == 0 then 0xf7f6f601 else 0x1c0e0e12
      else if b & 4 == 0 then if b & 2 == 0 then if b & 1 == 0 then 0xc26161a3 else 0x6a35355f else if b & 1 == 0 then 0xae5757f9 else 0x69b9b9d0
      else if b & 2 == 0 then if b & 1 == 0 then 0x17868691 else 0x99c1c158 else if b & 1 == 0 then 0x3a1d1d27 else 0x279e9eb9
    else if b & 0x10 == 0 then
      if b & 8 == 0 then if b & 4 == 0 then if b & 2 == 0 then if b & 1 == 0 then 0xd9e1e138 else 0xebf8f813 else if b & 1 == 0 then 0x2b9898b3 else 0x22111133
      else if b & 2 == 0 then if b & 1 == 0 then 0xd26969bb else 0xa9d9d970 else if b & 1 == 0 then 0x078e8e89 else 0x339494a7
      else if b & 4 == 0 then if b & 2 == 0 then if b & 1 == 0 then 0x2d9b9bb6 else 0x3c1e1e22 else if b & 1 == 0 then 0x15878792 else 0xc9e9e920
      else if b & 2 == 0 then if b & 1 == 0 then 0x87cece49 else 0xaa5555ff else if b & 1 == 0 then 0x50282878 else 0xa5dfdf7a
    else
      if b & 8 == 0 then if b & 4 == 0 then if b & 2 == 0 then if b & 1 == 0 then 0x038c8c8f else 0x59a1a1f8 else if b & 1 == 0 then 0x09898980 else 0x1a0d0d17
      else if b & 2 == 0 then if b & 1 == 0 then 0x65bfbfda else 0xd7e6e631 else if b & 1 == 0 then 0x844242c6 else 0xd06868b8
      else if b & 4 == 0 then if b & 2 == 0 then if b & 1 == 0 then 0x824141c3 else 0x299999b0 else if b & 1 == 0 then 0x5a2d2d77 else 0x1e0f0f11
      else if b & 2 == 0 then if b & 1 == 0 then 0x7bb0b0cb else 0xa85454fc else if b & 1 == 0 then 0x6dbbbbd6 else 0x2c16163a
  }

  function Te1(b: bv8): bv32 {
    if b & 0x80 == 0 then if b & 0x40 == 0 then if b & 0x20 == 0 then if b & 0x10 == 0 then
      if b & 8 == 0 then if b & 4 == 0 then if b & 2 == 0 then if b & 1 == 0 then 0xa5c66363 else 0x84f87c7c else if b & 1 == 0 then 0x99ee7777 else 0x8df67b7b
      else if b & 2 == 0 then if b & 1 == 0 then 0x0dfff2f2 else 0xbdd66b6b else if b & 1 == 0 then 0xb1de6f6f else 0x5491c5c5
      else if b & 4 == 0 then if b & 2 == 0 then if b & 1 == 0 then 0x50603030 else 0x03020101 else if b & 1 == 0 then 0xa9ce6767 else 0x7d562b2b
      else if b & 2 == 0 then if b & 1 == 0 then 0x19e7fefe else 0x62b5d7d7 else if b & 1 == 0 then 0xe64dabab else 0x9aec7676
    else
      if b & 8 == 0 then if b & 4 == 0 then if b & 2 == 0 then if b & 1 == 0 then 0x458fcaca else 0x9d1f8282 else if b & 1 == 0 then 0x4089c9c9 else 0x87fa7d7d
      else if b & 2 == 0 then if b & 1 == 0 then 0x15effafa else 0xebb25959 else if b & 1 == 0 then 0xc98e4747 else 0x0bfbf0f0
      else if b & 4 == 0 then if b & 2 == 0 then if b & 1 == 0 then 0xec41adad else 0x67b3d4d4 else if b & 1 == 0 then 0xfd5fa2a2 else 0xea45afaf
      else if b & 2 == 0 then if b & 1 == 0 then 0xbf239c9c else 0xf753a4a4 else if b & 1 == 0 then 0x96e47272 else 0x5b9bc0c0
    else if b & 0x10 == 0 then
      if b & 8 == 0 then if b & 4 == 0 then if b & 2 == 0 then if b & 1 == 0 then 0xc275b7b7 else 0x1ce1fdfd else if b & 1 == 0 then 0xae3d9393 else 0x6a4c2626
      else if b & 2 == 0 then if b & 1 == 0 then 0x5a6c3636 else 0x417e3f3f else if b & 1 == 0 then 0x02f5f7f7 else 0x4f83cccc
      else if b & 4 == 0 then if b & 2 == 0 then if b & 1 == 0 then 0x5c683434 else 0xf451a5a5 else if b & 1 == 0 then 0x34d1e5e5 else 0x08f9f1f1
      else if b & 2 == 0 then if b & 1 == 0 then 0x93e27171 else 0x73abd8d8 else if b & 1 == 0 then 0x53623131 else 0x3f2a1515
    else
      if b & 8 == 0 then if b & 4 == 0 then if b & 2 == 0 then if b & 1 == 0 then 0x0c080404 else 0x5295c7c7 else if b & 1 == 0 then 0x65462323 else 0x5e9dc3c3
      else if b & 2 == 0 then if b & 1 == 0 then 0x28301818 else 0xa1379696 else if b & 1 == 0 then 0x0f0a0505 else 0xb52f9a9a
      else if b & 4 == 0 then if b & 2 == 0 then if b & 1 == 0 then 0x090e0707 else 0x36241212 else if b & 1 == 0 then 0x9b1b8080 else 0x3ddfe2e2
      else if b & 2 == 0 then if b & 1 == 0 then 0x26cdebeb else 0x694e2727 else if b & 1 == 0 then 0xcd7fb2b2 else 0x9fea7575
    else if b & 0x20 == 0 then if b & 0x10 == 0 then
      if b & 8 == 0 then if b & 4 == 0 then if b & 2 == 0 then if b & 1 == 0 then 0x1b120909 else 0x9e1d8383 else if b & 1 == 0 then 0x74582c2c else 0x2e341a1a
      else if b & 2 == 0 then if b & 1 == 0 then 0x2d361b1b else 0xb2dc6e6e else if b & 1 == 0 then 0xeeb45a5a else 0xfb5ba0a0
      else if b & 4 == 0 then if b & 2 == 0 then if b & 1 == 0 then 0xf6a45252 else 0x4d763b3b else if b & 1 == 0 then 0x61b7d6d6 else 0xce7db3b3
      else if b & 2 == 0 then if b & 1 == 0 then 0x7b522929 else 0x3edde3e3 else if b & 1 == 0 then 0x715e2f2f else 0x97138484
    else
      if b & 8 == 0 then if b & 4 == 0 then if b & 2 == 0 then if b & 1 == 0 then 0xf5a65353 else 0x68b9d1d1 else if b & 1 == 0 then 0x00000000 else 0x2cc1eded
      else if b & 2 == 0 then if b & 1 == 0 then 0x60402020 else 0x1fe3fcfc else if b & 1 == 0 then 0xc879b1b1 else 0xedb65b5b
      else if b & 4 == 0 then if b & 2 == 0 then if b & 1 == 0 then 0xbed46a6a else 0x468dcbcb else if b & 1 == 0 then 0xd967bebe else 0x4b723939
      else if b & 2 == 0 then if b & 1 == 0 then 0xde944a4a else 0xd4984c4c else if b & 1 == 0 then 0xe8b05858 else 0x4a85cfcf
    else if b & 0x10 == 0 then
      if b & 8 == 0 then if b & 4 == 0 then if b & 2 == 0 then if b & 1 == 0 then 0x6bbbd0d0 else 0x2ac5efef else if b & 1 == 0 then 0xe54faaaa else 0x16edfbfb
      else if b & 2 == 0 then if b & 1 == 0 then 0xc5864343 else 0xd79a4d4d else if b & 1 == 0 then 0x55663333 else 0x94118585
      else if b & 4 == 0 then if b & 2 == 0 then if b & 1 == 0 then 0xcf8a4545 else 0x10e9f9f9 else if b & 1 == 0 then 0x06040202 else 0x81fe7f7f
      else if b & 2 == 0 then if b & 1 == 0 then 0xf0a05050 else 0x44783c3c else if b & 1 == 0 then 0xba259f9f else 0xe34ba8a8
    else
      if b & 8 == 0 then if b & 4 == 0 then if b & 2 == 0 then if b & 1 == 0 then 0xf3a25151 else 0xfe5da3a3 else if b & 1 == 0 then 0xc0804040 else 0x8a058f8f
      else if b & 2 == 0 then if b & 1 == 0 then 0xad3f9292 else 0xbc219d9d else if b & 1 == 0 then 0x48703838 else 0x04f1f5f5
      else if b & 4 == 0 then if b & 2 == 0 then if b & 1 == 0 then 0xdf63bcbc else 0xc177b6b6 else if b & 1 == 0 then 0x75afdada else 0x63422121
      else if b & 2 == 0 then if b & 1 == 0 then 0x30201010 else 0x1ae5ffff else if b & 1 == 0 then 0x0efdf3f3 else 0x6dbfd2d2
    else if b & 0x40 == 0 then if b & 0x20 == 0 then if b & 0x10 == 0 then
      if b & 8 == 0 then if b & 4 == 0 then if b & 2 == 0 then if b & 1 == 0 then 0x4c81cdcd else 0x14180c0c else if b & 1 == 0 then 0x35261313 else 0x2fc3ecec
      else if b & 2 == 0 then if b & 1 == 0 then 0xe1be5f5f else 0xa2359797 else if b & 1 == 0 then 0xcc884444 else 0x392e1717
      else if b & 4 == 0 then if b & 2 == 0 then if b & 1 == 0 then 0x5793c4c4 else 0xf255a7a7 else if b & 1 == 0 then 0x82fc7e7e else 0x477a3d3d
      else if b & 2 == 0 then if b & 1 == 0 then 0xacc86464 else 0xe7ba5d5d else if b & 1 == 0 then 0x2b321919 else 0x95e67373
    else
      if b & 8 == 0 then if b & 4 == 0 then if b & 2 == 0 then if b & 1 == 0 then 0xa0c06060 else 0x98198181 else if b & 1 == 0 then 0xd19e4f4f else 0x7fa3dcdc
      else if b & 2 == 0 then if b & 1 == 0 then 0x66442222 else 0x7e542a2a else if b & 1 == 0 then 0xab3b9090 else 0x830b8888
      else if b & 4 == 0 then if b & 2 == 0 then if b & 1 == 0 then 0xca8c4646 else 0x29c7eeee else if b & 1 == 0 then 0xd36bb8b8 else 0x3c281414
      else if b & 2 == 0 then if b & 1 == 0 then 0x79a7dede else 0xe2bc5e5e else if b & 1 == 0 then 0x1d160b0b else 0x76addbdb
    else if b & 0x10 == 0 then
      if b & 8 == 0 then if b & 4 == 0 then if b & 2 == 0 then if b & 1 == 0 then 0x3bdbe0e0 else 0x56643232 else if b & 1 == 0 then 0x4e743a3a else 0x1e140a0a
      else if b & 2 == 0 then if b & 1 == 0 then 0xdb924949 else 0x0a0c0606 else if b & 1 == 0 then 0x6c482424 else 0xe4b85c5c
      else if b & 4 == 0 then if b & 2 == 0 then if b & 1 == 0 then 0x5d9fc2c2 else 0x6ebdd3d3 else if b & 1 == 0 then 0xef43acac else 0xa6c46262
      else if b & 2 == 0 then if b & 1 == 0 then 0xa8399191 else 0xa4319595 else if b & 1 == 0 then 0x37d3e4e4 else 0x8bf27979
    else
      if b & 8 == 0 then if b & 4 == 0 then if b & 2 == 0 then if b & 1 == 0 then 0x32d5e7e7 else 0x438bc8c8 else if b & 1 == 0 then 0x596e3737 else 0xb7da6d6d
      else if b & 2 == 0 then if b & 1 == 0 then 0x8c018d8d else 0x64b1d5d5 else if b & 1 == 0 then 0xd29c4e4e else 0xe049a9a9
      else if b & 4 == 0 then if b & 2 == 0 then if b & 1 == 0 then 0xb4d86c6c else 0xfaac5656 else if b & 1 == 0 then 0x07f3f4f4 else 0x25cfeaea
      else if b & 2 == 0 then if b & 1 == 0 then 0xafca6565 else 0x8ef47a7a else if b & 1 == 0 then 0xe947aeae else 0x18100808
    else if b & 0x20 == 0 then if b & 0x10 == 0 then
      if b & 8 == 0 then if b & 4 == 0 then if b & 2 == 0 then if b & 1 == 0 then 0xd56fbaba else 0x88f07878 else if b & 1 == 0 then 0x6f4a2525 else 0x725c2e2e
      else if b & 2 == 0 then if b & 1 == 0 then 0x24381c1c else 0xf157a6a6 else if b & 1 == 0 then 0xc773b4b4 else 0x5197c6c6
      else if b & 4 == 0 then if b & 2 == 0 then if b & 1 == 0 then 0x23cbe8e8 else 0x7ca1dddd else if b & 1 == 0 then 0x9ce87474 else 0x213e1f1f
      else if b & 2 == 0 then if b & 1 == 0 then 0xdd964b4b else 0xdc61bdbd else if b & 1 == 0 then 0x860d8b8b else 0x850f8a8a
    else
      if b & 8 == 0 then if b & 4 == 0 then if b & 2 == 0 then if b & 1 == 0 then 0x90e07070 else 0x427c3e3e else if b & 1 == 0 then 0xc471b5b5 else 0xaacc6666
      else if b & 2 == 0 then if b & 1 == 0 then 0xd8904848 else 0x05060303 else if b & 1 == 0 then 0x01f7f6f6 else 0x121c0e0e
      else if b & 4 == 0 then if b & 2 == 0 then if b & 1 == 0 then 0xa3c26161 else 0x5f6a3535 else if b & 1 == 0 then 0xf9ae5757 else 0xd069b9b9
      else if b & 2 == 0 then if b & 1 == 0 then 0x91178686 else 0x5899c1c1 else if b & 1 == 0 then 0x273a1d1d else 0xb9279e9e
    else if b & 0x10 == 0 then
      if b & 8 == 0 then if b & 4 == 0 then if b & 2 == 0 then if b & 1 == 0 then 0x38d9e1e1 else 0x13ebf8f8 else if b & 1 == 0 then 0xb32b9898 else 0x33221111
      else if b & 2 == 0 then if b & 1 == 0 then 0xbbd26969 else 0x70a9d9d9 else if b & 1 == 0 then 0x89078e8e else 0xa7339494
      else if b & 4 == 0 then if b & 2 == 0 then if b & 1 == 0 then 0xb62d9b9b else 0x223c1e1e else if b & 1 == 0 then 0x92158787 else 0x20c9e9e9
      else if b & 2 == 0 then if b & 1 == 0 then 0x4987cece else 0xffaa5555 else if b & 1 == 0 then 0x78502828 else 0x7aa5dfdf
    else
      if b & 8 == 0 then if b & 4 == 0 then if b & 2 == 0 then if b & 1 == 0 then 0x8f038c8c else 0xf859a1a1 else if b & 1 == 0 then 0x80098989 else 0x171a0d0d
      else if b & 2 == 0 then if b & 1 == 0 then 0xda65bfbf else 0x31d7e6e6 else if b & 1 == 0 then 0xc6844242 else 0xb8d06868
      else if b & 4 == 0 then if b & 2 == 0 then if b & 1 == 0 then 0xc3824141 else 0xb0299999 else if b & 1 == 0 then 0x775a2d2d else 0x111e0f0f
      else if b & 2 == 0 then if b & 1 == 0 then 0xcb7bb0b0 else 0xfca85454 else if b & 1 == 0 then 0xd66dbbbb else 0x3a2c1616
  }

  function Te2(b: bv8): bv32 {
    if b & 0x80 == 0 then if b & 0x40 == 0 then if b & 0x20 == 0 then if b & 0x10 == 0 then
      if b & 8 == 0 then if b & 4 == 0 then if b & 2 == 0 then if b & 1 == 0 then 0x63a5c663 else 0x7c84f87c else if b & 1 == 0 then 0x7799ee77 else 0x7b8df67b
      else if b & 2 == 0 then if b & 1 == 0 then 0xf20dfff2 else 0x6bbdd66b else if b & 1 == 0 then 0x6fb1de6f else 0xc55491c5
      else if b & 4 == 0 then if b & 2 == 0 then if b & 1 == 0 then 0x30506030 else 0x01030201 else if b & 1 == 0 then 0x67a9ce67 else 0x2b7d562b
      else if b & 2 == 0 then if b & 1 == 0 then 0xfe19e7fe else 0xd762b5d7 else if b & 1 == 0 then 0xabe64dab else 0x769aec76
    else
      if b & 8 == 0 then if b & 4 == 0 then if b & 2 == 0 then if b & 1 == 0 then 0xca458fca else 0x829d1f82 else if b & 1 == 0 then 0xc94089c9 else 0x7d87fa7d
      else if b & 2 == 0 then if b & 1 == 0 then 0xfa15effa else 0x59ebb259 else if b & 1 == 0 then 0x47c98e47 else 0xf00bfbf0
      else if b & 4 == 0 then if b & 2 == 0 then if b & 1 == 0 then 0xadec41ad else 0xd467b3d4 else if b & 1 == 0 then 0xa2fd5fa2 else 0xafea45af
      else if b & 2 == 0 then if b & 1 == 0 then 0x9cbf239c else 0xa4f753a4 else if b & 1 == 0 then 0x7296e472 else 0xc05b9bc0
    else if b & 0x10 == 0 then
      if b & 8 == 0 then if b & 4 == 0 then if b & 2 == 0 then if b & 1 == 0 then 0xb7c275b7 else 0xfd1ce1fd else if b & 1 == 0 then 0x93ae3d93 else 0x266a4c26
      else if b & 2 == 0 then if b & 1 == 0 then 0x365a6c36 else 0x3f417e3f else if b & 1 == 0 then 0xf702f5f7 else 0xcc4f83cc
      else if b & 4 == 0 then if b & 2 == 0 then if b & 1 == 0 then 0x345c6834 else 0xa5f451a5 else if b & 1 == 0 then 0xe534d1e5 else 0xf108f9f1
      else if b & 2 == 0 then if b & 1 == 0 then 0x7193e271 else 0xd873abd8 else if b & 1 == 0 then 0x31536231 else 0x153f2a15
    else
      if b & 8 == 0 then if b & 4 == 0 then if b & 2 == 0 then if b & 1 == 0 then 0x040c0804 else 0xc75295c7 else if b & 1 == 0 then 0x23654623 else 0xc35e9dc3
      else if b & 2 == 0 then if b & 1 == 0 then 0x18283018 else 0x96a13796 else if b & 1 == 0 then 0x050f0a05 else 0x9ab52f9a
      else if b & 4 == 0 then if b & 2 == 0 then if b & 1 == 0 then 0x07090e07 else 0x12362412 else if b & 1 == 0 then 0x809b1b80 else 0xe23ddfe2
      else if b & 2 == 0 then if b & 1 == 0 then 0xeb26cdeb else 0x27694e27 else if b & 1 == 0 then 0xb2cd7fb2 else 0x759fea75
    else if b & 0x20 == 0 then if b & 0x10 == 0 then
      if b & 8 == 0 then if b & 4 == 0 then if b & 2 == 0 then if b & 1 == 0 then 0x091b1209 else 0x839e1d83 else if b & 1 == 0 then 0x2c74582c else 0x1a2e341a
      else if b & 2 == 0 then if b & 1 == 0 then 0x1b2d361b else 0x6eb2dc6e else if b & 1 == 0 then 0x5aeeb45a else 0xa0fb5ba0
      else if b & 4 == 0 then if b & 2 == 0 then if b & 1 == 0 then 0x52f6a452 else 0x3b4d763b else if b & 1 == 0 then 0xd661b7d6 else 0xb3ce7db3
      else if b & 2 == 0 then if b & 1 == 0 then 0x297b5229 else 0xe33edde3 else if b & 1 == 0 then 0x2f715e2f else 0x84971384
    else
      if b & 8 == 0 then if b & 4 == 0 then if b & 2 == 0 then if b & 1 == 0 then 0x53f5a653 else 0xd168b9d1 else if b & 1 == 0 then 0x00000000 else 0xed2cc1ed
      else if b & 2 == 0 then if b & 1 == 0 then 0x20604020 else 0xfc1fe3fc else if b & 1 == 0 then 0xb1c879b1 else 0x5bedb65b
      else if b & 4 == 0 then if b & 2 == 0 then if b & 1 == 0 then 0x6abed46a else 0xcb468dcb else if b & 1 == 0 then 0xbed967be else 0x394b7239
      else if b & 2 == 0 then if b & 1 == 0 then 0x4ade944a else 0x4cd4984c else if b & 1 == 0 then 0x58e8b058 else 0xcf4a85cf
    else if b & 0x10 == 0 then
      if b & 8 == 0 then if b & 4 == 0 then if b & 2 == 0 then if b & 1 == 0 then 0xd06bbbd0 else 0xef2ac5ef else if b & 1 == 0 then 0xaae54faa else 0xfb16edfb
      else if b & 2 == 0 then if b & 1 == 0 then 0x43c58643 else 0x4dd79a4d else if b & 1 == 0 then 0x33556633 else 0x85941185
      else if b & 4 == 0 then if b & 2 == 0 then if b & 1 == 0 then 0x45cf8a45 else 0xf910e9f9 else if b & 1 == 0 then 0x02060402 else 0x7f81fe7f
      else if b & 2 == 0 then if b & 1 == 0 then 0x50f0a050 else 0x3c44783c else if b & 1 == 0 then 0x9fba259f else 0xa8e34ba8
    else
      if b & 8 == 0 then if b & 4 == 0 then if b & 2 == 0 then if b & 1 == 0 then 0x51f3a251 else 0xa3fe5da3 else if b & 1 == 0 then 0x40c08040 else 0x8f8a058f
      else if b & 2 == 0 then if b & 1 == 0 then 0x92ad3f92 else 0x9dbc219d else if b & 1 == 0 then 0x38487038 else 0xf504f1f5
      else if b & 4 == 0 then if b & 2 == 0 then if b & 1 == 0 then 0xbcdf63bc else 0xb6c177b6 else if b & 1 == 0 then 0xda75afda else 0x21634221
      else if b & 2 == 0 then if b & 1 == 0 then 0x10302010 else 0xff1ae5ff else if b & 1 == 0 then 0xf30efdf3 else 0xd26dbfd2
    else if b & 0x40 == 0 then if b & 0x20 == 0 then if b & 0x10 == 0 then
      if b & 8 == 0 then if b & 4 == 0 then if b & 2 == 0 then if b & 1 == 0 then 0xcd4c81cd else 0x0c14180c else if b & 1 == 0 then 0x13352613 else 0xec2fc3ec
      else if b & 2 == 0 then if b & 1 == 0 then 0x5fe1be5f else 0x97a23597 else if b & 1 == 0 then 0x44cc8844 else 0x17392e17
      else if b & 4 == 0 then if b & 2 == 0 then if b & 1 == 0 then 0xc45793c4 else 0xa7f255a7 else if b & 1 == 0 then 0x7e82fc7e else 0x3d477a3d
      else if b & 2 == 0 then if b & 1 == 0 then 0x64acc864 else 0x5de7ba5d else if b & 1 == 0 then 0x192b3219 else 0x7395e673
    else
      if b & 8 == 0 then if b & 4 == 0 then if b & 2 == 0 then if b & 1 == 0 then 0x60a0c060 else 0x81981981 else if b & 1 == 0 then 0x4fd19e4f else 0xdc7fa3dc
      else if b & 2 == 0 then if b & 1 == 0 then 0x22664422 else 0x2a7e542a else if b & 1 == 0 then 0x90ab3b90 else 0x88830b88
      else if b & 4 == 0 then if b & 2 == 0 then if b & 1 == 0 then 0x46ca8c46 else 0xee29c7ee else if b & 1 == 0 then 0xb8d36bb8 else 0x143c2814
      else if b & 2 == 0 then if b & 1 == 0 then 0xde79a7de else 0x5ee2bc5e else if b & 1 == 0 then 0x0b1d160b else 0xdb76addb
    else if b & 0x10 == 0 then
      if b & 8 == 0 then if b & 4 == 0 then if b & 2 == 0 then if b & 1 == 0 then 0xe03bdbe0 else 0x32566432 else if b & 1 == 0 then 0x3a4e743a else 0x0a1e140a
      else if b & 2 == 0 then if b & 1 == 0 then 0x49db9249 else 0x060a0c06 else if b & 1 == 0 then 0x246c4824 else 0x5ce4b85c
      else if b & 4 == 0 then if b & 2 == 0 then if b & 1 == 0 then 0xc25d9fc2 else 0xd36ebdd3 else if b & 1 == 0 then 0xacef43ac else 0x62a6c462
      else if b & 2 == 0 then if b & 1 == 0 then 0x91a83991 else 0x95a43195 else if b & 1 == 0 then 0xe437d3e4 else 0x798bf279
    else
      if b & 8 == 0 then if b & 4 == 0 then if b & 2 == 0 then if b & 1 == 0 then 0xe732d5e7 else 0xc8438bc8 else if b & 1 == 0 then 0x37596e37 else 0x6db7da6d
      else if b & 2 == 0 then if b & 1 == 0 then 0x8d8c018d else 0xd564b1d5 else if b & 1 == 0 then 0x4ed29c4e else 0xa9e049a9
      else if b & 4 == 0 then if b & 2 == 0 then if b & 1 == 0 then 0x6cb4d86c else 0x56faac56 else if b & 1 == 0 then 0xf407f3f4 else 0xea25cfea
      else if b & 2 == 0 then if b & 1 == 0 then 0x65afca65 else 0x7a8ef47a else if b & 1 == 0 then 0xaee947ae else 0x08181008
    else if b & 0x20 == 0 then if b & 0x10 == 0 then
      if b & 8 == 0 then if b & 4 == 0 then if b & 2 == 0 then if b & 1 == 0 then 0xbad56fba else 0x7888f078 else if b & 1 == 0 then 0x256f4a25 else 0x2e725c2e
      else if b & 2 == 0 then if b & 1 == 0 then 0x1c24381c else 0xa6f157a6 else if b & 1 == 0 then 0xb4c773b4 else 0xc65197c6
      else if b & 4 == 0 then if b & 2 == 0 then if b & 1 == 0 then 0xe823cbe8 else 0xdd7ca1dd else if b & 1 == 0 then 0x749ce874 else 0x1f213e1f
      else if b & 2 == 0 then if b & 1 == 0 then 0x4bdd964b else 0xbddc61bd else if b & 1 == 0 then 0x8b860d8b else 0x8a850f8a
    else
      if b & 8 == 0 then if b & 4 == 0 then if b & 2 == 0 then if b & 1 == 0 then 0x7090e070 else 0x3e427c3e else if b & 1 == 0 then 0xb5c471b5 else 0x66aacc66
      else if b & 2 == 0 then if b & 1 == 0 then 0x48d89048 else 0x03050603 else if b & 1 == 0 then 0xf601f7f6 else 0x0e121c0e
      else if b & 4 == 0 then if b & 2 == 0 then if b & 1 == 0 then 0x61a3c261 else 0x355f6a35 else if b & 1 == 0 then 0x57f9ae57 else 0xb9d069b9
      else if b & 2 == 0 then if b & 1 == 0 then 0x86911786 else 0xc15899c1 else if b & 1 == 0 then 0x1d273a1d else 0x9eb9279e
    else if b & 0x10 == 0 then
      if b & 8 == 0 then if b & 4 == 0 then if b & 2 == 0 then if b & 1 == 0 then 0xe138d9e1 else 0xf813ebf8 else if b & 1 == 0 then 0x98b32b98 else 0x11332211
      else if b & 2 == 0 then if b & 1 == 0 then 0x69bbd269 else 0xd970a9d9 else if b & 1 == 0 then 0x8e89078e else 0x94a73394
      else if b & 4 == 0 then if b & 2 == 0 then if b & 1 == 0 then 0x9bb62d9b else 0x1e223c1e else if b & 1 == 0 then 0x87921587 else 0xe920c9e9
      else if b & 2 == 0 then if b & 1 == 0 then 0xce4987ce else 0x55ffaa55 else if b & 1 == 0 then 0x28785028 else 0xdf7aa5df
    else
      if b & 8 == 0 then if b & 4 == 0 then if b & 2 == 0 then if b & 1 == 0 then 0x8c8f038c else 0xa1f859a1 else if b & 1 == 0 then 0x89800989 else 0x0d171a0d
      else if b & 2 == 0 then if b & 1 == 0 then 0xbfda65bf else 0xe631d7e6 else if b & 1 == 0 then 0x42c68442 else 0x68b8d068
      else if b & 4 == 0 then if b & 2 == 0 then if b & 1 == 0 then 0x41c38241 else 0x99b02999 else if b & 1 == 0 then 0x2d775a2d else 0x0f111e0f
      else if b & 2 == 0 then if b & 1 == 0 then 0xb0cb7bb0 else 0x54fca854 else if b & 1 == 0 then 0xbbd66dbb else 0x163a2c16
  }

  function Te3(b: bv8): bv32 {
    if b & 0x80 == 0 then if b & 0x40 == 0 then if b & 0x20 == 0 then if b & 0x10 == 0 then
      if b & 8 == 0 then if b & 4 == 0 then if b & 2 == 0 then if b & 1 == 0 then 0x6363a5c6 else 0x7c7c84f8 else if b & 1 == 0 then 0x777799ee else 0x7b7b8df6
      else if b & 2 == 0 then if b & 1 == 0 then 0xf2f20dff else 0x6b6bbdd6 else if b & 1 == 0 then 0x6f6fb1de else 0xc5c55491
      else if b & 4 == 0 then if b & 2 == 0 then if b & 1 == 0 then 0x30305060 else 0x01010302 else if b & 1 == 0 then 0x6767a9ce else 0x2b2b7d56
      else if b & 2 == 0 then if b & 1 == 0 then 0xfefe19e7 else 0xd7d762b5 else if b & 1 == 0 then 0xababe64d else 0x76769aec
    else
      if b & 8 == 0 then if b & 4 == 0 then if b & 2 == 0 then if b & 1 == 0 then 0xcaca458f else 0x82829d1f else if b & 1 == 0 then 0xc9c94089 else 0x7d7d87fa
      else if b & 2 == 0 then if b & 1 == 0 then 0xfafa15ef else 0x5959ebb2 else if b & 1 == 0 then 0x4747c98e else 0xf0f00bfb
      else if b & 4 == 0 then if b & 2 == 0 then if b & 1 == 0 then 0xadadec41 else 0xd4d467b3 else if b & 1 == 0 then 0xa2a2fd5f else 0xafafea45
      else if b & 2 == 0 then if b & 1 == 0 then 0x9c9cbf23 else 0xa4a4f753 else if b & 1 == 0 then 0x727296e4 else 0xc0c05b9b
    else if b & 0x10 == 0 then
      if b & 8 == 0 then if b & 4 == 0 then if b & 2 == 0 then if b & 1 == 0 then 0xb7b7c275 else 0xfdfd1ce1 else if b & 1 == 0 then 0x9393ae3d else 0x26266a4c
      else if b & 2 == 0 then if b & 1 == 0 then 0x36365a6c else 0x3f3f417e else if b & 1 == 0 then 0xf7f702f5 else 0xcccc4f83
      else if b & 4 == 0 then if b & 2 == 0 then if b & 1 == 0 then 0x34345c68 else 0xa5a5f451 else if b & 1 == 0 then 0xe5e534d1 else 0xf1f108f9
      else if b & 2 == 0 then if b & 1 == 0 then 0x717193e2 else 0xd8d873ab else if b & 1 == 0 then 0x31315362 else 0x15153f2a
    else
      if b & 8 == 0 then if b & 4 == 0 then if b & 2 == 0 then if b & 1 == 0 then 0x04040c08 else 0xc7c75295 else if b & 1 == 0 then 0x23236546 else 0xc3c35e9d
      else if b & 2 == 0 then if b & 1 == 0 then 0x18182830 else 0x9696a137 else if b & 1 == 0 then 0x05050f0a else 0x9a9ab52f
      else if b & 4 == 0 then if b & 2 == 0 then if b & 1 == 0 then 0x0707090e else 0x12123624 else if b & 1 == 0 then 0x80809b1b else 0xe2e23ddf
      else if b & 2 == 0 then if b & 1 == 0 then 0xebeb26cd else 0x2727694e else if b & 1 == 0 then 0xb2b2cd7f else 0x75759fea
    else if b & 0x20 == 0 then if b & 0x10 == 0 then
      if b & 8 == 0 then if b & 4 == 0 then if b & 2 == 0 then if b & 1 == 0 then 0x09091b12 else 0x83839e1d else if b & 1 == 0 then 0x2c2c7458 else 0x1a1a2e34
      else if b & 2 == 0 then if b & 1 == 0 then 0x1b1b2d36 else 0x6e6eb2dc else if b & 1 == 0 then 0x5a5aeeb4 else 0xa0a0fb5b
      else if b & 4 == 0 then if b & 2 == 0 then if b & 1 == 0 then 0x5252f6a4 else 0x3b3b4d76 else if b & 1 == 0 then 0xd6d661b7 else 0xb3b3ce7d
      else if b & 2 == 0 then if b & 1 == 0 then 0x29297b52 else 0xe3e33edd else if b & 1 == 0 then 0x2f2f715e else 0x84849713
    else
      if b & 8 == 0 then if b & 4 == 0 then if b & 2 == 0 then if b & 1 == 0 then 0x5353f5a6 else 0xd1d168b9 else if b & 1 == 0 then 0x00000000 else 0xeded2cc1
      else if b & 2 == 0 then if b & 1 == 0 then 0x20206040 else 0xfcfc1fe3 else if b & 1 == 0 then 0xb1b1c879 else 0x5b5bedb6
      else if b & 4 == 0 then if b & 2 == 0 then if b & 1 == 0 then 0x6a6abed4 else 0xcbcb468d else if b & 1 == 0 then 0xbebed967 else 0x39394b72
      else if b & 2 == 0 then if b & 1 == 0 then 0x4a4ade94 else 0x4c4cd498 else if b & 1 == 0 then 0x5858e8b0 else 0xcfcf4a85
    else if b & 0x10 == 0 then
      if b & 8 == 0 then if b & 4 == 0 then if b & 2 == 0 then if b & 1 == 0 then 0xd0d06bbb else 0xefef2ac5 else if b & 1 == 0 then 0xaaaae54f else 0xfbfb16ed
      else if b & 2 == 0 then if b & 1 == 0 then 0x4343c586 else 0x4d4dd79a else if b & 1 == 0 then 0x33335566 else 0x85859411
      else if b & 4 == 0 then if b & 2 == 0 then if b & 1 == 0 then 0x4545cf8a else 0xf9f910e9 else if b & 1 == 0 then 0x02020604 else 0x7f7f81fe
      else if b & 2 == 0 then if b & 1 == 0 then 0x5050f0a0 else 0x3c3c4478 else if b & 1 == 0 then 0x9f9fba25 else 0xa8a8e34b
    else
      if b & 8 == 0 then if b & 4 == 0 then if b & 2 == 0 then if b & 1 == 0 then 0x5151f3a2 else 0xa3a3fe5d else if b & 1 == 0 then 0x4040c080 else 0x8f8f8a05
      else if b & 2 == 0 then if b & 1 == 0 then 0x9292ad3f else 0x9d9dbc21 else if b & 1 == 0 then 0x38384870 else 0xf5f504f1
      else if b & 4 == 0 then if b & 2 == 0 then if b & 1 == 0 then 0xbcbcdf63 else 0xb6b6c177 else if b & 1 == 0 then 0xdada75af else 0x21216342
      else if b & 2 == 0 then if b & 1 == 0 then 0x10103020 else 0xffff1ae5 else if b & 1 == 0 then 0xf3f30efd else 0xd2d26dbf
    else if b & 0x40 == 0 then if b & 0x20 == 0 then if b & 0x10 == 0 then
      if b & 8 == 0 then if b & 4 == 0 then if b & 2 == 0 then if b & 1 == 0 then 0xcdcd4c81 else 0x0c0c1418 else if b & 1 == 0 then 0x13133526 else 0xecec2fc3
      else if b & 2 == 0 then if b & 1 == 0 then 0x5f5fe1be else 0x9797a235 else if b & 1 == 0 then 0x4444cc88 else 0x1717392e
      else if b & 4 == 0 then if b & 2 == 0 then if b & 1 == 0 then 0xc4c45793 else 0xa7a7f255 else if b & 1 == 0 then 0x7e7e82fc else 0x3d3d477a
      else if b & 2 == 0 then if b & 1 == 0 then 0x6464acc8 else 0x5d5de7ba else if b & 1 == 0 then 0x19192b32 else 0x737395e6
    else
      if b & 8 == 0 then if b & 4 == 0 then if b & 2 == 0 then if b & 1 == 0 then 0x6060a0c0 else 0x81819819 else if b & 1 == 0 then 0x4f4fd19e else 0xdcdc7fa3
      else if b & 2 == 0 then if b & 1 == 0 then 0x22226644 else 0x2a2a7e54 else if b & 1 == 0 then 0x9090ab3b else 0x8888830b
      else if b & 4 == 0 then if b & 2 == 0 then if b & 1 == 0 then 0x4646ca8c else 0xeeee29c7 else if b & 1 == 0 then 0xb8b8d36b else 0x14143c28
      else if b & 2 == 0 then if b & 1 == 0 then 0xdede79a7 else 0x5e5ee2bc else if b & 1 == 0 then 0x0b0b1d16 else 0xdbdb76ad
    else if b & 0x10 == 0 then
      if b & 8 == 0 then if b & 4 == 0 then if b & 2 == 0 then if b & 1 == 0 then 0xe0e03bdb else 0x32325664 else if b & 1 == 0 then 0x3a3a4e74 else 0x0a0a1e14
      else if b & 2 == 0 then if b & 1 == 0 then 0x4949db92 else 0x06060a0c else if b & 1 == 0 then 0x24246c48 else 0x5c5ce4b8
      else if b & 4 == 0 then if b & 2 == 0 then if b & 1 == 0 then 0xc2c25d9f else 0xd3d36ebd else if b & 1 == 0 then 0xacacef43 else 0x6262a6c4
      else if b & 2 == 0 then if b & 1 == 0 then 0x9191a839 else 0x9595a431 else if b & 1 == 0 then 0xe4e437d3 else 0x79798bf2
    else
      if b & 8 == 0 then if b & 4 == 0 then if b & 2 == 0 then if b & 1 == 0 then 0xe7e732d5 else 0xc8c8438b else if b & 1 == 0 then 0x3737596e else 0x6d6db7da
      else if b & 2 == 0 then if b & 1 == 0 then 0x8d8d8c01 else 0xd5d564b1 else if b & 1 == 0 then 0x4e4ed29c else 0xa9a9e049
      else if b & 4 == 0 then if b & 2 == 0 then if b & 1 == 0 then 0x6c6cb4d8 else 0x5656faac else if b & 1 == 0 then 0xf4f407f3 else 0xeaea25cf
      else if b & 2 == 0 then if b & 1 == 0 then 0x6565afca else 0x7a7a8ef4 else if b & 1 == 0 then 0xaeaee947 else 0x08081810
    else if b & 0x20 == 0 then if b & 0x10 == 0 then
      if b & 8 == 0 then if b & 4 == 0 then if b & 2 == 0 then if b & 1 == 0 then 0xbabad56f else 0x787888f0 else if b & 1 == 0 then 0x25256f4a else 0x2e2e725c
      else if b & 2 == 0 then if b & 1 == 0 then 0x1c1c2438 else 0xa6a6f157 else if b & 1 == 0 then 0xb4b4c773 else 0xc6c65197
      else if b & 4 == 0 then if b & 2 == 0 then if b & 1 == 0 then 0xe8e823cb else 0xdddd7ca1 else if b & 1 == 0 then 0x74749ce8 else 0x1f1f213e
      else if b & 2 == 0 then if b & 1 == 0 then 0x4b4bdd96 else 0xbdbddc61 else if b & 1 == 0 then 0x8b8b860d else 0x8a8a850f
    else
      if b & 8 == 0 then if b & 4 == 0 then if b & 2 == 0 then if b & 1 == 0 then 0x707090e0 else 0x3e3e427c else if b & 1 == 0 then 0xb5b5c471 else 0x6666aacc
      else if b & 2 == 0 then if b & 1 == 0 then 0x4848d890 else 0x03030506 else if b & 1 == 0 then 0xf6f601f7 else 0x0e0e121c
      else if b & 4 == 0 then if b & 2 == 0 then if b & 1 == 0 then 0x6161a3c2 else 0x35355f6a else if b & 1 == 0 then 0x5757f9ae else 0xb9b9d069
      else if b & 2 == 0 then if b & 1 == 0 then 0x86869117 else 0xc1c15899 else if b & 1 == 0 then 0x1d1d273a else 0x9e9eb927
    else if b & 0x10 == 0 then
      if b & 8 == 0 then if b & 4 == 0 then if b & 2 == 0 then if b & 1 == 0 then 0xe1e138d9 else 0xf8f813eb else if b & 1 == 0 then 0x9898b32b else 0x11113322
      else if b & 2 == 0 then if b & 1 == 0 then 0x6969bbd2 else 0xd9d970a9 else if b & 1 == 0 then 0x8e8e8907 else 0x9494a733
      else if b & 4 == 0 then if b & 2 == 0 then if b & 1 == 0 then 0x9b9bb62d else 0x1e1e223c else if b & 1 == 0 then 0x87879215 else 0xe9e920c9
      else if b & 2 == 0 then if b & 1 == 0 then 0xcece4987 else 0x5555ffaa else if b & 1 == 0 then 0x28287850 else 0xdfdf7aa5
    else
      if b & 8 == 0 then if b & 4 == 0 then if b & 2 == 0 then if b & 1 == 0 then 0x8c8c8f03 else 0xa1a1f859 else if b & 1 == 0 then 0x89898009 else 0x0d0d171a
      else if b & 2 == 0 then if b & 1 == 0 then 0xbfbfda65 else 0xe6e631d7 else if b & 1 == 0 then 0x4242c684 else 0x6868b8d0
      else if b & 4 == 0 then if b & 2 == 0 then if b & 1 == 0 then 0x4141c382 else 0x9999b029 else if b & 1 == 0 then 0x2d2d775a else 0x0f0f111e
      else if b & 2 == 0 then if b & 1 == 0 then 0xb0b0cb7b else 0x5454fca8 else if b & 1 == 0 then 0xbbbbd66d else 0x16163a2c
  }

  lemma Te0Is(b: bv8)
    ensures var s := Sbox(b); Te0(b) == Packed(Word(Xtime(s), s, s, Mul3(s)))
  {
  }

  lemma Te1Is(b: bv8)
    ensures var s := Sbox(b); Te1(b) == Packed(Word(Mul3(s), Xtime(s), s, s))
  {
  }

  lemma Te2Is(b: bv8)
    ensures var s := Sbox(b); Te2(b) == Packed(Word(s, Mul3(s), Xtime(s), s))
  {
  }

  lemma Te3Is(b: bv8)
    ensures var s := Sbox(b); Te3(b) == Packed(Word(s, s, Mul3(s), Xtime(s)))
  {
  }
}
