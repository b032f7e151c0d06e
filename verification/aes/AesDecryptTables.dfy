/** The tables Td0 to Td3 of AES_256_CBC.h, entry by entry: the inverse S-box and a column of InvMixColumns
    in one. */
module AesDecryptTables {
  import opened AesSbox
  import opened AesColumns

  function Td0(b: bv8): bv32 {
    if b & 0x80 == 0 then if b & 0x40 == 0 then if b & 0x20 == 0 then if b & 0x10 == 0 then
      if b & 8 == 0 then if b & 4 == 0 then if b & 2 == 0 then if b & 1 == 0 then 0x51f4a750 else 0x7e416553 else if b & 1 == 0 then 0x1a17a4c3 else 0x3a275e96
      else if b & 2 == 0 then if b & 1 == 0 then 0x3bab6bcb else 0x1f9d45f1 else if b & 1 == 0 then 0xacfa58ab else 0x4be30393
      else if b & 4 == 0 then if b & 2 == 0 then if b & 1 == 0 then 0x2030fa55 else 0xad766df6 else if b & 1 == 0 then 0x88cc7691 else 0xf5024c25
      else if b & 2 == 0 then if b & 1 == 0 then 0x4fe5d7fc else 0xc52acbd7 else if b & 1 == 0 then 0x26354480 else 0xb562a38f
    else
      if b & 8 == 0 then if b & 4 == 0 then if b & 2 == 0 then if b & 1 == 0 then 0xdeb15a49 else 0x25ba1b67 else if b & 1 == 0 then 0x45ea0e98 else 0x5dfec0e1
      else if b & 2 == 0 then if b & 1 == 0 then 0xc32f7502 else 0x814cf012 else if b & 1 == 0 then 0x8d4697a3 else 0x6bd3f9c6
      else if b & 4 == 0 then if b & 2 == 0 then if b & 1 == 0 then 0x038f5fe7 else 0x15929c95 else if b & 1 == 0 then 0xbf6d7aeb else 0x955259da
      else if b & 2 == 0 then if b & 1 == 0 then 0xd4be832d else 0x587421d3 else if b & 1 == 0 then 0x49e06929 else 0x8ec9c844
    else if b & 0x10 == 0 then
      if b & 8 == 0 then if b & 4 == 0 then if b & 2 == 0 then if b & 1 == 0 then 0x75c2896a else 0xf48e7978 else if b & 1 == 0 then 0x99583e6b else 0x27b971dd
      else if b & 2 == 0 then if b & 1 == 0 then 0xbee14fb6 else 0xf088ad17 else if b & 1 == 0 then 0xc920ac66 else 0x7dce3ab4
      else if b & 4 == 0 then if b & 2 == 0 then if b & 1 == 0 then 0x63df4a18 else 0xe51a3182 else if b & 1 == 0 then 0x97513360 else 0x62537f45
      else if b & 2 == 0 then if b & 1 == 0 then 0xb16477e0 else 0xbb6bae84 else if b & 1 == 0 then 0xfe81a01c else 0xf9082b94
    else
      if b & 8 == 0 then if b & 4 == 0 then if b & 2 == 0 then if b & 1 == 0 then 0x70486858 else 0x8f45fd19 else if b & 1 == 0 then 0x94de6c87 else 0x527bf8b7
      else if b & 2 == 0 then if b & 1 == 0 then 0xab73d323 else 0x724b02e2 else if b & 1 == 0 then 0xe31f8f57 else 0x6655ab2a
      else if b & 4 == 0 then if b & 2 == 0 then if b & 1 == 0 then 0xb2eb2807 else 0x2fb5c203 else if b & 1 == 0 then 0x86c57b9a else 0xd33708a5
      else if b & 2 == 0 then if b & 1 == 0 then 0x302887f2 else 0x23bfa5b2 else if b & 1 == 0 then 0x02036aba else 0xed16825c
    else if b & 0x20 == 0 then if b & 0x10 == 0 then
      if b & 8 == 0 then if b & 4 == 0 then if b & 2 == 0 then if b & 1 == 0 then 0x8acf1c2b else 0xa779b492 else if b & 1 == 0 then 0xf307f2f0 else 0x4e69e2a1
      else if b & 2 == 0 then if b & 1 == 0 then 0x65daf4cd else 0x0605bed5 else if b & 1 == 0 then 0xd134621f else 0xc4a6fe8a
      else if b & 4 == 0 then if b & 2 == 0 then if b & 1 == 0 then 0x342e539d else 0xa2f355a0 else if b & 1 == 0 then 0x058ae132 else 0xa4f6eb75
      else if b & 2 == 0 then if b & 1 == 0 then 0x0b83ec39 else 0x4060efaa else if b & 1 == 0 then 0x5e719f06 else 0xbd6e1051
    else
      if b & 8 == 0 then if b & 4 == 0 then if b & 2 == 0 then if b & 1 == 0 then 0x3e218af9 else 0x96dd063d else if b & 1 == 0 then 0xdd3e05ae else 0x4de6bd46
      else if b & 2 == 0 then if b & 1 == 0 then 0x91548db5 else 0x71c45d05 else if b & 1 == 0 then 0x0406d46f else 0x605015ff
      else if b & 4 == 0 then if b & 2 == 0 then if b & 1 == 0 then 0x1998fb24 else 0xd6bde997 else if b & 1 == 0 then 0x894043cc else 0x67d99e77
      else if b & 2 == 0 then if b & 1 == 0 then 0xb0e842bd else 0x07898b88 else if b & 1 == 0 then 0xe7195b38 else 0x79c8eedb
    else if b & 0x10 == 0 then
      if b & 8 == 0 then if b & 4 == 0 then if b & 2 == 0 then if b & 1 == 0 then 0xa17c0a47 else 0x7c420fe9 else if b & 1 == 0 then 0xf8841ec9 else 0x00000000
      else if b & 2 == 0 then if b & 1 == 0 then 0x09808683 else 0x322bed48 else if b & 1 == 0 then 0x1e1170ac else 0x6c5a724e
      else if b & 4 == 0 then if b & 2 == 0 then if b & 1 == 0 then 0xfd0efffb else 0x0f853856 else if b & 1 == 0 then 0x3daed51e else 0x362d3927
      else if b & 2 == 0 then if b & 1 == 0 then 0x0a0fd964 else 0x685ca621 else if b & 1 == 0 then 0x9b5b54d1 else 0x24362e3a
    else
      if b & 8 == 0 then if b & 4 == 0 then if b & 2 == 0 then if b & 1 == 0 then 0x0c0a67b1 else 0x9357e70f else if b & 1 == 0 then 0xb4ee96d2 else 0x1b9b919e
      else if b & 2 == 0 then if b & 1 == 0 then 0x80c0c54f else 0x61dc20a2 else if b & 1 == 0 then 0x5a774b69 else 0x1c121a16
      else if b & 4 == 0 then if b & 2 == 0 then if b & 1 == 0 then 0xe293ba0a else 0xc0a02ae5 else if b & 1 == 0 then 0x3c22e043 else 0x121b171d
      else if b & 2 == 0 then if b & 1 == 0 then 0x0e090d0b else 0xf28bc7ad else if b & 1 == 0 then 0x2db6a8b9 else 0x141ea9c8
    else if b & 0x40 == 0 then if b & 0x20 == 0 then if b & 0x10 == 0 then
      if b & 8 == 0 then if b & 4 == 0 then if b & 2 == 0 then if b & 1 == 0 then 0x57f11985 else 0xaf75074c else if b & 1 == 0 then 0xee99ddbb else 0xa37f60fd
      else if b & 2 == 0 then if b & 1 == 0 then 0xf701269f else 0x5c72f5bc else if b & 1 == 0 then 0x44663bc5 else 0x5bfb7e34
      else if b & 4 == 0 then if b & 2 == 0 then if b & 1 == 0 then 0x8b432976 else 0xcb23c6dc else if b & 1 == 0 then 0xb6edfc68 else 0xb8e4f163
      else if b & 2 == 0 then if b & 1 == 0 then 0xd731dcca else 0x42638510 else if b & 1 == 0 then 0x13972240 else 0x84c61120
    else
      if b & 8 == 0 then if b & 4 == 0 then if b & 2 == 0 then if b & 1 == 0 then 0x854a247d else 0xd2bb3df8 else if b & 1 == 0 then 0xaef93211 else 0xc729a16d
      else if b & 2 == 0 then if b & 1 == 0 then 0x1d9e2f4b else 0xdcb230f3 else if b & 1 == 0 then 0x0d8652ec else 0x77c1e3d0
      else if b & 4 == 0 then if b & 2 == 0 then if b & 1 == 0 then 0x2bb3166c else 0xa970b999 else if b & 1 == 0 then 0x119448fa else 0x47e96422
      else if b & 2 == 0 then if b & 1 == 0 then 0xa8fc8cc4 else 0xa0f03f1a else if b & 1 == 0 then 0x567d2cd8 else 0x223390ef
    else if b & 0x10 == 0 then
      if b & 8 == 0 then if b & 4 == 0 then if b & 2 == 0 then if b & 1 == 0 then 0x87494ec7 else 0xd938d1c1 else if b & 1 == 0 then 0x8ccaa2fe else 0x98d40b36
      else if b & 2 == 0 then if b & 1 == 0 then 0xa6f581cf else 0xa57ade28 else if b & 1 == 0 then 0xdab78e26 else 0x3fadbfa4
      else if b & 4 == 0 then if b & 2 == 0 then if b & 1 == 0 then 0x2c3a9de4 else 0x5078920d else if b & 1 == 0 then 0x6a5fcc9b else 0x547e4662
      else if b & 2 == 0 then if b & 1 == 0 then 0xf68d13c2 else 0x90d8b8e8 else if b & 1 == 0 then 0x2e39f75e else 0x82c3aff5
    else
      if b & 8 == 0 then if b & 4 == 0 then if b & 2 == 0 then if b & 1 == 0 then 0x9f5d80be else 0x69d0937c else if b & 1 == 0 then 0x6fd52da9 else 0xcf2512b3
      else if b & 2 == 0 then if b & 1 == 0 then 0xc8ac993b else 0x10187da7 else if b & 1 == 0 then 0xe89c636e else 0xdb3bbb7b
      else if b & 4 == 0 then if b & 2 == 0 then if b & 1 == 0 then 0xcd267809 else 0x6e5918f4 else if b & 1 == 0 then 0xec9ab701 else 0x834f9aa8
      else if b & 2 == 0 then if b & 1 == 0 then 0xe6956e65 else 0xaaffe67e else if b & 1 == 0 then 0x21bccf08 else 0xef15e8e6
    else if b & 0x20 == 0 then if b & 0x10 == 0 then
      if b & 8 == 0 then if b & 4 == 0 then if b & 2 == 0 then if b & 1 == 0 then 0xbae79bd9 else 0x4a6f36ce else if b & 1 == 0 then 0xea9f09d4 else 0x29b07cd6
      else if b & 2 == 0 then if b & 1 == 0 then 0x31a4b2af else 0x2a3f2331 else if b & 1 == 0 then 0xc6a59430 else 0x35a266c0
      else if b & 4 == 0 then if b & 2 == 0 then if b & 1 == 0 then 0x744ebc37 else 0xfc82caa6 else if b & 1 == 0 then 0xe090d0b0 else 0x33a7d815
      else if b & 2 == 0 then if b & 1 == 0 then 0xf104984a else 0x41ecdaf7 else if b & 1 == 0 then 0x7fcd500e else 0x1791f62f
    else
      if b & 8 == 0 then if b & 4 == 0 then if b & 2 == 0 then if b & 1 == 0 then 0x764dd68d else 0x43efb04d else if b & 1 == 0 then 0xccaa4d54 else 0xe49604df
      else if b & 2 == 0 then if b & 1 == 0 then 0x9ed1b5e3 else 0x4c6a881b else if b & 1 == 0 then 0xc12c1fb8 else 0x4665517f
      else if b & 4 == 0 then if b & 2 == 0 then if b & 1 == 0 then 0x9d5eea04 else 0x018c355d else if b & 1 == 0 then 0xfa877473 else 0xfb0b412e
      else if b & 2 == 0 then if b & 1 == 0 then 0xb3671d5a else 0x92dbd252 else if b & 1 == 0 then 0xe9105633 else 0x6dd64713
    else if b & 0x10 == 0 then
      if b & 8 == 0 then if b & 4 == 0 then if b & 2 == 0 then if b & 1 == 0 then 0x9ad7618c else 0x37a10c7a else if b & 1 == 0 then 0x59f8148e else 0xeb133c89
      else if b & 2 == 0 then if b & 1 == 0 then 0xcea927ee else 0xb761c935 else if b & 1 == 0 then 0xe11ce5ed else 0x7a47b13c
      else if b & 4 == 0 then if b & 2 == 0 then if b & 1 == 0 then 0x9cd2df59 else 0x55f2733f else if b & 1 == 0 then 0x1814ce79 else 0x73c737bf
      else if b & 2 == 0 then if b & 1 == 0 then 0x53f7cdea else 0x5ffdaa5b else if b & 1 == 0 then 0xdf3d6f14 else 0x7844db86
    else
      if b & 8 == 0 then if b & 4 == 0 then if b & 2 == 0 then if b & 1 == 0 then 0xcaaff381 else 0xb968c43e else if b & 1 == 0 then 0x3824342c else 0xc2a3405f
      else if b & 2 == 0 then if b & 1 == 0 then 0x161dc372 else 0xbce2250c else if b & 1 == 0 then 0x283c498b else 0xff0d9541
      else if b & 4 == 0 then if b & 2 == 0 then if b & 1 == 0 then 0x39a80171 else 0x080cb3de else if b & 1 == 0 then 0xd8b4e49c else 0x6456c190
      else if b & 2 == 0 then if b & 1 == 0 then 0x7bcb8461 else 0xd532b670 else if b & 1 == 0 then 0x486c5c74 else 0xd0b85742
  }

  function Td1(b: bv8): bv32 {
    if b & 0x80 == 0 then if b & 0x40 == 0 then if b & 0x20 == 0 then if b & 0x10 == 0 then
      if b & 8 == 0 then if b & 4 == 0 then if b & 2 == 0 then if b & 1 == 0 then 0x5051f4a7 else 0x537e4165 else if b & 1 == 0 then 0xc31a17a4 else 0x963a275e
      else if b & 2 == 0 then if b & 1 == 0 then 0xcb3bab6b else 0xf11f9d45 else if b & 1 == 0 then 0xabacfa58 else 0x934be303
      else if b & 4 == 0 then if b & 2 == 0 then if b & 1 == 0 then 0x552030fa else 0xf6ad766d else if b & 1 == 0 then 0x9188cc76 else 0x25f5024c
      else if b & 2 == 0 then if b & 1 == 0 then 0xfc4fe5d7 else 0xd7c52acb else if b & 1 == 0 then 0x80263544 else 0x8fb562a3
    else
      if b & 8 == 0 then if b & 4 == 0 then if b & 2 == 0 then if b & 1 == 0 then 0x49deb15a else 0x6725ba1b else if b & 1 == 0 then 0x9845ea0e else 0xe15dfec0
      else if b & 2 == 0 then if b & 1 == 0 then 0x02c32f75 else 0x12814cf0 else if b & 1 == 0 then 0xa38d4697 else 0xc66bd3f9
      else if b & 4 == 0 then if b & 2 == 0 then if b & 1 == 0 then 0xe7038f5f else 0x9515929c else if b & 1 == 0 then 0xebbf6d7a else 0xda955259
      else if b & 2 == 0 then if b & 1 == 0 then 0x2dd4be83 else 0xd3587421 else if b & 1 == 0 then 0x2949e069 else 0x448ec9c8
    else if b & 0x10 == 0 then
      if b & 8 == 0 then if b & 4 == 0 then if b & 2 == 0 then if b & 1 == 0 then 0x6a75c289 else 0x78f48e79 else if b & 1 == 0 then 0x6b99583e else 0xdd27b971
      else if b & 2 == 0 then if b & 1 == 0 then 0xb6bee14f else 0x17f088ad else if b & 1 == 0 then 0x66c920ac else 0xb47dce3a
      else if b & 4 == 0 then if b & 2 == 0 then if b & 1 == 0 then 0x1863df4a else 0x82e51a31 else if b & 1 == 0 then 0x60975133 else 0x4562537f
      else if b & 2 == 0 then if b & 1 == 0 then 0xe0b16477 else 0x84bb6bae else if b & 1 == 0 then 0x1cfe81a0 else 0x94f9082b
    else
      if b & 8 == 0 then if b & 4 == 0 then if b & 2 == 0 then if b & 1 == 0 then 0x58704868 else 0x198f45fd else if b & 1 == 0 then 0x8794de6c else 0xb7527bf8
      else if b & 2 == 0 then if b & 1 == 0 then 0x23ab73d3 else 0xe2724b02 else if b & 1 == 0 then 0x57e31f8f else 0x2a6655ab
      else if b & 4 == 0 then if b & 2 == 0 then if b & 1 == 0 then 0x07b2eb28 else 0x032fb5c2 else if b & 1 == 0 then 0x9a86c57b else 0xa5d33708
      else if b & 2 == 0 then if b & 1 == 0 then 0xf2302887 else 0xb223bfa5 else if b & 1 == 0 then 0xba02036a else 0x5ced1682
    else if b & 0x20 == 0 then if b & 0x10 == 0 then
      if b & 8 == 0 then if b & 4 == 0 then if b & 2 == 0 then if b & 1 == 0 then 0x2b8acf1c else 0x92a779b4 else if b & 1 == 0 then 0xf0f307f2 else 0xa14e69e2
      else if b & 2 == 0 then if b & 1 == 0 then 0xcd65daf4 else 0xd50605be else if b & 1 == 0 then 0x1fd13462 else 0x8ac4a6fe
      else if b & 4 == 0 then if b & 2 == 0 then if b & 1 == 0 then 0x9d342e53 else 0xa0a2f355 else if b & 1 == 0 then 0x32058ae1 else 0x75a4f6eb
      else if b & 2 == 0 then if b & 1 == 0 then 0x390b83ec else 0xaa4060ef else if b & 1 == 0 then 0x065e719f else 0x51bd6e10
    else
      if b & 8 == 0 then if b & 4 == 0 then if b & 2 == 0 then if b & 1 == 0 then 0xf93e218a else 0x3d96dd06 else if b & 1 == 0 then 0xaedd3e05 else 0x464de6bd
      else if b & 2 == 0 then if b & 1 == 0 then 0xb591548d else 0x0571c45d else if b & 1 == 0 then 0x6f0406d4 else 0xff605015
      else if b & 4 == 0 then if b & 2 == 0 then if b & 1 == 0 then 0x241998fb else 0x97d6bde9 else if b & 1 == 0 then 0xcc894043 else 0x7767d99e
      else if b & 2 == 0 then if b & 1 == 0 then 0xbdb0e842 else 0x8807898b else if b & 1 == 0 then 0x38e7195b else 0xdb79c8ee
    else if b & 0x10 == 0 then
      if b & 8 == 0 then if b & 4 == 0 then if b & 2 == 0 then if b & 1 == 0 then 0x47a17c0a else 0xe97c420f else if b & 1 == 0 then 0xc9f8841e else 0x00000000
      else if b & 2 == 0 then if b & 1 == 0 then 0x83098086 else 0x48322bed else if b & 1 == 0 then 0xac1e1170 else 0x4e6c5a72
      else if b & 4 == 0 then if b & 2 == 0 then if b & 1 == 0 then 0xfbfd0eff else 0x560f8538 else if b & 1 == 0 then 0x1e3daed5 else 0x27362d39
      else if b & 2 == 0 then if b & 1 == 0 then 0x640a0fd9 else 0x21685ca6 else if b & 1 == 0 then 0xd19b5b54 else 0x3a24362e
    else
      if b & 8 == 0 then if b & 4 == 0 then if b & 2 == 0 then if b & 1 == 0 then 0xb10c0a67 else 0x0f9357e7 else if b & 1 == 0 then 0xd2b4ee96 else 0x9e1b9b91
      else if b & 2 == 0 then if b & 1 == 0 then 0x4f80c0c5 else 0xa261dc20 else if b & 1 == 0 then 0x695a774b else 0x161c121a
      else if b & 4 == 0 then if b & 2 == 0 then if b & 1 == 0 then 0x0ae293ba else 0xe5c0a02a else if b & 1 == 0 then 0x433c22e0 else 0x1d121b17
      else if b & 2 == 0 then if b & 1 == 0 then 0x0b0e090d else 0xadf28bc7 else if b & 1 == 0 then 0xb92db6a8 else 0xc8141ea9
    else if b & 0x40 == 0 then if b & 0x20 == 0 then if b & 0x10 == 0 then
      if b & 8 == 0 then if b & 4 == 0 then if b & 2 == 0 then if b & 1 == 0 then 0x8557f119 else 0x4caf7507 else if b & 1 == 0 then 0xbbee99dd else 0xfda37f60
      else if b & 2 == 0 then if b & 1 == 0 then 0x9ff70126 else 0xbc5c72f5 else if b & 1 == 0 then 0xc544663b else 0x345bfb7e
      else if b & 4 == 0 then if b & 2 == 0 then if b & 1 == 0 then 0x768b4329 else 0xdccb23c6 else if b & 1 == 0 then 0x68b6edfc else 0x63b8e4f1
      else if b & 2 == 0 then if b & 1 == 0 then 0xcad731dc else 0x10426385 else if b & 1 == 0 then 0x40139722 else 0x2084c611
    else
      if b & 8 == 0 then if b & 4 == 0 then if b & 2 == 0 then if b & 1 == 0 then 0x7d854a24 else 0xf8d2bb3d else if b & 1 == 0 then 0x11aef932 else 0x6dc729a1
      else if b & 2 == 0 then if b & 1 == 0 then 0x4b1d9e2f else 0xf3dcb230 else if b & 1 == 0 then 0xec0d8652 else 0xd077c1e3
      else if b & 4 == 0 then if b & 2 == 0 then if b & 1 == 0 then 0x6c2bb316 else 0x99a970b9 else if b & 1 == 0 then 0xfa119448 else 0x2247e964
      else if b & 2 == 0 then if b & 1 == 0 then 0xc4a8fc8c else 0x1aa0f03f else if b & 1 == 0 then 0xd8567d2c else 0xef223390
    else if b & 0x10 == 0 then
      if b & 8 == 0 then if b & 4 == 0 then if b & 2 == 0 then if b & 1 == 0 then 0xc787494e else 0xc1d938d1 else if b & 1 == 0 then 0xfe8ccaa2 else 0x3698d40b
      else if b & 2 == 0 then if b & 1 == 0 then 0xcfa6f581 else 0x28a57ade else if b & 1 == 0 then 0x26dab78e else 0xa43fadbf
      else if b & 4 == 0 then if b & 2 == 0 then if b & 1 == 0 then 0xe42c3a9d else 0x0d507892 else if b & 1 == 0 then 0x9b6a5fcc else 0x62547e46
      else if b & 2 == 0 then if b & 1 == 0 then 0xc2f68d13 else 0xe890d8b8 else if b & 1 == 0 then 0x5e2e39f7 else 0xf582c3af
    else
      if b & 8 == 0 then if b & 4 == 0 then if b & 2 == 0 then if b & 1 == 0 then 0xbe9f5d80 else 0x7c69d093 else if b & 1 == 0 then 0xa96fd52d else 0xb3cf2512
      else if b & 2 == 0 then if b & 1 == 0 then 0x3bc8ac99 else 0xa710187d else if b & 1 == 0 then 0x6ee89c63 else 0x7bdb3bbb
      else if b & 4 == 0 then if b & 2 == 0 then if b & 1 == 0 then 0x09cd2678 else 0xf46e5918 else if b & 1 == 0 then 0x01ec9ab7 else 0xa8834f9a
      else if b & 2 == 0 then if b & 1 == 0 then 0x65e6956e else 0x7eaaffe6 else if b & 1 == 0 then 0x0821bccf else 0xe6ef15e8
    else if b & 0x20 == 0 then if b & 0x10 == 0 then
      if b & 8 == 0 then if b & 4 == 0 then if b & 2 == 0 then if b & 1 == 0 then 0xd9bae79b else 0xce4a6f36 else if b & 1 == 0 then 0xd4ea9f09 else 0xd629b07c
      else if b & 2 == 0 then if b & 1 == 0 then 0xaf31a4b2 else 0x312a3f23 else if b & 1 == 0 then 0x30c6a594 else 0xc035a266
      else if b & 4 == 0 then if b & 2 == 0 then if b & 1 == 0 then 0x37744ebc else 0xa6fc82ca else if b & 1 == 0 then 0xb0e090d0 else 0x1533a7d8
      else if b & 2 == 0 then if b & 1 == 0 then 0x4af10498 else 0xf741ecda else if b & 1 == 0 then 0x0e7fcd50 else 0x2f1791f6
    else
      if b & 8 == 0 then if b & 4 == 0 then if b & 2 == 0 then if b & 1 == 0 then 0x8d764dd6 else 0x4d43efb0 else if b & 1 == 0 then 0x54ccaa4d else 0xdfe49604
      else if b & 2 == 0 then if b & 1 == 0 then 0xe39ed1b5 else 0x1b4c6a88 else if b & 1 == 0 then 0xb8c12c1f else 0x7f466551
      else if b & 4 == 0 then if b & 2 == 0 then if b & 1 == 0 then 0x049d5eea else 0x5d018c35 else if b & 1 == 0 then 0x73fa8774 else 0x2efb0b41
      else if b & 2 == 0 then if b & 1 == 0 then 0x5ab3671d else 0x5292dbd2 else if b & 1 == 0 then 0x33e91056 else 0x136dd647
    else if b & 0x10 == 0 then
      if b & 8 == 0 then if b & 4 == 0 then if b & 2 == 0 then if b & 1 == 0 then 0x8c9ad761 else 0x7a37a10c else if b & 1 == 0 then 0x8e59f814 else 0x89eb133c
      else if b & 2 == 0 then if b & 1 == 0 then 0xeecea927 else 0x35b761c9 else if b & 1 == 0 then 0xede11ce5 else 0x3c7a47b1
      else if b & 4 == 0 then if b & 2 == 0 then if b & 1 == 0 then 0x599cd2df else 0x3f55f273 else if b & 1 == 0 then 0x791814ce else 0xbf73c737
      else if b & 2 == 0 then if b & 1 == 0 then 0xea53f7cd else 0x5b5ffdaa else if b & 1 == 0 then 0x14df3d6f else 0x867844db
    else
      if b & 8 == 0 then if b & 4 == 0 then if b & 2 == 0 then if b & 1 == 0 then 0x81caaff3 else 0x3eb968c4 else if b & 1 == 0 then 0x2c382434 else 0x5fc2a340
      else if b & 2 == 0 then if b & 1 == 0 then 0x72161dc3 else 0x0cbce225 else if b & 1 == 0 then 0x8b283c49 else 0x41ff0d95
      else if b & 4 == 0 then if b & 2 == 0 then if b & 1 == 0 then 0x7139a801 else 0xde080cb3 else if b & 1 == 0 then 0x9cd8b4e4 else 0x906456c1
      else if b & 2 == 0 then if b & 1 == 0 then 0x617bcb84 else 0x70d532b6 else if b & 1 == 0 then 0x74486c5c else 0x42d0b857
  }

  function Td2(b: bv8): bv32 {
    if b & 0x80 == 0 then if b & 0x40 == 0 then if b & 0x20 == 0 then if b & 0x10 == 0 then
      if b & 8 == 0 then if b & 4 == 0 then if b & 2 == 0 then if b & 1 == 0 then 0xa75051f4 else 0x65537e41 else if b & 1 == 0 then 0xa4c31a17 else 0x5e963a27
      else if b & 2 == 0 then if b & 1 == 0 then 0x6bcb3bab else 0x45f11f9d else if b & 1 == 0 then 0x58abacfa else 0x03934be3
      else if b & 4 == 0 then if b & 2 == 0 then if b & 1 == 0 then 0xfa552030 else 0x6df6ad76 else if b & 1 == 0 then 0x769188cc else 0x4c25f502
      else if b & 2 == 0 then if b & 1 == 0 then 0xd7fc4fe5 else 0xcbd7c52a else if b & 1 == 0 then 0x44802635 else 0xa38fb562
    else
      if b & 8 == 0 then if b & 4 == 0 then if b & 2 == 0 then if b & 1 == 0 then 0x5a49deb1 else 0x1b6725ba else if b & 1 == 0 then 0x0e9845ea else 0xc0e15dfe
      else if b & 2 == 0 then if b & 1 == 0 then 0x7502c32f else 0xf012814c else if b & 1 == 0 then 0x97a38d46 else 0xf9c66bd3
      else if b & 4 == 0 then if b & 2 == 0 then if b & 1 == 0 then 0x5fe7038f else 0x9c951592 else if b & 1 == 0 then 0x7aebbf6d else 0x59da9552
      else if b & 2 == 0 then if b & 1 == 0 then 0x832dd4be else 0x21d35874 else if b & 1 == 0 then 0x692949e0 else 0xc8448ec9
    else if b & 0x10 == 0 then
      if b & 8 == 0 then if b & 4 == 0 then if b & 2 == 0 then if b & 1 == 0 then 0x896a75c2 else 0x7978f48e else if b & 1 == 0 then 0x3e6b9958 else 0x71dd27b9
      else if b & 2 == 0 then if b & 1 == 0 then 0x4fb6bee1 else 0xad17f088 else if b & 1 == 0 then 0xac66c920 else 0x3ab47dce
      else if b & 4 == 0 then if b & 2 == 0 then if b & 1 == 0 then 0x4a1863df else 0x3182e51a else if b & 1 == 0 then 0x33609751 else 0x7f456253
      else if b & 2 == 0 then if b & 1 == 0 then 0x77e0b164 else 0xae84bb6b else if b & 1 == 0 then 0xa01cfe81 else 0x2b94f908
    else
      if b & 8 == 0 then if b & 4 == 0 then if b & 2 == 0 then if b & 1 == 0 then 0x68587048 else 0xfd198f45 else if b & 1 == 0 then 0x6c8794de else 0xf8b7527b
      else if b & 2 == 0 then if b & 1 == 0 then 0xd323ab73 else 0x02e2724b else if b & 1 == 0 then 0x8f57e31f else 0xab2a6655
      else if b & 4 == 0 then if b & 2 == 0 then if b & 1 == 0 then 0x2807b2eb else 0xc2032fb5 else if b & 1 == 0 then 0x7b9a86c5 else 0x08a5d337
      else if b & 2 == 0 then if b & 1 == 0 then 0x87f23028 else 0xa5b223bf else if b & 1 == 0 then 0x6aba0203 else 0x825ced16
    else if b & 0x20 == 0 then if b & 0x10 == 0 then
      if b & 8 == 0 then if b & 4 == 0 then if b & 2 == 0 then if b & 1 == 0 then 0x1c2b8acf else 0xb492a779 else if b & 1 == 0 then 0xf2f0f307 else 0xe2a14e69
      else if b & 2 == 0 then if b & 1 == 0 then 0xf4cd65da else 0xbed50605 else if b & 1 == 0 then 0x621fd134 else 0xfe8ac4a6
      else if b & 4 == 0 then if b & 2 == 0 then if b & 1 == 0 then 0x539d342e else 0x55a0a2f3 else if b & 1 == 0 then 0xe132058a else 0xeb75a4f6
      else if b & 2 == 0 then if b & 1 == 0 then 0xec390b83 else 0xefaa4060 else if b & 1 == 0 then 0x9f065e71 else 0x1051bd6e
    else
      if b & 8 == 0 then if b & 4 == 0 then if b & 2 == 0 then if b & 1 == 0 then 0x8af93e21 else 0x063d96dd else if b & 1 == 0 then 0x05aedd3e else 0xbd464de6
      else if b & 2 == 0 then if b & 1 == 0 then 0x8db59154 else 0x5d0571c4 else if b & 1 == 0 then 0xd46f0406 else 0x15ff6050
      else if b & 4 == 0 then if b & 2 == 0 then if b & 1 == 0 then 0xfb241998 else 0xe997d6bd else if b & 1 == 0 then 0x43cc8940 else 0x9e7767d9
      else if b & 2 == 0 then if b & 1 == 0 then 0x42bdb0e8 else 0x8b880789 else if b & 1 == 0 then 0x5b38e719 else 0xeedb79c8
    else if b & 0x10 == 0 then
      if b & 8 == 0 then if b & 4 == 0 then if b & 2 == 0 then if b & 1 == 0 then 0x0a47a17c else 0x0fe97c42 else if b & 1 == 0 then 0x1ec9f884 else 0x00000000
      else if b & 2 == 0 then if b & 1 == 0 then 0x86830980 else 0xed48322b else if b & 1 == 0 then 0x70ac1e11 else 0x724e6c5a
      else if b & 4 == 0 then if b & 2 == 0 then if b & 1 == 0 then 0xfffbfd0e else 0x38560f85 else if b & 1 == 0 then 0xd51e3dae else 0x3927362d
      else if b & 2 == 0 then if b & 1 == 0 then 0xd9640a0f else 0xa621685c else if b & 1 == 0 then 0x54d19b5b else 0x2e3a2436
    else
      if b & 8 == 0 then if b & 4 == 0 then if b & 2 == 0 then if b & 1 == 0 then 0x67b10c0a else 0xe70f9357 else if b & 1 == 0 then 0x96d2b4ee else 0x919e1b9b
      else if b & 2 == 0 then if b & 1 == 0 then 0xc54f80c0 else 0x20a261dc else if b & 1 == 0 then 0x4b695a77 else 0x1a161c12
      else if b & 4 == 0 then if b & 2 == 0 then if b & 1 == 0 then 0xba0ae293 else 0x2ae5c0a0 else if b & 1 == 0 then 0xe0433c22 else 0x171d121b
      else if b & 2 == 0 then if b & 1 == 0 then 0x0d0b0e09 else 0xc7adf28b else if b & 1 == 0 then 0xa8b92db6 else 0xa9c8141e
    else if b & 0x40 == 0 then if b & 0x20 == 0 then if b & 0x10 == 0 then
      if b & 8 == 0 then if b & 4 == 0 then if b & 2 == 0 then if b & 1 == 0 then 0x198557f1 else 0x074caf75 else if b & 1 == 0 then 0xddbbee99 else 0x60fda37f
      else if b & 2 == 0 then if b & 1 == 0 then 0x269ff701 else 0xf5bc5c72 else if b & 1 == 0 then 0x3bc54466 else 0x7e345bfb
      else if b & 4 == 0 then if b & 2 == 0 then if b & 1 == 0 then 0x29768b43 else 0xc6dccb23 else if b & 1 == 0 then 0xfc68b6ed else 0xf163b8e4
      else if b & 2 == 0 then if b & 1 == 0 then 0xdccad731 else 0x85104263 else if b & 1 == 0 then 0x22401397 else 0x112084c6
    else
      if b & 8 == 0 then if b & 4 == 0 then if b & 2 == 0 then if b & 1 == 0 then 0x247d854a else 0x3df8d2bb else if b & 1 == 0 then 0x3211aef9 else 0xa16dc729
      else if b & 2 == 0 then if b & 1 == 0 then 0x2f4b1d9e else 0x30f3dcb2 else if b & 1 == 0 then 0x52ec0d86 else 0xe3d077c1
      else if b & 4 == 0 then if b & 2 == 0 then if b & 1 == 0 then 0x166c2bb3 else 0xb999a970 else if b & 1 == 0 then 0x48fa1194 else 0x642247e9
      else if b & 2 == 0 then if b & 1 == 0 then 0x8cc4a8fc else 0x3f1aa0f0 else if b & 1 == 0 then 0x2cd8567d else 0x90ef2233
    else if b & 0x10 == 0 then
      if b & 8 == 0 then if b & 4 == 0 then if b & 2 == 0 then if b & 1 == 0 then 0x4ec78749 else 0xd1c1d938 else if b & 1 == 0 then 0xa2fe8cca else 0x0b3698d4
      else if b & 2 == 0 then if b & 1 == 0 then 0x81cfa6f5 else 0xde28a57a else if b & 1 == 0 then 0x8e26dab7 else 0xbfa43fad
      else if b & 4 == 0 then if b & 2 == 0 then if b & 1 == 0 then 0x9de42c3a else 0x920d5078 else if b & 1 == 0 then 0xcc9b6a5f else 0x4662547e
      else if b & 2 == 0 then if b & 1 == 0 then 0x13c2f68d else 0xb8e890d8 else if b & 1 == 0 then 0xf75e2e39 else 0xaff582c3
    else
      if b & 8 == 0 then if b & 4 == 0 then if b & 2 == 0 then if b & 1 == 0 then 0x80be9f5d else 0x937c69d0 else if b & 1 == 0 then 0x2da96fd5 else 0x12b3cf25
      else if b & 2 == 0 then if b & 1 == 0 then 0x993bc8ac else 0x7da71018 else if b & 1 == 0 then 0x636ee89c else 0xbb7bdb3b
      else if b & 4 == 0 then if b & 2 == 0 then if b & 1 == 0 then 0x7809cd26 else 0x18f46e59 else if b & 1 == 0 then 0xb701ec9a else 0x9aa8834f
      else if b & 2 == 0 then if b & 1 == 0 then 0x6e65e695 else 0xe67eaaff else if b & 1 == 0 then 0xcf0821bc else 0xe8e6ef15
    else if b & 0x20 == 0 then if b & 0x10 == 0 then
      if b & 8 == 0 then if b & 4 == 0 then if b & 2 == 0 then if b & 1 == 0 then 0x9bd9bae7 else 0x36ce4a6f else if b & 1 == 0 then 0x09d4ea9f else 0x7cd629b0
      else if b & 2 == 0 then if b & 1 == 0 then 0xb2af31a4 else 0x23312a3f else if b & 1 == 0 then 0x9430c6a5 else 0x66c035a2
      else if b & 4 == 0 then if b & 2 == 0 then if b & 1 == 0 then 0xbc37744e else 0xcaa6fc82 else if b & 1 == 0 then 0xd0b0e090 else 0xd81533a7
      else if b & 2 == 0 then if b & 1 == 0 then 0x984af104 else 0xdaf741ec else if b & 1 == 0 then 0x500e7fcd else 0xf62f1791
    else
      if b & 8 == 0 then if b & 4 == 0 then if b & 2 == 0 then if b & 1 == 0 then 0xd68d764d else 0xb04d43ef else if b & 1 == 0 then 0x4d54ccaa else 0x04dfe496
      else if b & 2 == 0 then if b & 1 == 0 then 0xb5e39ed1 else 0x881b4c6a else if b & 1 == 0 then 0x1fb8c12c else 0x517f4665
      else if b & 4 == 0 then if b & 2 == 0 then if b & 1 == 0 then 0xea049d5e else 0x355d018c else if b & 1 == 0 then 0x7473fa87 else 0x412efb0b
      else if b & 2 == 0 then if b & 1 == 0 then 0x1d5ab367 else 0xd25292db else if b & 1 == 0 then 0x5633e910 else 0x47136dd6
    else if b & 0x10 == 0 then
      if b & 8 == 0 then if b & 4 == 0 then if b & 2 == 0 then if b & 1 == 0 then 0x618c9ad7 else 0x0c7a37a1 else if b & 1 == 0 then 0x148e59f8 else 0x3c89eb13
      else if b & 2 == 0 then if b & 1 == 0 then 0x27eecea9 else 0xc935b761 else if b & 1 == 0 then 0xe5ede11c else 0xb13c7a47
      else if b & 4 == 0 then if b & 2 == 0 then if b & 1 == 0 then 0xdf599cd2 else 0x733f55f2 else if b & 1 == 0 then 0xce791814 else 0x37bf73c7
      else if b & 2 == 0 then if b & 1 == 0 then 0xcdea53f7 else 0xaa5b5ffd else if b & 1 == 0 then 0x6f14df3d else 0xdb867844
    else
      if b & 8 == 0 then if b & 4 == 0 then if b & 2 == 0 then if b & 1 == 0 then 0xf381caaf else 0xc43eb968 else if b & 1 == 0 then 0x342c3824 else 0x405fc2a3
      else if b & 2 == 0 then if b & 1 == 0 then 0xc372161d else 0x250cbce2 else if b & 1 == 0 then 0x498b283c else 0x9541ff0d
      else if b & 4 == 0 then if b & 2 == 0 then if b & 1 == 0 then 0x017139a8 else 0xb3de080c else if b & 1 == 0 then 0xe49cd8b4 else 0xc1906456
      else if b & 2 == 0 then if b & 1 == 0 then 0x84617bcb else 0xb670d532 else if b & 1 == 0 then 0x5c74486c else 0x5742d0b8
  }

  function Td3(b: bv8): bv32 {
    if b & 0x80 == 0 then if b & 0x40 == 0 then if b & 0x20 == 0 then if b & 0x10 == 0 then
      if b & 8 == 0 then if b & 4 == 0 then if b & 2 == 0 then if b & 1 == 0 then 0xf4a75051 else 0x4165537e else if b & 1 == 0 then 0x17a4c31a else 0x275e963a
      else if b & 2 == 0 then if b & 1 == 0 then 0xab6bcb3b else 0x9d45f11f else if b & 1 == 0 then 0xfa58abac else 0xe303934b
      else if b & 4 == 0 then if b & 2 == 0 then if b & 1 == 0 then 0x30fa5520 else 0x766df6ad else if b & 1 == 0 then 0xcc769188 else 0x024c25f5
      else if b & 2 == 0 then if b & 1 == 0 then 0xe5d7fc4f else 0x2acbd7c5 else if b & 1 == 0 then 0x35448026 else 0x62a38fb5
    else
      if b & 8 == 0 then if b & 4 == 0 then if b & 2 == 0 then if b & 1 == 0 then 0xb15a49de else 0xba1b6725 else if b & 1 == 0 then 0xea0e9845 else 0xfec0e15d
      else if b & 2 == 0 then if b & 1 == 0 then 0x2f7502c3 else 0x4cf01281 else if b & 1 == 0 then 0x4697a38d else 0xd3f9c66b
      else if b & 4 == 0 then if b & 2 == 0 then if b & 1 == 0 then 0x8f5fe703 else 0x929c9515 else if b & 1 == 0 then 0x6d7aebbf else 0x5259da95
      else if b & 2 == 0 then if b & 1 == 0 then 0xbe832dd4 else 0x7421d358 else if b & 1 == 0 then 0xe0692949 else 0xc9c8448e
    else if b & 0x10 == 0 then
      if b & 8 == 0 then if b & 4 == 0 then if b & 2 == 0 then if b & 1 == 0 then 0xc2896a75 else 0x8e7978f4 else if b & 1 == 0 then 0x583e6b99 else 0xb971dd27
      else if b & 2 == 0 then if b & 1 == 0 then 0xe14fb6be else 0x88ad17f0 else if b & 1 == 0 then 0x20ac66c9 else 0xce3ab47d
      else if b & 4 == 0 then if b & 2 == 0 then if b & 1 == 0 then 0xdf4a1863 else 0x1a3182e5 else if b & 1 == 0 then 0x51336097 else 0x537f4562
      else if b & 2 == 0 then if b & 1 == 0 then 0x6477e0b1 else 0x6bae84bb else if b & 1 == 0 then 0x81a01cfe else 0x082b94f9
    else
      if b & 8 == 0 then if b & 4 == 0 then if b & 2 == 0 then if b & 1 == 0 then 0x48685870 else 0x45fd198f else if b & 1 == 0 then 0xde6c8794 else 0x7bf8b752
      else if b & 2 == 0 then if b & 1 == 0 then 0x73d323ab else 0x4b02e272 else if b & 1 == 0 then 0x1f8f57e3 else 0x55ab2a66
      else if b & 4 == 0 then if b & 2 == 0 then if b & 1 == 0 then 0xeb2807b2 else 0xb5c2032f else if b & 1 == 0 then 0xc57b9a86 else 0x3708a5d3
      else if b & 2 == 0 then if b & 1 == 0 then 0x2887f230 else 0xbfa5b223 else if b & 1 == 0 then 0x036aba02 else 0x16825ced
    else if b & 0x20 == 0 then if b & 0x10 == 0 then
      if b & 8 == 0 then if b & 4 == 0 then if b & 2 == 0 then if b & 1 == 0 then 0xcf1c2b8a else 0x79b492a7 else if b & 1 == 0 then 0x07f2f0f3 else 0x69e2a14e
      else if b & 2 == 0 then if b & 1 == 0 then 0xdaf4cd65 else 0x05bed506 else if b & 1 == 0 then 0x34621fd1 else 0xa6fe8ac4
      else if b & 4 == 0 then if b & 2 == 0 then if b & 1 == 0 then 0x2e539d34 else 0xf355a0a2 else if b & 1 == 0 then 0x8ae13205 else 0xf6eb75a4
      else if b & 2 == 0 then if b & 1 == 0 then 0x83ec390b else 0x60efaa40 else if b & 1 == 0 then 0x719f065e else 0x6e1051bd
    else
      if b & 8 == 0 then if b & 4 == 0 then if b & 2 == 0 then if b & 1 == 0 then 0x218af93e else 0xdd063d96 else if b & 1 == 0 then 0x3e05aedd else 0xe6bd464d
      else if b & 2 == 0 then if b & 1 == 0 then 0x548db591 else 0xc45d0571 else if b & 1 == 0 then 0x06d46f04 else 0x5015ff60
      else if b & 4 == 0 then if b & 2 == 0 then if b & 1 == 0 then 0x98fb2419 else 0xbde997d6 else if b & 1 == 0 then 0x4043cc89 else 0xd99e7767
      else if b & 2 == 0 then if b & 1 == 0 then 0xe842bdb0 else 0x898b8807 else if b & 1 == 0 then 0x195b38e7 else 0xc8eedb79
    else if b & 0x10 == 0 then
      if b & 8 == 0 then if b & 4 == 0 then if b & 2 == 0 then if b & 1 == 0 then 0x7c0a47a1 else 0x420fe97c else if b & 1 == 0 then 0x841ec9f8 else 0x00000000
      else if b & 2 == 0 then if b & 1 == 0 then 0x80868309 else 0x2bed4832 else if b & 1 == 0 then 0x1170ac1e else 0x5a724e6c
      else if b & 4 == 0 then if b & 2 == 0 then if b & 1 == 0 then 0x0efffbfd else 0x8538560f else if b & 1 == 0 then 0xaed51e3d else 0x2d392736
      else if b & 2 == 0 then if b & 1 == 0 then 0x0fd9640a else 0x5ca62168 else if b & 1 == 0 then 0x5b54d19b else 0x362e3a24
    else
      if b & 8 == 0 then if b & 4 == 0 then if b & 2 == 0 then if b & 1 == 0 then 0x0a67b10c else 0x57e70f93 else if b & 1 == 0 then 0xee96d2b4 else 0x9b919e1b
      else if b & 2 == 0 then if b & 1 == 0 then 0xc0c54f80 else 0xdc20a261 else if b & 1 == 0 then 0x774b695a else 0x121a161c
      else if b & 4 == 0 then if b & 2 == 0 then if b & 1 == 0 then 0x93ba0ae2 else 0xa02ae5c0 else if b & 1 == 0 then 0x22e0433c else 0x1b171d12
      else if b & 2 == 0 then if b & 1 == 0 then 0x090d0b0e else 0x8bc7adf2 else if b & 1 == 0 then 0xb6a8b92d else 0x1ea9c814
    else if b & 0x40 == 0 then if b & 0x20 == 0 then if b & 0x10 == 0 then
      if b & 8 == 0 then if b & 4 == 0 then if b & 2 == 0 then if b & 1 == 0 then 0xf1198557 else 0x75074caf else if b & 1 == 0 then 0x99ddbbee else 0x7f60fda3
      else if b & 2 == 0 then if b & 1 == 0 then 0x01269ff7 else 0x72f5bc5c else if b & 1 == 0 then 0x663bc544 else 0xfb7e345b
      else if b & 4 == 0 then if b & 2 == 0 then if b & 1 == 0 then 0x4329768b else 0x23c6dccb else if b & 1 == 0 then 0xedfc68b6 else 0xe4f163b8
      else if b & 2 == 0 then if b & 1 == 0 then 0x31dccad7 else 0x63851042 else if b & 1 == 0 then 0x97224013 else 0xc6112084
    else
      if b & 8 == 0 then if b & 4 == 0 then if b & 2 == 0 then if b & 1 == 0 then 0x4a247d85 else 0xbb3df8d2 else if b & 1 == 0 then 0xf93211ae else 0x29a16dc7
      else if b & 2 == 0 then if b & 1 == 0 then 0x9e2f4b1d else 0xb230f3dc else if b & 1 == 0 then 0x8652ec0d else 0xc1e3d077
      else if b & 4 == 0 then if b & 2 == 0 then if b & 1 == 0 then 0xb3166c2b else 0x70b999a9 else if b & 1 == 0 then 0x9448fa11 else 0xe9642247
      else if b & 2 == 0 then if b & 1 == 0 then 0xfc8cc4a8 else 0xf03f1aa0 else if b & 1 == 0 then 0x7d2cd856 else 0x3390ef22
    else if b & 0x10 == 0 then
      if b & 8 == 0 then if b & 4 == 0 then if b & 2 == 0 then if b & 1 == 0 then 0x494ec787 else 0x38d1c1d9 else if b & 1 == 0 then 0xcaa2fe8c else 0xd40b3698
      else if b & 2 == 0 then if b & 1 == 0 then 0xf581cfa6 else 0x7ade28a5 else if b & 1 == 0 then 0xb78e26da else 0xadbfa43f
      else if b & 4 == 0 then if b & 2 == 0 then if b & 1 == 0 then 0x3a9de42c else 0x78920d50 else if b & 1 == 0 then 0x5fcc9b6a else 0x7e466254
      else if b & 2 == 0 then if b & 1 == 0 then 0x8d13c2f6 else 0xd8b8e890 else if b & 1 == 0 then 0x39f75e2e else 0xc3aff582
    else
      if b & 8 == 0 then if b & 4 == 0 then if b & 2 == 0 then if b & 1 == 0 then 0x5d80be9f else 0xd0937c69 else if b & 1 == 0 then 0xd52da96f else 0x2512b3cf
      else if b & 2 == 0 then if b & 1 == 0 then 0xac993bc8 else 0x187da710 else if b & 1 == 0 then 0x9c636ee8 else 0x3bbb7bdb
      else if b & 4 == 0 then if b & 2 == 0 then if b & 1 == 0 then 0x267809cd else 0x5918f46e else if b & 1 == 0 then 0x9ab701ec else 0x4f9aa883
      else if b & 2 == 0 then if b & 1 == 0 then 0x956e65e6 else 0xffe67eaa else if b & 1 == 0 then 0xbccf0821 else 0x15e8e6ef
    else if b & 0x20 == 0 then if b & 0x10 == 0 then
      if b & 8 == 0 then if b & 4 == 0 then if b & 2 == 0 then if b & 1 == 0 then 0xe79bd9ba else 0x6f36ce4a else if b & 1 == 0 then 0x9f09d4ea else 0xb07cd629
      else if b & 2 == 0 then if b & 1 == 0 then 0xa4b2af31 else 0x3f23312a else if b & 1 == 0 then 0xa59430c6 else 0xa266c035
      else if b & 4 == 0 then if b & 2 == 0 then if b & 1 == 0 then 0x4ebc3774 else 0x82caa6fc else if b & 1 == 0 then 0x90d0b0e0 else 0xa7d81533
      else if b & 2 == 0 then if b & 1 == 0 then 0x04984af1 else 0xecdaf741 else if b & 1 == 0 then 0xcd500e7f else 0x91f62f17
    else
      if b & 8 == 0 then if b & 4 == 0 then if b & 2 == 0 then if b & 1 == 0 then 0x4dd68d76 else 0xefb04d43 else if b & 1 == 0 then 0xaa4d54cc else 0x9604dfe4
      else if b & 2 == 0 then if b & 1 == 0 then 0xd1b5e39e else 0x6a881b4c else if b & 1 == 0 then 0x2c1fb8c1 else 0x65517f46
      else if b & 4 == 0 then if b & 2 == 0 then if b & 1 == 0 then 0x5eea049d else 0x8c355d01 else if b & 1 == 0 then 0x877473fa else 0x0b412efb
      else if b & 2 == 0 then if b & 1 == 0 then 0x671d5ab3 else 0xdbd25292 else if b & 1 == 0 then 0x105633e9 else 0xd647136d
    else if b & 0x10 == 0 then
      if b & 8 == 0 then if b & 4 == 0 then if b & 2 == 0 then if b & 1 == 0 then 0xd7618c9a else 0xa10c7a37 else if b & 1 == 0 then 0xf8148e59 else 0x133c89eb
      else if b & 2 == 0 then if b & 1 == 0 then 0xa927eece else 0x61c935b7 else if b & 1 == 0 then 0x1ce5ede1 else 0x47b13c7a
      else if b & 4 == 0 then if b & 2 == 0 then if b & 1 == 0 then 0xd2df599c else 0xf2733f55 else if b & 1 == 0 then 0x14ce7918 else 0xc737bf73
      else if b & 2 == 0 then if b & 1 == 0 then 0xf7cdea53 else 0xfdaa5b5f else if b & 1 == 0 then 0x3d6f14df else 0x44db8678
    else
      if b & 8 == 0 then if b & 4 == 0 then if b & 2 == 0 then if b & 1 == 0 then 0xaff381ca else 0x68c43eb9 else if b & 1 == 0 then 0x24342c38 else 0xa3405fc2
      else if b & 2 == 0 then if b & 1 == 0 then 0x1dc37216 else 0xe2250cbc else if b & 1 == 0 then 0x3c498b28 else 0x0d9541ff
      else if b & 4 == 0 then if b & 2 == 0 then if b & 1 == 0 then 0xa8017139 else 0x0cb3de08 else if b & 1 == 0 then 0xb4e49cd8 else 0x56c19064
      else if b & 2 == 0 then if b & 1 == 0 then 0xcb84617b else 0x32b670d5 else if b & 1 == 0 then 0x6c5c7448 else 0xb85742d0
  }

  lemma Td0Is(b: bv8)
    ensures var s := InvSbox(b); Td0(b) == Packed(Word(MulE(s), Mul9(s), MulD(s), MulB(s)))
  {
  }

  lemma Td1Is(b: bv8)
    ensures var s := InvSbox(b); Td1(b) == Packed(Word(MulB(s), MulE(s), Mul9(s), MulD(s)))
  {
  }

  lemma Td2Is(b: bv8)
    ensures var s := InvSbox(b); Td2(b) == Packed(Word(MulD(s), MulB(s), MulE(s), Mul9(s)))
  {
  }

  lemma Td3Is(b: bv8)
    ensures var s := InvSbox(b); Td3(b) == Packed(Word(Mul9(s), MulD(s), MulB(s), MulE(s)))
  {
  }
}
