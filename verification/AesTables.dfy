/** The tables of aes128.c, as decisions on the bits of the index: each group of sixteen entries is
    chosen by the upper four bits, the entry in it by the lower four. */
module AesTables {
  import opened AesField

  /** The S-box. */
  function Sbox(x: bv8): bv8 {
    var a, b, c, d := x & 8 == 0, x & 4 == 0, x & 2 == 0, x & 1 == 0;
    if x & 0x80 == 0 then
      if x & 0x40 == 0 then
        if x & 0x20 == 0 then
          if x & 0x10 == 0 then
            if a then
              if b then (if c then (if d then 0x63 else 0x7c) else (if d then 0x77 else 0x7b))
              else (if c then (if d then 0xf2 else 0x6b) else (if d then 0x6f else 0xc5))
            else
              if b then (if c then (if d then 0x30 else 0x01) else (if d then 0x67 else 0x2b))
              else (if c then (if d then 0xfe else 0xd7) else (if d then 0xab else 0x76))
          else
            if a then
              if b then (if c then (if d then 0xca else 0x82) else (if d then 0xc9 else 0x7d))
              else (if c then (if d then 0xfa else 0x59) else (if d then 0x47 else 0xf0))
            else
              if b then (if c then (if d then 0xad else 0xd4) else (if d then 0xa2 else 0xaf))
              else (if c then (if d then 0x9c else 0xa4) else (if d then 0x72 else 0xc0))
        else
          if x & 0x10 == 0 then
            if a then
              if b then (if c then (if d then 0xb7 else 0xfd) else (if d then 0x93 else 0x26))
              else (if c then (if d then 0x36 else 0x3f) else (if d then 0xf7 else 0xcc))
            else
              if b then (if c then (if d then 0x34 else 0xa5) else (if d then 0xe5 else 0xf1))
              else (if c then (if d then 0x71 else 0xd8) else (if d then 0x31 else 0x15))
          else
            if a then
              if b then (if c then (if d then 0x04 else 0xc7) else (if d then 0x23 else 0xc3))
              else (if c then (if d then 0x18 else 0x96) else (if d then 0x05 else 0x9a))
            else
              if b then (if c then (if d then 0x07 else 0x12) else (if d then 0x80 else 0xe2))
              else (if c then (if d then 0xeb else 0x27) else (if d then 0xb2 else 0x75))
      else
        if x & 0x20 == 0 then
          if x & 0x10 == 0 then
            if a then
              if b then (if c then (if d then 0x09 else 0x83) else (if d then 0x2c else 0x1a))
              else (if c then (if d then 0x1b else 0x6e) else (if d then 0x5a else 0xa0))
            else
              if b then (if c then (if d then 0x52 else 0x3b) else (if d then 0xd6 else 0xb3))
              else (if c then (if d then 0x29 else 0xe3) else (if d then 0x2f else 0x84))
          else
            if a then
              if b then (if c then (if d then 0x53 else 0xd1) else (if d then 0x00 else 0xed))
              else (if c then (if d then 0x20 else 0xfc) else (if d then 0xb1 else 0x5b))
            else
              if b then (if c then (if d then 0x6a else 0xcb) else (if d then 0xbe else 0x39))
              else (if c then (if d then 0x4a else 0x4c) else (if d then 0x58 else 0xcf))
        else
          if x & 0x10 == 0 then
            if a then
              if b then (if c then (if d then 0xd0 else 0xef) else (if d then 0xaa else 0xfb))
              else (if c then (if d then 0x43 else 0x4d) else (if d then 0x33 else 0x85))
            else
              if b then (if c then (if d then 0x45 else 0xf9) else (if d then 0x02 else 0x7f))
              else (if c then (if d then 0x50 else 0x3c) else (if d then 0x9f else 0xa8))
          else
            if a then
              if b then (if c then (if d then 0x51 else 0xa3) else (if d then 0x40 else 0x8f))
              else (if c then (if d then 0x92 else 0x9d) else (if d then 0x38 else 0xf5))
            else
              if b then (if c then (if d then 0xbc else 0xb6) else (if d then 0xda else 0x21))
              else (if c then (if d then 0x10 else 0xff) else (if d then 0xf3 else 0xd2))
    else
      if x & 0x40 == 0 then
        if x & 0x20 == 0 then
          if x & 0x10 == 0 then
            if a then
              if b then (if c then (if d then 0xcd else 0x0c) else (if d then 0x13 else 0xec))
              else (if c then (if d then 0x5f else 0x97) else (if d then 0x44 else 0x17))
            else
              if b then (if c then (if d then 0xc4 else 0xa7) else (if d then 0x7e else 0x3d))
              else (if c then (if d then 0x64 else 0x5d) else (if d then 0x19 else 0x73))
          else
            if a then
              if b then (if c then (if d then 0x60 else 0x81) else (if d then 0x4f else 0xdc))
              else (if c then (if d then 0x22 else 0x2a) else (if d then 0x90 else 0x88))
            else
              if b then (if c then (if d then 0x46 else 0xee) else (if d then 0xb8 else 0x14))
              else (if c then (if d then 0xde else 0x5e) else (if d then 0x0b else 0xdb))
        else
          if x & 0x10 == 0 then
            if a then
              if b then (if c then (if d then 0xe0 else 0x32) else (if d then 0x3a else 0x0a))
              else (if c then (if d then 0x49 else 0x06) else (if d then 0x24 else 0x5c))
            else
              if b then (if c then (if d then 0xc2 else 0xd3) else (if d then 0xac else 0x62))
              else (if c then (if d then 0x91 else 0x95) else (if d then 0xe4 else 0x79))
          else
            if a then
              if b then (if c then (if d then 0xe7 else 0xc8) else (if d then 0x37 else 0x6d))
              else (if c then (if d then 0x8d else 0xd5) else (if d then 0x4e else 0xa9))
            else
              if b then (if c then (if d then 0x6c else 0x56) else (if d then 0xf4 else 0xea))
              else (if c then (if d then 0x65 else 0x7a) else (if d then 0xae else 0x08))
      else
        if x & 0x20 == 0 then
          if x & 0x10 == 0 then
            if a then
              if b then (if c then (if d then 0xba else 0x78) else (if d then 0x25 else 0x2e))
              else (if c then (if d then 0x1c else 0xa6) else (if d then 0xb4 else 0xc6))
            else
              if b then (if c then (if d then 0xe8 else 0xdd) else (if d then 0x74 else 0x1f))
              else (if c then (if d then 0x4b else 0xbd) else (if d then 0x8b else 0x8a))
          else
            if a then
              if b then (if c then (if d then 0x70 else 0x3e) else (if d then 0xb5 else 0x66))
              else (if c then (if d then 0x48 else 0x03) else (if d then 0xf6 else 0x0e))
            else
              if b then (if c then (if d then 0x61 else 0x35) else (if d then 0x57 else 0xb9))
              else (if c then (if d then 0x86 else 0xc1) else (if d then 0x1d else 0x9e))
        else
          if x & 0x10 == 0 then
            if a then
              if b then (if c then (if d then 0xe1 else 0xf8) else (if d then 0x98 else 0x11))
              else (if c then (if d then 0x69 else 0xd9) else (if d then 0x8e else 0x94))
            else
              if b then (if c then (if d then 0x9b else 0x1e) else (if d then 0x87 else 0xe9))
              else (if c then (if d then 0xce else 0x55) else (if d then 0x28 else 0xdf))
          else
            if a then
              if b then (if c then (if d then 0x8c else 0xa1) else (if d then 0x89 else 0x0d))
              else (if c then (if d then 0xbf else 0xe6) else (if d then 0x42 else 0x68))
            else
              if b then (if c then (if d then 0x41 else 0x99) else (if d then 0x2d else 0x0f))
              else (if c then (if d then 0xb0 else 0x54) else (if d then 0xbb else 0x16))
  }

  /** The inverse S-box. */
  function Rsbox(x: bv8): bv8 {
    var a, b, c, d := x & 8 == 0, x & 4 == 0, x & 2 == 0, x & 1 == 0;
    if x & 0x80 == 0 then
      if x & 0x40 == 0 then
        if x & 0x20 == 0 then
          if x & 0x10 == 0 then
            if a then
              if b then (if c then (if d then 0x52 else 0x09) else (if d then 0x6a else 0xd5))
              else (if c then (if d then 0x30 else 0x36) else (if d then 0xa5 else 0x38))
            else
              if b then (if c then (if d then 0xbf else 0x40) else (if d then 0xa3 else 0x9e))
              else (if c then (if d then 0x81 else 0xf3) else (if d then 0xd7 else 0xfb))
          else
            if a then
              if b then (if c then (if d then 0x7c else 0xe3) else (if d then 0x39 else 0x82))
              else (if c then (if d then 0x9b else 0x2f) else (if d then 0xff else 0x87))
            else
              if b then (if c then (if d then 0x34 else 0x8e) else (if d then 0x43 else 0x44))
              else (if c then (if d then 0xc4 else 0xde) else (if d then 0xe9 else 0xcb))
        else
          if x & 0x10 == 0 then
            if a then
              if b then (if c then (if d then 0x54 else 0x7b) else (if d then 0x94 else 0x32))
              else (if c then (if d then 0xa6 else 0xc2) else (if d then 0x23 else 0x3d))
            else
              if b then (if c then (if d then 0xee else 0x4c) else (if d then 0x95 else 0x0b))
              else (if c then (if d then 0x42 else 0xfa) else (if d then 0xc3 else 0x4e))
          else
            if a then
              if b then (if c then (if d then 0x08 else 0x2e) else (if d then 0xa1 else 0x66))
              else (if c then (if d then 0x28 else 0xd9) else (if d then 0x24 else 0xb2))
            else
              if b then (if c then (if d then 0x76 else 0x5b) else (if d then 0xa2 else 0x49))
              else (if c then (if d then 0x6d else 0x8b) else (if d then 0xd1 else 0x25))
      else
        if x & 0x20 == 0 then
          if x & 0x10 == 0 then
            if a then
              if b then (if c then (if d then 0x72 else 0xf8) else (if d then 0xf6 else 0x64))
              else (if c then (if d then 0x86 else 0x68) else (if d then 0x98 else 0x16))
            else
              if b then (if c then (if d then 0xd4 else 0xa4) else (if d then 0x5c else 0xcc))
              else (if c then (if d then 0x5d else 0x65) else (if d then 0xb6 else 0x92))
          else
            if a then
              if b then (if c then (if d then 0x6c else 0x70) else (if d then 0x48 else 0x50))
              else (if c then (if d then 0xfd else 0xed) else (if d then 0xb9 else 0xda))
            else
              if b then (if c then (if d then 0x5e else 0x15) else (if d then 0x46 else 0x57))
              else (if c then (if d then 0xa7 else 0x8d) else (if d then 0x9d else 0x84))
        else
          if x & 0x10 == 0 then
            if a then
              if b then (if c then (if d then 0x90 else 0xd8) else (if d then 0xab else 0x00))
              else (if c then (if d then 0x8c else 0xbc) else (if d then 0xd3 else 0x0a))
            else
              if b then (if c then (if d then 0xf7 else 0xe4) else (if d then 0x58 else 0x05))
              else (if c then (if d then 0xb8 else 0xb3) else (if d then 0x45 else 0x06))
          else
            if a then
              if b then (if c then (if d then 0xd0 else 0x2c) else (if d then 0x1e else 0x8f))
              else (if c then (if d then 0xca else 0x3f) else (if d then 0x0f else 0x02))
            else
              if b then (if c then (if d then 0xc1 else 0xaf) else (if d then 0xbd else 0x03))
              else (if c then (if d then 0x01 else 0x13) else (if d then 0x8a else 0x6b))
    else
      if x & 0x40 == 0 then
        if x & 0x20 == 0 then
          if x & 0x10 == 0 then
            if a then
              if b then (if c then (if d then 0x3a else 0x91) else (if d then 0x11 else 0x41))
              else (if c then (if d then 0x4f else 0x67) else (if d then 0xdc else 0xea))
            else
              if b then (if c then (if d then 0x97 else 0xf2) else (if d then 0xcf else 0xce))
              else (if c then (if d then 0xf0 else 0xb4) else (if d then 0xe6 else 0x73))
          else
            if a then
              if b then (if c then (if d then 0x96 else 0xac) else (if d then 0x74 else 0x22))
              else (if c then (if d then 0xe7 else 0xad) else (if d then 0x35 else 0x85))
            else
              if b then (if c then (if d then 0xe2 else 0xf9) else (if d then 0x37 else 0xe8))
              else (if c then (if d then 0x1c else 0x75) else (if d then 0xdf else 0x6e))
        else
          if x & 0x10 == 0 then
            if a then
              if b then (if c then (if d then 0x47 else 0xf1) else (if d then 0x1a else 0x71))
              else (if c then (if d then 0x1d else 0x29) else (if d then 0xc5 else 0x89))
            else
              if b then (if c then (if d then 0x6f else 0xb7) else (if d then 0x62 else 0x0e))
              else (if c then (if d then 0xaa else 0x18) else (if d then 0xbe else 0x1b))
          else
            if a then
              if b then (if c then (if d then 0xfc else 0x56) else (if d then 0x3e else 0x4b))
              else (if c then (if d then 0xc6 else 0xd2) else (if d then 0x79 else 0x20))
            else
              if b then (if c then (if d then 0x9a else 0xdb) else (if d then 0xc0 else 0xfe))
              else (if c then (if d then 0x78 else 0xcd) else (if d then 0x5a else 0xf4))
      else
        if x & 0x20 == 0 then
          if x & 0x10 == 0 then
            if a then
              if b then (if c then (if d then 0x1f else 0xdd) else (if d then 0xa8 else 0x33))
              else (if c then (if d then 0x88 else 0x07) else (if d then 0xc7 else 0x31))
            else
              if b then (if c then (if d then 0xb1 else 0x12) else (if d then 0x10 else 0x59))
              else (if c then (if d then 0x27 else 0x80) else (if d then 0xec else 0x5f))
          else
            if a then
              if b then (if c then (if d then 0x60 else 0x51) else (if d then 0x7f else 0xa9))
              else (if c then (if d then 0x19 else 0xb5) else (if d then 0x4a else 0x0d))
            else
              if b then (if c then (if d then 0x2d else 0xe5) else (if d then 0x7a else 0x9f))
              else (if c then (if d then 0x93 else 0xc9) else (if d then 0x9c else 0xef))
        else
          if x & 0x10 == 0 then
            if a then
              if b then (if c then (if d then 0xa0 else 0xe0) else (if d then 0x3b else 0x4d))
              else (if c then (if d then 0xae else 0x2a) else (if d then 0xf5 else 0xb0))
            else
              if b then (if c then (if d then 0xc8 else 0xeb) else (if d then 0xbb else 0x3c))
              else (if c then (if d then 0x83 else 0x53) else (if d then 0x99 else 0x61))
          else
            if a then
              if b then (if c then (if d then 0x17 else 0x2b) else (if d then 0x04 else 0x7e))
              else (if c then (if d then 0xba else 0x77) else (if d then 0xd6 else 0x26))
            else
              if b then (if c then (if d then 0xe1 else 0x69) else (if d then 0x14 else 0x63))
              else (if c then (if d then 0x55 else 0x21) else (if d then 0x0c else 0x7d))
  }

  /** Multiplication by 2. */
  function Gf2(x: bv8): bv8 {
    var a, b, c, d := x & 8 == 0, x & 4 == 0, x & 2 == 0, x & 1 == 0;
    if x & 0x80 == 0 then
      if x & 0x40 == 0 then
        if x & 0x20 == 0 then
          if x & 0x10 == 0 then
            if a then
              if b then (if c then (if d then 0x00 else 0x02) else (if d then 0x04 else 0x06))
              else (if c then (if d then 0x08 else 0x0a) else (if d then 0x0c else 0x0e))
            else
              if b then (if c then (if d then 0x10 else 0x12) else (if d then 0x14 else 0x16))
              else (if c then (if d then 0x18 else 0x1a) else (if d then 0x1c else 0x1e))
          else
            if a then
              if b then (if c then (if d then 0x20 else 0x22) else (if d then 0x24 else 0x26))
              else (if c then (if d then 0x28 else 0x2a) else (if d then 0x2c else 0x2e))
            else
              if b then (if c then (if d then 0x30 else 0x32) else (if d then 0x34 else 0x36))
              else (if c then (if d then 0x38 else 0x3a) else (if d then 0x3c else 0x3e))
        else
          if x & 0x10 == 0 then
            if a then
              if b then (if c then (if d then 0x40 else 0x42) else (if d then 0x44 else 0x46))
              else (if c then (if d then 0x48 else 0x4a) else (if d then 0x4c else 0x4e))
            else
              if b then (if c then (if d then 0x50 else 0x52) else (if d then 0x54 else 0x56))
              else (if c then (if d then 0x58 else 0x5a) else (if d then 0x5c else 0x5e))
          else
            if a then
              if b then (if c then (if d then 0x60 else 0x62) else (if d then 0x64 else 0x66))
              else (if c then (if d then 0x68 else 0x6a) else (if d then 0x6c else 0x6e))
            else
              if b then (if c then (if d then 0x70 else 0x72) else (if d then 0x74 else 0x76))
              else (if c then (if d then 0x78 else 0x7a) else (if d then 0x7c else 0x7e))
      else
        if x & 0x20 == 0 then
          if x & 0x10 == 0 then
            if a then
              if b then (if c then (if d then 0x80 else 0x82) else (if d then 0x84 else 0x86))
              else (if c then (if d then 0x88 else 0x8a) else (if d then 0x8c else 0x8e))
            else
              if b then (if c then (if d then 0x90 else 0x92) else (if d then 0x94 else 0x96))
              else (if c then (if d then 0x98 else 0x9a) else (if d then 0x9c else 0x9e))
          else
            if a then
              if b then (if c then (if d then 0xa0 else 0xa2) else (if d then 0xa4 else 0xa6))
              else (if c then (if d then 0xa8 else 0xaa) else (if d then 0xac else 0xae))
            else
              if b then (if c then (if d then 0xb0 else 0xb2) else (if d then 0xb4 else 0xb6))
              else (if c then (if d then 0xb8 else 0xba) else (if d then 0xbc else 0xbe))
        else
          if x & 0x10 == 0 then
            if a then
              if b then (if c then (if d then 0xc0 else 0xc2) else (if d then 0xc4 else 0xc6))
              else (if c then (if d then 0xc8 else 0xca) else (if d then 0xcc else 0xce))
            else
              if b then (if c then (if d then 0xd0 else 0xd2) else (if d then 0xd4 else 0xd6))
              else (if c then (if d then 0xd8 else 0xda) else (if d then 0xdc else 0xde))
          else
            if a then
              if b then (if c then (if d then 0xe0 else 0xe2) else (if d then 0xe4 else 0xe6))
              else (if c then (if d then 0xe8 else 0xea) else (if d then 0xec else 0xee))
            else
              if b then (if c then (if d then 0xf0 else 0xf2) else (if d then 0xf4 else 0xf6))
              else (if c then (if d then 0xf8 else 0xfa) else (if d then 0xfc else 0xfe))
    else
      if x & 0x40 == 0 then
        if x & 0x20 == 0 then
          if x & 0x10 == 0 then
            if a then
              if b then (if c then (if d then 0x1b else 0x19) else (if d then 0x1f else 0x1d))
              else (if c then (if d then 0x13 else 0x11) else (if d then 0x17 else 0x15))
            else
              if b then (if c then (if d then 0x0b else 0x09) else (if d then 0x0f else 0x0d))
              else (if c then (if d then 0x03 else 0x01) else (if d then 0x07 else 0x05))
          else
            if a then
              if b then (if c then (if d then 0x3b else 0x39) else (if d then 0x3f else 0x3d))
              else (if c then (if d then 0x33 else 0x31) else (if d then 0x37 else 0x35))
            else
              if b then (if c then (if d then 0x2b else 0x29) else (if d then 0x2f else 0x2d))
              else (if c then (if d then 0x23 else 0x21) else (if d then 0x27 else 0x25))
        else
          if x & 0x10 == 0 then
            if a then
              if b then (if c then (if d then 0x5b else 0x59) else (if d then 0x5f else 0x5d))
              else (if c then (if d then 0x53 else 0x51) else (if d then 0x57 else 0x55))
            else
              if b then (if c then (if d then 0x4b else 0x49) else (if d then 0x4f else 0x4d))
              else (if c then (if d then 0x43 else 0x41) else (if d then 0x47 else 0x45))
          else
            if a then
              if b then (if c then (if d then 0x7b else 0x79) else (if d then 0x7f else 0x7d))
              else (if c then (if d then 0x73 else 0x71) else (if d then 0x77 else 0x75))
            else
              if b then (if c then (if d then 0x6b else 0x69) else (if d then 0x6f else 0x6d))
              else (if c then (if d then 0x63 else 0x61) else (if d then 0x67 else 0x65))
      else
        if x & 0x20 == 0 then
          if x & 0x10 == 0 then
            if a then
              if b then (if c then (if d then 0x9b else 0x99) else (if d then 0x9f else 0x9d))
              else (if c then (if d then 0x93 else 0x91) else (if d then 0x97 else 0x95))
            else
              if b then (if c then (if d then 0x8b else 0x89) else (if d then 0x8f else 0x8d))
              else (if c then (if d then 0x83 else 0x81) else (if d then 0x87 else 0x85))
          else
            if a then
              if b then (if c then (if d then 0xbb else 0xb9) else (if d then 0xbf else 0xbd))
              else (if c then (if d then 0xb3 else 0xb1) else (if d then 0xb7 else 0xb5))
            else
              if b then (if c then (if d then 0xab else 0xa9) else (if d then 0xaf else 0xad))
              else (if c then (if d then 0xa3 else 0xa1) else (if d then 0xa7 else 0xa5))
        else
          if x & 0x10 == 0 then
            if a then
              if b then (if c then (if d then 0xdb else 0xd9) else (if d then 0xdf else 0xdd))
              else (if c then (if d then 0xd3 else 0xd1) else (if d then 0xd7 else 0xd5))
            else
              if b then (if c then (if d then 0xcb else 0xc9) else (if d then 0xcf else 0xcd))
              else (if c then (if d then 0xc3 else 0xc1) else (if d then 0xc7 else 0xc5))
          else
            if a then
              if b then (if c then (if d then 0xfb else 0xf9) else (if d then 0xff else 0xfd))
              else (if c then (if d then 0xf3 else 0xf1) else (if d then 0xf7 else 0xf5))
            else
              if b then (if c then (if d then 0xeb else 0xe9) else (if d then 0xef else 0xed))
              else (if c then (if d then 0xe3 else 0xe1) else (if d then 0xe7 else 0xe5))
  }

  /** Multiplication by 3. */
  function Gf3(x: bv8): bv8 {
    var a, b, c, d := x & 8 == 0, x & 4 == 0, x & 2 == 0, x & 1 == 0;
    if x & 0x80 == 0 then
      if x & 0x40 == 0 then
        if x & 0x20 == 0 then
          if x & 0x10 == 0 then
            if a then
              if b then (if c then (if d then 0x00 else 0x03) else (if d then 0x06 else 0x05))
              else (if c then (if d then 0x0c else 0x0f) else (if d then 0x0a else 0x09))
            else
              if b then (if c then (if d then 0x18 else 0x1b) else (if d then 0x1e else 0x1d))
              else (if c then (if d then 0x14 else 0x17) else (if d then 0x12 else 0x11))
          else
            if a then
              if b then (if c then (if d then 0x30 else 0x33) else (if d then 0x36 else 0x35))
              else (if c then (if d then 0x3c else 0x3f) else (if d then 0x3a else 0x39))
            else
              if b then (if c then (if d then 0x28 else 0x2b) else (if d then 0x2e else 0x2d))
              else (if c then (if d then 0x24 else 0x27) else (if d then 0x22 else 0x21))
        else
          if x & 0x10 == 0 then
            if a then
              if b then (if c then (if d then 0x60 else 0x63) else (if d then 0x66 else 0x65))
              else (if c then (if d then 0x6c else 0x6f) else (if d then 0x6a else 0x69))
            else
              if b then (if c then (if d then 0x78 else 0x7b) else (if d then 0x7e else 0x7d))
              else (if c then (if d then 0x74 else 0x77) else (if d then 0x72 else 0x71))
          else
            if a then
              if b then (if c then (if d then 0x50 else 0x53) else (if d then 0x56 else 0x55))
              else (if c then (if d then 0x5c else 0x5f) else (if d then 0x5a else 0x59))
            else
              if b then (if c then (if d then 0x48 else 0x4b) else (if d then 0x4e else 0x4d))
              else (if c then (if d then 0x44 else 0x47) else (if d then 0x42 else 0x41))
      else
        if x & 0x20 == 0 then
          if x & 0x10 == 0 then
            if a then
              if b then (if c then (if d then 0xc0 else 0xc3) else (if d then 0xc6 else 0xc5))
              else (if c then (if d then 0xcc else 0xcf) else (if d then 0xca else 0xc9))
            else
              if b then (if c then (if d then 0xd8 else 0xdb) else (if d then 0xde else 0xdd))
              else (if c then (if d then 0xd4 else 0xd7) else (if d then 0xd2 else 0xd1))
          else
            if a then
              if b then (if c then (if d then 0xf0 else 0xf3) else (if d then 0xf6 else 0xf5))
              else (if c then (if d then 0xfc else 0xff) else (if d then 0xfa else 0xf9))
            else
              if b then (if c then (if d then 0xe8 else 0xeb) else (if d then 0xee else 0xed))
              else (if c then (if d then 0xe4 else 0xe7) else (if d then 0xe2 else 0xe1))
        else
          if x & 0x10 == 0 then
            if a then
              if b then (if c then (if d then 0xa0 else 0xa3) else (if d then 0xa6 else 0xa5))
              else (if c then (if d then 0xac else 0xaf) else (if d then 0xaa else 0xa9))
            else
              if b then (if c then (if d then 0xb8 else 0xbb) else (if d then 0xbe else 0xbd))
              else (if c then (if d then 0xb4 else 0xb7) else (if d then 0xb2 else 0xb1))
          else
            if a then
              if b then (if c then (if d then 0x90 else 0x93) else (if d then 0x96 else 0x95))
              else (if c then (if d then 0x9c else 0x9f) else (if d then 0x9a else 0x99))
            else
              if b then (if c then (if d then 0x88 else 0x8b) else (if d then 0x8e else 0x8d))
              else (if c then (if d then 0x84 else 0x87) else (if d then 0x82 else 0x81))
    else
      if x & 0x40 == 0 then
        if x & 0x20 == 0 then
          if x & 0x10 == 0 then
            if a then
              if b then (if c then (if d then 0x9b else 0x98) else (if d then 0x9d else 0x9e))
              else (if c then (if d then 0x97 else 0x94) else (if d then 0x91 else 0x92))
            else
              if b then (if c then (if d then 0x83 else 0x80) else (if d then 0x85 else 0x86))
              else (if c then (if d then 0x8f else 0x8c) else (if d then 0x89 else 0x8a))
          else
            if a then
              if b then (if c then (if d then 0xab else 0xa8) else (if d then 0xad else 0xae))
              else (if c then (if d then 0xa7 else 0xa4) else (if d then 0xa1 else 0xa2))
            else
              if b then (if c then (if d then 0xb3 else 0xb0) else (if d then 0xb5 else 0xb6))
              else (if c then (if d then 0xbf else 0xbc) else (if d then 0xb9 else 0xba))
        else
          if x & 0x10 == 0 then
            if a then
              if b then (if c then (if d then 0xfb else 0xf8) else (if d then 0xfd else 0xfe))
              else (if c then (if d then 0xf7 else 0xf4) else (if d then 0xf1 else 0xf2))
            else
              if b then (if c then (if d then 0xe3 else 0xe0) else (if d then 0xe5 else 0xe6))
              else (if c then (if d then 0xef else 0xec) else (if d then 0xe9 else 0xea))
          else
            if a then
              if b then (if c then (if d then 0xcb else 0xc8) else (if d then 0xcd else 0xce))
              else (if c then (if d then 0xc7 else 0xc4) else (if d then 0xc1 else 0xc2))
            else
              if b then (if c then (if d then 0xd3 else 0xd0) else (if d then 0xd5 else 0xd6))
              else (if c then (if d then 0xdf else 0xdc) else (if d then 0xd9 else 0xda))
      else
        if x & 0x20 == 0 then
          if x & 0x10 == 0 then
            if a then
              if b then (if c then (if d then 0x5b else 0x58) else (if d then 0x5d else 0x5e))
              else (if c then (if d then 0x57 else 0x54) else (if d then 0x51 else 0x52))
            else
              if b then (if c then (if d then 0x43 else 0x40) else (if d then 0x45 else 0x46))
              else (if c then (if d then 0x4f else 0x4c) else (if d then 0x49 else 0x4a))
          else
            if a then
              if b then (if c then (if d then 0x6b else 0x68) else (if d then 0x6d else 0x6e))
              else (if c then (if d then 0x67 else 0x64) else (if d then 0x61 else 0x62))
            else
              if b then (if c then (if d then 0x73 else 0x70) else (if d then 0x75 else 0x76))
              else (if c then (if d then 0x7f else 0x7c) else (if d then 0x79 else 0x7a))
        else
          if x & 0x10 == 0 then
            if a then
              if b then (if c then (if d then 0x3b else 0x38) else (if d then 0x3d else 0x3e))
              else (if c then (if d then 0x37 else 0x34) else (if d then 0x31 else 0x32))
            else
              if b then (if c then (if d then 0x23 else 0x20) else (if d then 0x25 else 0x26))
              else (if c then (if d then 0x2f else 0x2c) else (if d then 0x29 else 0x2a))
          else
            if a then
              if b then (if c then (if d then 0x0b else 0x08) else (if d then 0x0d else 0x0e))
              else (if c then (if d then 0x07 else 0x04) else (if d then 0x01 else 0x02))
            else
              if b then (if c then (if d then 0x13 else 0x10) else (if d then 0x15 else 0x16))
              else (if c then (if d then 0x1f else 0x1c) else (if d then 0x19 else 0x1a))
  }

  /** Multiplication by 9. */
  function Gf9(x: bv8): bv8 {
    var a, b, c, d := x & 8 == 0, x & 4 == 0, x & 2 == 0, x & 1 == 0;
    if x & 0x80 == 0 then
      if x & 0x40 == 0 then
        if x & 0x20 == 0 then
          if x & 0x10 == 0 then
            if a then
              if b then (if c then (if d then 0x00 else 0x09) else (if d then 0x12 else 0x1b))
              else (if c then (if d then 0x24 else 0x2d) else (if d then 0x36 else 0x3f))
            else
              if b then (if c then (if d then 0x48 else 0x41) else (if d then 0x5a else 0x53))
              else (if c then (if d then 0x6c else 0x65) else (if d then 0x7e else 0x77))
          else
            if a then
              if b then (if c then (if d then 0x90 else 0x99) else (if d then 0x82 else 0x8b))
              else (if c then (if d then 0xb4 else 0xbd) else (if d then 0xa6 else 0xaf))
            else
              if b then (if c then (if d then 0xd8 else 0xd1) else (if d then 0xca else 0xc3))
              else (if c then (if d then 0xfc else 0xf5) else (if d then 0xee else 0xe7))
        else
          if x & 0x10 == 0 then
            if a then
              if b then (if c then (if d then 0x3b else 0x32) else (if d then 0x29 else 0x20))
              else (if c then (if d then 0x1f else 0x16) else (if d then 0x0d else 0x04))
            else
              if b then (if c then (if d then 0x73 else 0x7a) else (if d then 0x61 else 0x68))
              else (if c then (if d then 0x57 else 0x5e) else (if d then 0x45 else 0x4c))
          else
            if a then
              if b then (if c then (if d then 0xab else 0xa2) else (if d then 0xb9 else 0xb0))
              else (if c then (if d then 0x8f else 0x86) else (if d then 0x9d else 0x94))
            else
              if b then (if c then (if d then 0xe3 else 0xea) else (if d then 0xf1 else 0xf8))
              else (if c then (if d then 0xc7 else 0xce) else (if d then 0xd5 else 0xdc))
      else
        if x & 0x20 == 0 then
          if x & 0x10 == 0 then
            if a then
              if b then (if c then (if d then 0x76 else 0x7f) else (if d then 0x64 else 0x6d))
              else (if c then (if d then 0x52 else 0x5b) else (if d then 0x40 else 0x49))
            else
              if b then (if c then (if d then 0x3e else 0x37) else (if d then 0x2c else 0x25))
              else (if c then (if d then 0x1a else 0x13) else (if d then 0x08 else 0x01))
          else
            if a then
              if b then (if c then (if d then 0xe6 else 0xef) else (if d then 0xf4 else 0xfd))
              else (if c then (if d then 0xc2 else 0xcb) else (if d then 0xd0 else 0xd9))
            else
              if b then (if c then (if d then 0xae else 0xa7) else (if d then 0xbc else 0xb5))
              else (if c then (if d then 0x8a else 0x83) else (if d then 0x98 else 0x91))
        else
          if x & 0x10 == 0 then
            if a then
              if b then (if c then (if d then 0x4d else 0x44) else (if d then 0x5f else 0x56))
              else (if c then (if d then 0x69 else 0x60) else (if d then 0x7b else 0x72))
            else
              if b then (if c then (if d then 0x05 else 0x0c) else (if d then 0x17 else 0x1e))
              else (if c then (if d then 0x21 else 0x28) else (if d then 0x33 else 0x3a))
          else
            if a then
              if b then (if c then (if d then 0xdd else 0xd4) else (if d then 0xcf else 0xc6))
              else (if c then (if d then 0xf9 else 0xf0) else (if d then 0xeb else 0xe2))
            else
              if b then (if c then (if d then 0x95 else 0x9c) else (if d then 0x87 else 0x8e))
              else (if c then (if d then 0xb1 else 0xb8) else (if d then 0xa3 else 0xaa))
    else
      if x & 0x40 == 0 then
        if x & 0x20 == 0 then
          if x & 0x10 == 0 then
            if a then
              if b then (if c then (if d then 0xec else 0xe5) else (if d then 0xfe else 0xf7))
              else (if c then (if d then 0xc8 else 0xc1) else (if d then 0xda else 0xd3))
            else
              if b then (if c then (if d then 0xa4 else 0xad) else (if d then 0xb6 else 0xbf))
              else (if c then (if d then 0x80 else 0x89) else (if d then 0x92 else 0x9b))
          else
            if a then
              if b then (if c then (if d then 0x7c else 0x75) else (if d then 0x6e else 0x67))
              else (if c then (if d then 0x58 else 0x51) else (if d then 0x4a else 0x43))
            else
              if b then (if c then (if d then 0x34 else 0x3d) else (if d then 0x26 else 0x2f))
              else (if c then (if d then 0x10 else 0x19) else (if d then 0x02 else 0x0b))
        else
          if x & 0x10 == 0 then
            if a then
              if b then (if c then (if d then 0xd7 else 0xde) else (if d then 0xc5 else 0xcc))
              else (if c then (if d then 0xf3 else 0xfa) else (if d then 0xe1 else 0xe8))
            else
              if b then (if c then (if d then 0x9f else 0x96) else (if d then 0x8d else 0x84))
              else (if c then (if d then 0xbb else 0xb2) else (if d then 0xa9 else 0xa0))
          else
            if a then
              if b then (if c then (if d then 0x47 else 0x4e) else (if d then 0x55 else 0x5c))
              else (if c then (if d then 0x63 else 0x6a) else (if d then 0x71 else 0x78))
            else
              if b then (if c then (if d then 0x0f else 0x06) else (if d then 0x1d else 0x14))
              else (if c then (if d then 0x2b else 0x22) else (if d then 0x39 else 0x30))
      else
        if x & 0x20 == 0 then
          if x & 0x10 == 0 then
            if a then
              if b then (if c then (if d then 0x9a else 0x93) else (if d then 0x88 else 0x81))
              else (if c then (if d then 0xbe else 0xb7) else (if d then 0xac else 0xa5))
            else
              if b then (if c then (if d then 0xd2 else 0xdb) else (if d then 0xc0 else 0xc9))
              else (if c then (if d then 0xf6 else 0xff) else (if d then 0xe4 else 0xed))
          else
            if a then
              if b then (if c then (if d then 0x0a else 0x03) else (if d then 0x18 else 0x11))
              else (if c then (if d then 0x2e else 0x27) else (if d then 0x3c else 0x35))
            else
              if b then (if c then (if d then 0x42 else 0x4b) else (if d then 0x50 else 0x59))
              else (if c then (if d then 0x66 else 0x6f) else (if d then 0x74 else 0x7d))
        else
          if x & 0x10 == 0 then
            if a then
              if b then (if c then (if d then 0xa1 else 0xa8) else (if d then 0xb3 else 0xba))
              else (if c then (if d then 0x85 else 0x8c) else (if d then 0x97 else 0x9e))
            else
              if b then (if c then (if d then 0xe9 else 0xe0) else (if d then 0xfb else 0xf2))
              else (if c then (if d then 0xcd else 0xc4) else (if d then 0xdf else 0xd6))
          else
            if a then
              if b then (if c then (if d then 0x31 else 0x38) else (if d then 0x23 else 0x2a))
              else (if c then (if d then 0x15 else 0x1c) else (if d then 0x07 else 0x0e))
            else
              if b then (if c then (if d then 0x79 else 0x70) else (if d then 0x6b else 0x62))
              else (if c then (if d then 0x5d else 0x54) else (if d then 0x4f else 0x46))
  }

  /** Multiplication by 11. */
  function Gf11(x: bv8): bv8 {
    var a, b, c, d := x & 8 == 0, x & 4 == 0, x & 2 == 0, x & 1 == 0;
    if x & 0x80 == 0 then
      if x & 0x40 == 0 then
        if x & 0x20 == 0 then
          if x & 0x10 == 0 then
            if a then
              if b then (if c then (if d then 0x00 else 0x0b) else (if d then 0x16 else 0x1d))
              else (if c then (if d then 0x2c else 0x27) else (if d then 0x3a else 0x31))
            else
              if b then (if c then (if d then 0x58 else 0x53) else (if d then 0x4e else 0x45))
              else (if c then (if d then 0x74 else 0x7f) else (if d then 0x62 else 0x69))
          else
            if a then
              if b then (if c then (if d then 0xb0 else 0xbb) else (if d then 0xa6 else 0xad))
              else (if c then (if d then 0x9c else 0x97) else (if d then 0x8a else 0x81))
            else
              if b then (if c then (if d then 0xe8 else 0xe3) else (if d then 0xfe else 0xf5))
              else (if c then (if d then 0xc4 else 0xcf) else (if d then 0xd2 else 0xd9))
        else
          if x & 0x10 == 0 then
            if a then
              if b then (if c then (if d then 0x7b else 0x70) else (if d then 0x6d else 0x66))
              else (if c then (if d then 0x57 else 0x5c) else (if d then 0x41 else 0x4a))
            else
              if b then (if c then (if d then 0x23 else 0x28) else (if d then 0x35 else 0x3e))
              else (if c then (if d then 0x0f else 0x04) else (if d then 0x19 else 0x12))
          else
            if a then
              if b then (if c then (if d then 0xcb else 0xc0) else (if d then 0xdd else 0xd6))
              else (if c then (if d then 0xe7 else 0xec) else (if d then 0xf1 else 0xfa))
            else
              if b then (if c then (if d then 0x93 else 0x98) else (if d then 0x85 else 0x8e))
              else (if c then (if d then 0xbf else 0xb4) else (if d then 0xa9 else 0xa2))
      else
        if x & 0x20 == 0 then
          if x & 0x10 == 0 then
            if a then
              if b then (if c then (if d then 0xf6 else 0xfd) else (if d then 0xe0 else 0xeb))
              else (if c then (if d then 0xda else 0xd1) else (if d then 0xcc else 0xc7))
            else
              if b then (if c then (if d then 0xae else 0xa5) else (if d then 0xb8 else 0xb3))
              else (if c then (if d then 0x82 else 0x89) else (if d then 0x94 else 0x9f))
          else
            if a then
              if b then (if c then (if d then 0x46 else 0x4d) else (if d then 0x50 else 0x5b))
              else (if c then (if d then 0x6a else 0x61) else (if d then 0x7c else 0x77))
            else
              if b then (if c then (if d then 0x1e else 0x15) else (if d then 0x08 else 0x03))
              else (if c then (if d then 0x32 else 0x39) else (if d then 0x24 else 0x2f))
        else
          if x & 0x10 == 0 then
            if a then
              if b then (if c then (if d then 0x8d else 0x86) else (if d then 0x9b else 0x90))
              else (if c then (if d then 0xa1 else 0xaa) else (if d then 0xb7 else 0xbc))
            else
              if b then (if c then (if d then 0xd5 else 0xde) else (if d then 0xc3 else 0xc8))
              else (if c then (if d then 0xf9 else 0xf2) else (if d then 0xef else 0xe4))
          else
            if a then
              if b then (if c then (if d then 0x3d else 0x36) else (if d then 0x2b else 0x20))
              else (if c then (if d then 0x11 else 0x1a) else (if d then 0x07 else 0x0c))
            else
              if b then (if c then (if d then 0x65 else 0x6e) else (if d then 0x73 else 0x78))
              else (if c then (if d then 0x49 else 0x42) else (if d then 0x5f else 0x54))
    else
      if x & 0x40 == 0 then
        if x & 0x20 == 0 then
          if x & 0x10 == 0 then
            if a then
              if b then (if c then (if d then 0xf7 else 0xfc) else (if d then 0xe1 else 0xea))
              else (if c then (if d then 0xdb else 0xd0) else (if d then 0xcd else 0xc6))
            else
              if b then (if c then (if d then 0xaf else 0xa4) else (if d then 0xb9 else 0xb2))
              else (if c then (if d then 0x83 else 0x88) else (if d then 0x95 else 0x9e))
          else
            if a then
              if b then (if c then (if d then 0x47 else 0x4c) else (if d then 0x51 else 0x5a))
              else (if c then (if d then 0x6b else 0x60) else (if d then 0x7d else 0x76))
            else
              if b then (if c then (if d then 0x1f else 0x14) else (if d then 0x09 else 0x02))
              else (if c then (if d then 0x33 else 0x38) else (if d then 0x25 else 0x2e))
        else
          if x & 0x10 == 0 then
            if a then
              if b then (if c then (if d then 0x8c else 0x87) else (if d then 0x9a else 0x91))
              else (if c then (if d then 0xa0 else 0xab) else (if d then 0xb6 else 0xbd))
            else
              if b then (if c then (if d then 0xd4 else 0xdf) else (if d then 0xc2 else 0xc9))
              else (if c then (if d then 0xf8 else 0xf3) else (if d then 0xee else 0xe5))
          else
            if a then
              if b then (if c then (if d then 0x3c else 0x37) else (if d then 0x2a else 0x21))
              else (if c then (if d then 0x10 else 0x1b) else (if d then 0x06 else 0x0d))
            else
              if b then (if c then (if d then 0x64 else 0x6f) else (if d then 0x72 else 0x79))
              else (if c then (if d then 0x48 else 0x43) else (if d then 0x5e else 0x55))
      else
        if x & 0x20 == 0 then
          if x & 0x10 == 0 then
            if a then
              if b then (if c then (if d then 0x01 else 0x0a) else (if d then 0x17 else 0x1c))
              else (if c then (if d then 0x2d else 0x26) else (if d then 0x3b else 0x30))
            else
              if b then (if c then (if d then 0x59 else 0x52) else (if d then 0x4f else 0x44))
              else (if c then (if d then 0x75 else 0x7e) else (if d then 0x63 else 0x68))
          else
            if a then
              if b then (if c then (if d then 0xb1 else 0xba) else (if d then 0xa7 else 0xac))
              else (if c then (if d then 0x9d else 0x96) else (if d then 0x8b else 0x80))
            else
              if b then (if c then (if d then 0xe9 else 0xe2) else (if d then 0xff else 0xf4))
              else (if c then (if d then 0xc5 else 0xce) else (if d then 0xd3 else 0xd8))
        else
          if x & 0x10 == 0 then
            if a then
              if b then (if c then (if d then 0x7a else 0x71) else (if d then 0x6c else 0x67))
              else (if c then (if d then 0x56 else 0x5d) else (if d then 0x40 else 0x4b))
            else
              if b then (if c then (if d then 0x22 else 0x29) else (if d then 0x34 else 0x3f))
              else (if c then (if d then 0x0e else 0x05) else (if d then 0x18 else 0x13))
          else
            if a then
              if b then (if c then (if d then 0xca else 0xc1) else (if d then 0xdc else 0xd7))
              else (if c then (if d then 0xe6 else 0xed) else (if d then 0xf0 else 0xfb))
            else
              if b then (if c then (if d then 0x92 else 0x99) else (if d then 0x84 else 0x8f))
              else (if c then (if d then 0xbe else 0xb5) else (if d then 0xa8 else 0xa3))
  }

  /** Multiplication by 13. */
  function Gf13(x: bv8): bv8 {
    var a, b, c, d := x & 8 == 0, x & 4 == 0, x & 2 == 0, x & 1 == 0;
    if x & 0x80 == 0 then
      if x & 0x40 == 0 then
        if x & 0x20 == 0 then
          if x & 0x10 == 0 then
            if a then
              if b then (if c then (if d then 0x00 else 0x0d) else (if d then 0x1a else 0x17))
              else (if c then (if d then 0x34 else 0x39) else (if d then 0x2e else 0x23))
            else
              if b then (if c then (if d then 0x68 else 0x65) else (if d then 0x72 else 0x7f))
              else (if c then (if d then 0x5c else 0x51) else (if d then 0x46 else 0x4b))
          else
            if a then
              if b then (if c then (if d then 0xd0 else 0xdd) else (if d then 0xca else 0xc7))
              else (if c then (if d then 0xe4 else 0xe9) else (if d then 0xfe else 0xf3))
            else
              if b then (if c then (if d then 0xb8 else 0xb5) else (if d then 0xa2 else 0xaf))
              else (if c then (if d then 0x8c else 0x81) else (if d then 0x96 else 0x9b))
        else
          if x & 0x10 == 0 then
            if a then
              if b then (if c then (if d then 0xbb else 0xb6) else (if d then 0xa1 else 0xac))
              else (if c then (if d then 0x8f else 0x82) else (if d then 0x95 else 0x98))
            else
              if b then (if c then (if d then 0xd3 else 0xde) else (if d then 0xc9 else 0xc4))
              else (if c then (if d then 0xe7 else 0xea) else (if d then 0xfd else 0xf0))
          else
            if a then
              if b then (if c then (if d then 0x6b else 0x66) else (if d then 0x71 else 0x7c))
              else (if c then (if d then 0x5f else 0x52) else (if d then 0x45 else 0x48))
            else
              if b then (if c then (if d then 0x03 else 0x0e) else (if d then 0x19 else 0x14))
              else (if c then (if d then 0x37 else 0x3a) else (if d then 0x2d else 0x20))
      else
        if x & 0x20 == 0 then
          if x & 0x10 == 0 then
            if a then
              if b then (if c then (if d then 0x6d else 0x60) else (if d then 0x77 else 0x7a))
              else (if c then (if d then 0x59 else 0x54) else (if d then 0x43 else 0x4e))
            else
              if b then (if c then (if d then 0x05 else 0x08) else (if d then 0x1f else 0x12))
              else (if c then (if d then 0x31 else 0x3c) else (if d then 0x2b else 0x26))
          else
            if a then
              if b then (if c then (if d then 0xbd else 0xb0) else (if d then 0xa7 else 0xaa))
              else (if c then (if d then 0x89 else 0x84) else (if d then 0x93 else 0x9e))
            else
              if b then (if c then (if d then 0xd5 else 0xd8) else (if d then 0xcf else 0xc2))
              else (if c then (if d then 0xe1 else 0xec) else (if d then 0xfb else 0xf6))
        else
          if x & 0x10 == 0 then
            if a then
              if b then (if c then (if d then 0xd6 else 0xdb) else (if d then 0xcc else 0xc1))
              else (if c then (if d then 0xe2 else 0xef) else (if d then 0xf8 else 0xf5))
            else
              if b then (if c then (if d then 0xbe else 0xb3) else (if d then 0xa4 else 0xa9))
              else (if c then (if d then 0x8a else 0x87) else (if d then 0x90 else 0x9d))
          else
            if a then
              if b then (if c then (if d then 0x06 else 0x0b) else (if d then 0x1c else 0x11))
              else (if c then (if d then 0x32 else 0x3f) else (if d then 0x28 else 0x25))
            else
              if b then (if c then (if d then 0x6e else 0x63) else (if d then 0x74 else 0x79))
              else (if c then (if d then 0x5a else 0x57) else (if d then 0x40 else 0x4d))
    else
      if x & 0x40 == 0 then
        if x & 0x20 == 0 then
          if x & 0x10 == 0 then
            if a then
              if b then (if c then (if d then 0xda else 0xd7) else (if d then 0xc0 else 0xcd))
              else (if c then (if d then 0xee else 0xe3) else (if d then 0xf4 else 0xf9))
            else
              if b then (if c then (if d then 0xb2 else 0xbf) else (if d then 0xa8 else 0xa5))
              else (if c then (if d then 0x86 else 0x8b) else (if d then 0x9c else 0x91))
          else
            if a then
              if b then (if c then (if d then 0x0a else 0x07) else (if d then 0x10 else 0x1d))
              else (if c then (if d then 0x3e else 0x33) else (if d then 0x24 else 0x29))
            else
              if b then (if c then (if d then 0x62 else 0x6f) else (if d then 0x78 else 0x75))
              else (if c then (if d then 0x56 else 0x5b) else (if d then 0x4c else 0x41))
        else
          if x & 0x10 == 0 then
            if a then
              if b then (if c then (if d then 0x61 else 0x6c) else (if d then 0x7b else 0x76))
              else (if c then (if d then 0x55 else 0x58) else (if d then 0x4f else 0x42))
            else
              if b then (if c then (if d then 0x09 else 0x04) else (if d then 0x13 else 0x1e))
              else (if c then (if d then 0x3d else 0x30) else (if d then 0x27 else 0x2a))
          else
            if a then
              if b then (if c then (if d then 0xb1 else 0xbc) else (if d then 0xab else 0xa6))
              else (if c then (if d then 0x85 else 0x88) else (if d then 0x9f else 0x92))
            else
              if b then (if c then (if d then 0xd9 else 0xd4) else (if d then 0xc3 else 0xce))
              else (if c then (if d then 0xed else 0xe0) else (if d then 0xf7 else 0xfa))
      else
        if x & 0x20 == 0 then
          if x & 0x10 == 0 then
            if a then
              if b then (if c then (if d then 0xb7 else 0xba) else (if d then 0xad else 0xa0))
              else (if c then (if d then 0x83 else 0x8e) else (if d then 0x99 else 0x94))
            else
              if b then (if c then (if d then 0xdf else 0xd2) else (if d then 0xc5 else 0xc8))
              else (if c then (if d then 0xeb else 0xe6) else (if d then 0xf1 else 0xfc))
          else
            if a then
              if b then (if c then (if d then 0x67 else 0x6a) else (if d then 0x7d else 0x70))
              else (if c then (if d then 0x53 else 0x5e) else (if d then 0x49 else 0x44))
            else
              if b then (if c then (if d then 0x0f else 0x02) else (if d then 0x15 else 0x18))
              else (if c then (if d then 0x3b else 0x36) else (if d then 0x21 else 0x2c))
        else
          if x & 0x10 == 0 then
            if a then
              if b then (if c then (if d then 0x0c else 0x01) else (if d then 0x16 else 0x1b))
              else (if c then (if d then 0x38 else 0x35) else (if d then 0x22 else 0x2f))
            else
              if b then (if c then (if d then 0x64 else 0x69) else (if d then 0x7e else 0x73))
              else (if c then (if d then 0x50 else 0x5d) else (if d then 0x4a else 0x47))
          else
            if a then
              if b then (if c then (if d then 0xdc else 0xd1) else (if d then 0xc6 else 0xcb))
              else (if c then (if d then 0xe8 else 0xe5) else (if d then 0xf2 else 0xff))
            else
              if b then (if c then (if d then 0xb4 else 0xb9) else (if d then 0xae else 0xa3))
              else (if c then (if d then 0x80 else 0x8d) else (if d then 0x9a else 0x97))
  }

  /** Multiplication by 14. */
  function Gf14(x: bv8): bv8 {
    var a, b, c, d := x & 8 == 0, x & 4 == 0, x & 2 == 0, x & 1 == 0;
    if x & 0x80 == 0 then
      if x & 0x40 == 0 then
        if x & 0x20 == 0 then
          if x & 0x10 == 0 then
            if a then
              if b then (if c then (if d then 0x00 else 0x0e) else (if d then 0x1c else 0x12))
              else (if c then (if d then 0x38 else 0x36) else (if d then 0x24 else 0x2a))
            else
              if b then (if c then (if d then 0x70 else 0x7e) else (if d then 0x6c else 0x62))
              else (if c then (if d then 0x48 else 0x46) else (if d then 0x54 else 0x5a))
          else
            if a then
              if b then (if c then (if d then 0xe0 else 0xee) else (if d then 0xfc else 0xf2))
              else (if c then (if d then 0xd8 else 0xd6) else (if d then 0xc4 else 0xca))
            else
              if b then (if c then (if d then 0x90 else 0x9e) else (if d then 0x8c else 0x82))
              else (if c then (if d then 0xa8 else 0xa6) else (if d then 0xb4 else 0xba))
        else
          if x & 0x10 == 0 then
            if a then
              if b then (if c then (if d then 0xdb else 0xd5) else (if d then 0xc7 else 0xc9))
              else (if c then (if d then 0xe3 else 0xed) else (if d then 0xff else 0xf1))
            else
              if b then (if c then (if d then 0xab else 0xa5) else (if d then 0xb7 else 0xb9))
              else (if c then (if d then 0x93 else 0x9d) else (if d then 0x8f else 0x81))
          else
            if a then
              if b then (if c then (if d then 0x3b else 0x35) else (if d then 0x27 else 0x29))
              else (if c then (if d then 0x03 else 0x0d) else (if d then 0x1f else 0x11))
            else
              if b then (if c then (if d then 0x4b else 0x45) else (if d then 0x57 else 0x59))
              else (if c then (if d then 0x73 else 0x7d) else (if d then 0x6f else 0x61))
      else
        if x & 0x20 == 0 then
          if x & 0x10 == 0 then
            if a then
              if b then (if c then (if d then 0xad else 0xa3) else (if d then 0xb1 else 0xbf))
              else (if c then (if d then 0x95 else 0x9b) else (if d then 0x89 else 0x87))
            else
              if b then (if c then (if d then 0xdd else 0xd3) else (if d then 0xc1 else 0xcf))
              else (if c then (if d then 0xe5 else 0xeb) else (if d then 0xf9 else 0xf7))
          else
            if a then
              if b then (if c then (if d then 0x4d else 0x43) else (if d then 0x51 else 0x5f))
              else (if c then (if d then 0x75 else 0x7b) else (if d then 0x69 else 0x67))
            else
              if b then (if c then (if d then 0x3d else 0x33) else (if d then 0x21 else 0x2f))
              else (if c then (if d then 0x05 else 0x0b) else (if d then 0x19 else 0x17))
        else
          if x & 0x10 == 0 then
            if a then
              if b then (if c then (if d then 0x76 else 0x78) else (if d then 0x6a else 0x64))
              else (if c then (if d then 0x4e else 0x40) else (if d then 0x52 else 0x5c))
            else
              if b then (if c then (if d then 0x06 else 0x08) else (if d then 0x1a else 0x14))
              else (if c then (if d then 0x3e else 0x30) else (if d then 0x22 else 0x2c))
          else
            if a then
              if b then (if c then (if d then 0x96 else 0x98) else (if d then 0x8a else 0x84))
              else (if c then (if d then 0xae else 0xa0) else (if d then 0xb2 else 0xbc))
            else
              if b then (if c then (if d then 0xe6 else 0xe8) else (if d then 0xfa else 0xf4))
              else (if c then (if d then 0xde else 0xd0) else (if d then 0xc2 else 0xcc))
    else
      if x & 0x40 == 0 then
        if x & 0x20 == 0 then
          if x & 0x10 == 0 then
            if a then
              if b then (if c then (if d then 0x41 else 0x4f) else (if d then 0x5d else 0x53))
              else (if c then (if d then 0x79 else 0x77) else (if d then 0x65 else 0x6b))
            else
              if b then (if c then (if d then 0x31 else 0x3f) else (if d then 0x2d else 0x23))
              else (if c then (if d then 0x09 else 0x07) else (if d then 0x15 else 0x1b))
          else
            if a then
              if b then (if c then (if d then 0xa1 else 0xaf) else (if d then 0xbd else 0xb3))
              else (if c then (if d then 0x99 else 0x97) else (if d then 0x85 else 0x8b))
            else
              if b then (if c then (if d then 0xd1 else 0xdf) else (if d then 0xcd else 0xc3))
              else (if c then (if d then 0xe9 else 0xe7) else (if d then 0xf5 else 0xfb))
        else
          if x & 0x10 == 0 then
            if a then
              if b then (if c then (if d then 0x9a else 0x94) else (if d then 0x86 else 0x88))
              else (if c then (if d then 0xa2 else 0xac) else (if d then 0xbe else 0xb0))
            else
              if b then (if c then (if d then 0xea else 0xe4) else (if d then 0xf6 else 0xf8))
              else (if c then (if d then 0xd2 else 0xdc) else (if d then 0xce else 0xc0))
          else
            if a then
              if b then (if c then (if d then 0x7a else 0x74) else (if d then 0x66 else 0x68))
              else (if c then (if d then 0x42 else 0x4c) else (if d then 0x5e else 0x50))
            else
              if b then (if c then (if d then 0x0a else 0x04) else (if d then 0x16 else 0x18))
              else (if c then (if d then 0x32 else 0x3c) else (if d then 0x2e else 0x20))
      else
        if x & 0x20 == 0 then
          if x & 0x10 == 0 then
            if a then
              if b then (if c then (if d then 0xec else 0xe2) else (if d then 0xf0 else 0xfe))
              else (if c then (if d then 0xd4 else 0xda) else (if d then 0xc8 else 0xc6))
            else
              if b then (if c then (if d then 0x9c else 0x92) else (if d then 0x80 else 0x8e))
              else (if c then (if d then 0xa4 else 0xaa) else (if d then 0xb8 else 0xb6))
          else
            if a then
              if b then (if c then (if d then 0x0c else 0x02) else (if d then 0x10 else 0x1e))
              else (if c then (if d then 0x34 else 0x3a) else (if d then 0x28 else 0x26))
            else
              if b then (if c then (if d then 0x7c else 0x72) else (if d then 0x60 else 0x6e))
              else (if c then (if d then 0x44 else 0x4a) else (if d then 0x58 else 0x56))
        else
          if x & 0x10 == 0 then
            if a then
              if b then (if c then (if d then 0x37 else 0x39) else (if d then 0x2b else 0x25))
              else (if c then (if d then 0x0f else 0x01) else (if d then 0x13 else 0x1d))
            else
              if b then (if c then (if d then 0x47 else 0x49) else (if d then 0x5b else 0x55))
              else (if c then (if d then 0x7f else 0x71) else (if d then 0x63 else 0x6d))
          else
            if a then
              if b then (if c then (if d then 0xd7 else 0xd9) else (if d then 0xcb else 0xc5))
              else (if c then (if d then 0xef else 0xe1) else (if d then 0xf3 else 0xfd))
            else
              if b then (if c then (if d then 0xa7 else 0xa9) else (if d then 0xbb else 0xb5))
              else (if c then (if d then 0x9f else 0x91) else (if d then 0x83 else 0x8d))
  }

  lemma SboxInverse(x: bv8)
    ensures Rsbox(Sbox(x)) == x && Sbox(Rsbox(x)) == x
  {
  }

  /** The tables at x hold its products with the six factors. */
  predicate Products(x: bv8) {
    && Gf2(x) == Double(x) && Gf3(x) == Add(Double(x), x)
    && Gf9(x) == Times9(x) && Gf11(x) == Times11(x) && Gf13(x) == Times13(x) && Gf14(x) == Times14(x)
  }

  // the tables are compared thirty-two entries at a time

  lemma Products0(x: bv8)
    requires x & 0xe0 == 0x00
    ensures Products(x)
  {
  }

  lemma Products1(x: bv8)
    requires x & 0xe0 == 0x20
    ensures Products(x)
  {
  }

  lemma Products2(x: bv8)
    requires x & 0xe0 == 0x40
    ensures Products(x)
  {
  }

  lemma Products3(x: bv8)
    requires x & 0xe0 == 0x60
    ensures Products(x)
  {
  }

  lemma Products4(x: bv8)
    requires x & 0xe0 == 0x80
    ensures Products(x)
  {
  }

  lemma Products5(x: bv8)
    requires x & 0xe0 == 0xa0
    ensures Products(x)
  {
  }

  lemma Products6(x: bv8)
    requires x & 0xe0 == 0xc0
    ensures Products(x)
  {
  }

  lemma Products7(x: bv8)
    requires x & 0xe0 == 0xe0
    ensures Products(x)
  {
  }

  /** The six tables are multiplication by 2, 3, 9, 11, 13 and 14 in the field. */
  lemma TablesMultiply(x: bv8)
    ensures Products(x)
  {
    hide Products;
    if x & 0xe0 == 0x00 {
      Products0(x);
    } else if x & 0xe0 == 0x20 {
      Products1(x);
    } else if x & 0xe0 == 0x40 {
      Products2(x);
    } else if x & 0xe0 == 0x60 {
      Products3(x);
    } else if x & 0xe0 == 0x80 {
      Products4(x);
    } else if x & 0xe0 == 0xa0 {
      Products5(x);
    } else if x & 0xe0 == 0xc0 {
      Products6(x);
    } else {
      Products7(x);
    }
  }

  // multiplication by each factor distributes over addition

  lemma Gf9Add(x: bv8, y: bv8)
    ensures Gf9(Add(x, y)) == Add(Gf9(x), Gf9(y))
  {
    hide Gf9, Double, Add, Add3;
    Factors(x);
    Factors(y);
    Factors(Add(x, y));
    DoublesAdd(x, y);
    Swap2(Double(Double(Double(x))), Double(Double(Double(y))), x, y);
  }

  lemma Gf11Add(x: bv8, y: bv8)
    ensures Gf11(Add(x, y)) == Add(Gf11(x), Gf11(y))
  {
    hide Gf11, Double, Add, Add3;
    Factors(x);
    Factors(y);
    Factors(Add(x, y));
    DoublesAdd(x, y);
    Swap3(Double(Double(Double(x))), Double(Double(Double(y))), Double(x), Double(y), x, y);
  }

  lemma Gf13Add(x: bv8, y: bv8)
    ensures Gf13(Add(x, y)) == Add(Gf13(x), Gf13(y))
  {
    hide Gf13, Double, Add, Add3;
    Factors(x);
    Factors(y);
    Factors(Add(x, y));
    DoublesAdd(x, y);
    Swap3(Double(Double(Double(x))), Double(Double(Double(y))), Double(Double(x)), Double(Double(y)), x, y);
  }

  lemma Gf14Add(x: bv8, y: bv8)
    ensures Gf14(Add(x, y)) == Add(Gf14(x), Gf14(y))
  {
    hide Gf14, Double, Add, Add3;
    Factors(x);
    Factors(y);
    Factors(Add(x, y));
    DoublesAdd(x, y);
    Swap3(Double(Double(Double(x))), Double(Double(Double(y))), Double(Double(x)), Double(Double(y)), Double(x),
          Double(y));
  }

  /** The product of the two column matrices is the identity, entry by entry. */
  lemma MatrixProduct(x: bv8)
    ensures Add4(Gf14(Gf2(x)), Gf11(x), Gf13(x), Gf9(Gf3(x))) == x
    ensures Add4(Gf14(Gf3(x)), Gf11(Gf2(x)), Gf13(x), Gf9(x)) == 0
    ensures Add4(Gf14(x), Gf11(Gf3(x)), Gf13(Gf2(x)), Gf9(x)) == 0
    ensures Add4(Gf14(x), Gf11(x), Gf13(Gf3(x)), Gf9(Gf2(x))) == 0
  {
    hide *;
    Factors(x);
    Factors(Gf2(x));
    Factors(Gf3(x));
    FieldProduct(x);
  }

  lemma Factors(x: bv8)
    ensures Gf2(x) == Double(x) && Gf3(x) == Add(Double(x), x)
    ensures Gf9(x) == Times9(x) && Gf11(x) == Times11(x) && Gf13(x) == Times13(x) && Gf14(x) == Times14(x)
  {
    hide Gf2, Gf3, Gf9, Gf11, Gf13, Gf14, Double, Add;
    TablesMultiply(x);
  }

  /** One byte of a mixed column. */
  function Mix(a: bv8, b: bv8, c: bv8, d: bv8): bv8 {
    Add4(Gf2(a), Gf3(b), c, d)
  }

  /** One byte of an unmixed column. */
  function Unmix(a: bv8, b: bv8, c: bv8, d: bv8): bv8 {
    Add4(Gf14(a), Gf11(b), Gf13(c), Gf9(d))
  }

  lemma Gf9Mix(a: bv8, b: bv8, c: bv8, d: bv8)
    ensures Gf9(Mix(a, b, c, d)) == Add4(Gf9(Gf2(a)), Gf9(Gf3(b)), Gf9(c), Gf9(d))
  {
    hide Gf2, Gf3, Gf9, Add;
    Gf9Add(Add3(Gf2(a), Gf3(b), c), d);
    Gf9Add(Add(Gf2(a), Gf3(b)), c);
    Gf9Add(Gf2(a), Gf3(b));
  }

  lemma Gf11Mix(a: bv8, b: bv8, c: bv8, d: bv8)
    ensures Gf11(Mix(a, b, c, d)) == Add4(Gf11(Gf2(a)), Gf11(Gf3(b)), Gf11(c), Gf11(d))
  {
    hide Gf2, Gf3, Gf11, Add;
    Gf11Add(Add3(Gf2(a), Gf3(b), c), d);
    Gf11Add(Add(Gf2(a), Gf3(b)), c);
    Gf11Add(Gf2(a), Gf3(b));
  }

  lemma Gf13Mix(a: bv8, b: bv8, c: bv8, d: bv8)
    ensures Gf13(Mix(a, b, c, d)) == Add4(Gf13(Gf2(a)), Gf13(Gf3(b)), Gf13(c), Gf13(d))
  {
    hide Gf2, Gf3, Gf13, Add;
    Gf13Add(Add3(Gf2(a), Gf3(b), c), d);
    Gf13Add(Add(Gf2(a), Gf3(b)), c);
    Gf13Add(Gf2(a), Gf3(b));
  }

  lemma Gf14Mix(a: bv8, b: bv8, c: bv8, d: bv8)
    ensures Gf14(Mix(a, b, c, d)) == Add4(Gf14(Gf2(a)), Gf14(Gf3(b)), Gf14(c), Gf14(d))
  {
    hide Gf2, Gf3, Gf14, Add;
    Gf14Add(Add3(Gf2(a), Gf3(b), c), d);
    Gf14Add(Add(Gf2(a), Gf3(b)), c);
    Gf14Add(Gf2(a), Gf3(b));
  }

  /** Unmixing a mixed column gives back its first byte, and by rotation every other. */
  lemma MixInverse(a: bv8, b: bv8, c: bv8, d: bv8)
    ensures Unmix(Mix(a, b, c, d), Mix(b, c, d, a), Mix(c, d, a, b), Mix(d, a, b, c)) == a
  {
    hide Gf2, Gf3, Gf9, Gf11, Gf13, Gf14, Mix, Add4;
    Gf14Mix(a, b, c, d);
    Gf11Mix(b, c, d, a);
    Gf13Mix(c, d, a, b);
    Gf9Mix(d, a, b, c);
    Rotate(Gf11(Gf2(b)), Gf11(Gf3(c)), Gf11(d), Gf11(a));
    Rotate(Gf13(Gf2(c)), Gf13(Gf3(d)), Gf13(a), Gf13(b));
    Rotate(Gf13(b), Gf13(Gf2(c)), Gf13(Gf3(d)), Gf13(a));
    Rotate(Gf9(c), Gf9(Gf2(d)), Gf9(Gf3(a)), Gf9(b));
    Rotate(Gf9(b), Gf9(c), Gf9(Gf2(d)), Gf9(Gf3(a)));
    Rotate(Gf9(Gf2(d)), Gf9(Gf3(a)), Gf9(b), Gf9(c));
    Transpose(Gf14(Gf2(a)), Gf11(a), Gf13(a), Gf9(Gf3(a)), Gf14(Gf3(b)), Gf11(Gf2(b)), Gf13(b), Gf9(b),
              Gf14(c), Gf11(Gf3(c)), Gf13(Gf2(c)), Gf9(c), Gf14(d), Gf11(d), Gf13(Gf3(d)), Gf9(Gf2(d)));
    MatrixProduct(a);
    MatrixProduct(b);
    MatrixProduct(c);
    MatrixProduct(d);
    AddZeros(a);
  }
}
