/** The 6-bit character set of the RADE text and its CRC-8. */
module RadeCharset {
  import opened Bytes

  // ---------------------------------------------------------------- characters

  /** The code of a character; 0 when it has none. */
  function OtaCode(c: bv8): bv8 {
    if 38 <= c <= 47 then c - 37
    else if 48 <= c <= 57 then c - 48 + 10
    else if 65 <= c <= 90 then c - 65 + 20
    else if 97 <= c <= 122 then (c - 32) - 65 + 20
    else if c == 32 then 47
    else 0
  }

  /** The character of a code; 0 when it has none. */
  function CharOf(c: bv8): bv8 {
    if 1 <= c <= 9 then c + 37
    else if 10 <= c <= 19 then c - 10 + 48
    else if 20 <= c <= 46 then c - 20 + 65
    else if c == 47 then 32
    else 0
  }

  function One(c: bv8): seq<bv8> { if c == 0 then [] else [c] }

  /** The codes of a string up to its end or its first NUL; characters without a code drop out. */
  function Codes(s: seq<bv8>): seq<bv8> {
    if s == [] || s[0] == 0 then [] else One(OtaCode(s[0])) + Codes(s[1..])
  }

  function Chars(codes: seq<bv8>): seq<bv8> {
    if codes == [] || codes[0] == 0 then [] else One(CharOf(codes[0])) + Chars(codes[1..])
  }

  lemma OneAssoc(c: bv8, xs: seq<bv8>, ys: seq<bv8>)
    ensures One(c) + (xs + ys) == (One(c) + xs) + ys
  {
  }

  lemma {:induction false} CodesShort(s: seq<bv8>)
    ensures |Codes(s)| <= |s|
    ensures forall k :: 0 <= k < |Codes(s)| ==> 1 <= Codes(s)[k] <= 47
  {
    if s != [] && s[0] != 0 {
      CodesShort(s[1..]);
    }
  }

  lemma {:induction false} CodesAppend(s: seq<bv8>, t: seq<bv8>)
    requires 0 !in s
    ensures Codes(s + t) == Codes(s) + Codes(t)
  {
    if s == [] {
      assert s + t == t;
    } else {
      assert s[0] in s;
      assert (s + t)[1..] == s[1..] + t;
      CodesAppend(s[1..], t);
      OneAssoc(OtaCode(s[0]), Codes(s[1..]), Codes(t));
    }
  }

  lemma {:induction false} CharsAppend(s: seq<bv8>, t: seq<bv8>)
    requires 0 !in s
    ensures Chars(s + t) == Chars(s) + Chars(t)
  {
    if s == [] {
      assert s + t == t;
    } else {
      assert s[0] in s;
      assert (s + t)[1..] == s[1..] + t;
      CharsAppend(s[1..], t);
      OneAssoc(CharOf(s[0]), Chars(s[1..]), Chars(t));
    }
  }

  /** The first n elements of s, or all of s when it is shorter. */
  function Head(s: seq<bv8>, n: int): seq<bv8> {
    if n <= 0 then [] else if n < |s| then s[..n] else s
  }

  /** now is was with the codes written from place at on. */
  ghost predicate Filled(now: seq<bv8>, was: seq<bv8>, at: nat, codes: seq<bv8>) {
    && at + |codes| <= |was| == |now|
    && now[..at] == was[..at]
    && now[at..at + |codes|] == codes
    && now[at + |codes|..] == was[at + |codes|..]
  }

  lemma FilledNext(now: seq<bv8>, was: seq<bv8>, at: nat, codes: seq<bv8>, c: bv8)
    requires Filled(now, was, at, codes) && at + |codes| < |was|
    ensures Filled(now[at + |codes| := c], was, at, codes + [c])
  {
  }

  /** One turn of the loop: a character without a code writes nothing. */
  lemma FilledOn(now: seq<bv8>, was: seq<bv8>, at: nat, codes: seq<bv8>, c: bv8, next: seq<bv8>)
    requires Filled(now, was, at, codes) && at + |codes| < |was|
    requires next == if c != 0 then now[at + |codes| := c] else now
    ensures Filled(next, was, at, codes + One(c))
  {
    if c != 0 {
      FilledNext(now, was, at, codes, c);
    } else {
      Unit(codes);
    }
  }

  /** The first i elements of s are there and none is a NUL. */
  ghost predicate NoNul(s: seq<bv8>, i: nat) {
    i <= |s| && forall k :: 0 <= k < i ==> s[k] != 0
  }

  lemma CodesNext(s: seq<bv8>, i: nat)
    requires i < |s| && NoNul(s, i + 1)
    ensures Codes(s[..i + 1]) == Codes(s[..i]) + One(OtaCode(s[i]))
  {
    assert s[..i + 1] == s[..i] + [s[i]];
    CodesAppend(s[..i], [s[i]]);
    assert [s[i]][1..] == [];
    assert Codes([s[i]]) == One(OtaCode(s[i]));
  }

  lemma CodesStop(s: seq<bv8>, i: nat)
    requires NoNul(s, i)
    requires i < |s| ==> s[i] == 0
    ensures Codes(s) == Codes(s[..i])
  {
    assert s == s[..i] + s[i..];
    CodesAppend(s[..i], s[i..]);
  }

  /** The loop has stopped at the end or at a NUL. */
  lemma AllCoded(s: seq<bv8>, maxLen: int, i: nat)
    requires NoNul(s, i) && i <= |Head(s, maxLen)| && (i < maxLen && i < |s| ==> s[i] == 0)
    ensures Codes(s[..i]) == Codes(Head(s, maxLen))
  {
    var head := Head(s, maxLen);
    assert head[..i] == s[..i];
    CodesStop(head, i);
  }

  /** The loop of callsign_to_ota. */
  method WriteCodes(s: seq<bv8>, out: array<bv8>, at: nat, maxLen: int) returns (o: nat)
    requires maxLen <= |s| || 0 in s
    requires at + |Head(s, maxLen)| < out.Length
    modifies out
    ensures o == |Codes(Head(s, maxLen))| && at + o < out.Length
    ensures Filled(out[..], old(out[..]), at, Codes(Head(s, maxLen)))
  {
    ghost var was := out[..];
    ghost var done: seq<bv8> := [];
    o := 0;
    var i := 0;
    while i < maxLen && i < |s| && s[i] != 0
      invariant 0 <= o <= i <= |Head(s, maxLen)| && NoNul(s, i)
      invariant done == Codes(s[..i]) && o == |done|
      invariant Filled(out[..], was, at, done)
    {
      CodesNext(s, i);
      var code := OtaCode(s[i]);
      ghost var now := out[..];
      if code != 0 {
        out[at + o] := code;
        o := o + 1;
      }
      FilledOn(now, was, at, done, code, out[..]);
      done := done + One(code);
      i := i + 1;
    }
    AllCoded(s, maxLen, i);
  }

  /** callsign_to_ota: codes are written from place at on and closed with a NUL. */
  method CallsignToOta(s: seq<bv8>, out: array<bv8>, at: nat, maxLen: int)
    requires maxLen <= |s| || 0 in s
    requires at + |Head(s, maxLen)| < out.Length
    modifies out
    ensures Filled(out[..], old(out[..]), at, Codes(Head(s, maxLen)) + [0])
  {
    ghost var was := out[..];
    var o := WriteCodes(s, out, at, maxLen);
    FilledNext(out[..], was, at, Codes(Head(s, maxLen)), 0);
    out[at + o] := 0;
  }

  /** ota_to_callsign. */
  method OtaToCallsign(codes: seq<bv8>, maxLen: nat) returns (text: seq<bv8>)
    requires maxLen <= |codes|
    ensures text == Chars(codes[..maxLen])
  {
    text := [];
    var i := 0;
    while i < maxLen && codes[i] != 0
      invariant 0 <= i <= maxLen && 0 !in codes[..i] && text == Chars(codes[..i])
    {
      assert codes[..i + 1] == codes[..i] + [codes[i]];
      CharsAppend(codes[..i], [codes[i]]);
      assert [codes[i]][1..] == [];
      assert Chars([codes[i]]) == One(CharOf(codes[i]));
      var c := CharOf(codes[i]);
      if c != 0 {
        text := text + [c];
      }
      i := i + 1;
    }
    assert codes[..maxLen] == codes[..i] + codes[i..maxLen];
    CharsAppend(codes[..i], codes[i..maxLen]);
  }

  // ---------------------------------------------------------------- what survives

  predicate Supported(c: bv8) { OtaCode(c) != 0 }

  function Upper(c: bv8): bv8 { if 97 <= c <= 122 then c - 32 else c }

  const SLASH: bv8 := 47

  const ZERO: bv8 := 48

  /** The characters of s up to its first NUL that have a code, in upper case. */
  function Wanted(s: seq<bv8>): seq<bv8> {
    if s == [] || s[0] == 0 then []
    else (if Supported(s[0]) then [Upper(s[0])] else []) + Wanted(s[1..])
  }

  /** The same with each slash turned into a zero: both have the code 10. */
  function Received(s: seq<bv8>): seq<bv8> {
    if s == [] || s[0] == 0 then []
    else (if Supported(s[0]) then [if s[0] == SLASH then ZERO else Upper(s[0])] else []) + Received(s[1..])
  }

  function BeforeNul(s: seq<bv8>): seq<bv8> {
    if s == [] || s[0] == 0 then [] else [s[0]] + BeforeNul(s[1..])
  }

  lemma CharOfCode(c: bv8)
    ensures Supported(c) ==> CharOf(OtaCode(c)) == (if c == SLASH then ZERO else Upper(c)) != 0
    ensures Upper(c) == 0 <==> c == 0
  {
  }

  lemma CodesApart(c: bv8, d: bv8)
    requires Supported(c) && OtaCode(c) == OtaCode(d)
    ensures Upper(c) == Upper(d) || (c == 47 && d == 48) || (c == 48 && d == 47)
  {
  }

  /** Blank, the characters from the ampersand to the digit nine, and letters; upper and lower case have the
      same code, slash and zero too, and no others do. */
  lemma SupportedIff(c: bv8, d: bv8)
    ensures Supported(c) <==> c == 32 || 38 <= c <= 57 || 65 <= c <= 90 || 97 <= c <= 122
    ensures Supported(c) && OtaCode(c) == OtaCode(d)
       <==> Supported(c) && (Upper(c) == Upper(d) || (c == 47 && d == 48) || (c == 48 && d == 47))
  {
    if Supported(c) && OtaCode(c) == OtaCode(d) {
      CodesApart(c, d);
    }
  }

  /** Decoding the codes of a string gives its supported characters in upper case, with zeros for slashes. */
  lemma {:induction false} CharsOfCodes(s: seq<bv8>)
    ensures Chars(Codes(s)) == Received(s)
  {
    if s != [] && s[0] != 0 {
      CharsOfCodes(s[1..]);
      CharOfCode(s[0]);
      var one := One(OtaCode(s[0]));
      if one != [] {
        assert Codes(s)[1..] == Codes(s[1..]);
      } else {
        assert Codes(s) == Codes(s[1..]);
      }
    }
  }

  /** So the string is recovered, in upper case, exactly when it has no slash. */
  lemma {:induction false} RecoveredIffNoSlash(s: seq<bv8>)
    ensures |Received(s)| == |Wanted(s)|
    ensures Received(s) == Wanted(s) <==> SLASH !in BeforeNul(s)
  {
    if s != [] && s[0] != 0 {
      RecoveredIffNoSlash(s[1..]);
      var r, w := Received(s[1..]), Wanted(s[1..]);
      var b := BeforeNul(s[1..]);
      assert BeforeNul(s) == [s[0]] + b;
      if Supported(s[0]) {
        assert Received(s)[1..] == r && Wanted(s)[1..] == w;
        assert Received(s)[0] == (if s[0] == SLASH then ZERO else Upper(s[0])) && Wanted(s)[0] == Upper(s[0]);
      } else {
        assert Received(s) == r && Wanted(s) == w;
      }
    }
  }

  // ---------------------------------------------------------------- CRC-8

  const GENERATOR: bv8 := 0x1D

  function Shift(crc: bv8): bv8 {
    if crc & 0x80 != 0 then (crc << 1) ^ GENERATOR else crc << 1
  }

  function Shifts(crc: bv8, n: nat): bv8 {
    if n == 0 then crc else Shift(Shifts(crc, n - 1))
  }

  /** The CRC of the data up to its first zero, from a given register on. */
  function Crc(crc: bv8, data: seq<bv8>): bv8
    decreases |data|
  {
    if data == [] || data[0] == 0 then crc else Crc(Shifts(crc ^ data[0], 8), data[1..])
  }

  method Crc8(data: seq<bv8>, len: nat) returns (crc: bv8)
    requires len <= |data|
    ensures crc == Crc(0, data[..len])
  {
    crc := 0;
    var i := 0;
    while i < len
      invariant 0 <= i <= len
      invariant Crc(crc, data[i..len]) == Crc(0, data[..len])
    {
      if data[i] == 0 {
        break;
      }
      assert data[i..len][1..] == data[i + 1..len];
      crc := crc ^ data[i];
      ghost var start := crc;
      var b := 0;
      while b < 8
        invariant 0 <= b <= 8 && crc == Shifts(start, b)
      {
        crc := if crc & 0x80 != 0 then (crc << 1) ^ GENERATOR else crc << 1;
        b := b + 1;
      }
      i := i + 1;
    }
  }

  lemma ShiftInjective(a: bv8, b: bv8)
    requires Shift(a) == Shift(b)
    ensures a == b
  {
  }

  lemma {:induction false} ShiftsInjective(a: bv8, b: bv8, n: nat)
    requires a != b
    ensures Shifts(a, n) != Shifts(b, n)
  {
    if n > 0 {
      ShiftsInjective(a, b, n - 1);
      if Shifts(a, n) == Shifts(b, n) {
        ShiftInjective(Shifts(a, n - 1), Shifts(b, n - 1));
      }
    }
  }

  lemma {:induction false} RegisterMatters(a: bv8, b: bv8, data: seq<bv8>)
    requires a != b
    ensures Crc(a, data) != Crc(b, data)
    decreases |data|
  {
    if data != [] && data[0] != 0 {
      assert a ^ data[0] != b ^ data[0];
      ShiftsInjective(a ^ data[0], b ^ data[0], 8);
      RegisterMatters(Shifts(a ^ data[0], 8), Shifts(b ^ data[0], 8), data[1..]);
    }
  }

  /** Changing exactly one code of a string without zero codes always changes its CRC, whatever its length. */
  lemma {:induction false} OneChangeDetected(crc: bv8, xs: seq<bv8>, ys: seq<bv8>, k: nat)
    requires |xs| == |ys| && k < |xs| && xs[k] != ys[k]
    requires forall i :: 0 <= i < |xs| && i != k ==> xs[i] == ys[i]
    requires 0 !in xs && 0 !in ys
    ensures Crc(crc, xs) != Crc(crc, ys)
    decreases |xs|
  {
    assert xs[0] in xs && ys[0] in ys;
    if k == 0 {
      assert crc ^ xs[0] != crc ^ ys[0];
      ShiftsInjective(crc ^ xs[0], crc ^ ys[0], 8);
      assert xs[1..] == ys[1..];
      RegisterMatters(Shifts(crc ^ xs[0], 8), Shifts(crc ^ ys[0], 8), xs[1..]);
    } else {
      OneChangeDetected(Shifts(crc ^ xs[0], 8), xs[1..], ys[1..], k - 1);
    }
  }

  /** The receiver's CRC over the padded field is the sender's over the codes alone. */
  lemma {:induction false} PaddingIgnored(crc: bv8, codes: seq<bv8>, pad: seq<bv8>)
    requires pad == [] || pad[0] == 0
    ensures Crc(crc, codes + pad) == Crc(crc, codes)
    decreases |codes|
  {
    if codes == [] {
      assert codes + pad == pad;
    } else if codes[0] != 0 {
      assert (codes + pad)[1..] == codes[1..] + pad;
      PaddingIgnored(Shifts(crc ^ codes[0], 8), codes[1..], pad);
    }
  }

  lemma {:induction false} PaddingUnread(codes: seq<bv8>, pad: seq<bv8>)
    requires pad == [] || pad[0] == 0
    ensures Chars(codes + pad) == Chars(codes)
  {
    if codes == [] {
      assert codes + pad == pad;
    } else if codes[0] != 0 {
      assert (codes + pad)[1..] == codes[1..] + pad;
      PaddingUnread(codes[1..], pad);
    }
  }
}
