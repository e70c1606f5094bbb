/**
 gRPC-Web framing: the 5-byte header built in front of a message, the byte decoder with its 32-bit length comparison,
 and the test that tells a base64 stream from a binary one. Handling a frame is a parameter that accepts or refuses it.
 */
module GrpcWeb {
  import opened Prelude

  /** `flags & 0x80` marks the trailer. */
  datatype Frame = Frame(flags: Byte, payload: seq<Byte>) {
    predicate Trailer() { flags >= 0x80 }
  }

  // ---- Encoding ----

  /** `binary.BigEndian.PutUint32(uint32(n))`. */
  function BigEndian(n: nat): (r: seq<Byte>)
    ensures |r| == 4
  {
    [n / 256 / 256 / 256 % 256, n / 256 / 256 % 256, n / 256 % 256, n % 256]
  }

  /** `binary.BigEndian.Uint32`. */
  function Uint32(s: seq<Byte>): (n: nat)
    requires |s| == 4
    ensures n < WORD
  {
    256 * (256 * (256 * s[0] as int + s[1]) + s[2]) + s[3]
  }

  lemma Uint32Inverts(n: nat, s: seq<Byte>)
    requires |s| == 4
    ensures Uint32(BigEndian(n)) == n % WORD && BigEndian(Uint32(s)) == s
  {
    Digits(n);
    LastDigit(256 * (256 * s[0] as int + s[1]) + s[2], s[3]);
    LastDigit(256 * s[0] as int + s[1], s[2]);
    LastDigit(s[0], s[1]);
  }

  lemma LastDigit(n: nat, d: Byte)
    ensures (256 * n + d) / 256 == n && (256 * n + d) % 256 == d
  {
  }

  lemma Digits(n: nat)
    ensures 256 * (256 * (256 * (n / 256 / 256 / 256 % 256) + n / 256 / 256 % 256) + n / 256 % 256) + n % 256
            == n % WORD
  {
    var a := n / 256;
    var b := a / 256;
    var c := b / 256;
    var d := c / 256;
    assert n == 256 * a + n % 256 && a == 256 * b + a % 256 && b == 256 * c + b % 256 && c == 256 * d + c % 256;
    Remainder(n, d, 256 * (256 * (256 * (c % 256) + b % 256) + a % 256) + n % 256);
  }

  lemma Remainder(n: nat, q: nat, r: nat)
    requires n == WORD * q + r && r < WORD
    ensures n % WORD == r
  {
  }

  function Encode(f: Frame): seq<Byte> { [f.flags] + BigEndian(|f.payload|) + f.payload }

  function EncodeAll(fs: seq<Frame>): seq<Byte> {
    if fs == [] then [] else Encode(fs[0]) + EncodeAll(fs[1..])
  }

  /** A frame on the wire: the flags, four bytes of length with the highest first, and the payload. */
  lemma EncodeLayout(f: Frame)
    requires |f.payload| < WORD
    ensures var bytes := Encode(f);
            && |bytes| == 5 + |f.payload| && bytes[0] == f.flags && bytes[5..] == f.payload
            && 0x100_0000 * bytes[1] as int + 0x1_0000 * bytes[2] as int + 0x100 * bytes[3] as int + bytes[4] as int
               == |f.payload|
  {
    var b := BigEndian(|f.payload|);
    Uint32Inverts(|f.payload|, b);
    SmallMod(|f.payload|);
    var bytes := Encode(f);
    assert bytes[1] == b[0] && bytes[2] == b[1] && bytes[3] == b[2] && bytes[4] == b[3];
  }

  /** `WithGRPCWebBody`: a data frame around a marshalled message, filled in place. */
  method BuildFrame(message: seq<Byte>) returns (frame: array<Byte>)
    ensures fresh(frame) && frame[..] == Encode(Frame(0, message))
  {
    frame := new Byte[5 + |message|](_ => 0);
    var header := BigEndian(|message|);
    for i := 0 to 4
      invariant frame[0] == 0 && forall k | 0 <= k < i :: frame[1 + k] == header[k]
    {
      frame[1 + i] := header[i];
    }
    for i := 0 to |message|
      invariant frame[0] == 0 && forall k | 0 <= k < 4 :: frame[1 + k] == header[k]
      invariant forall k | 0 <= k < i :: frame[5 + k] == message[k]
    {
      frame[5 + i] := message[i];
    }
    var bytes := [0] + header + message;
    assert forall k | 0 <= k < |bytes| :: frame[k] == bytes[k];
  }

  // ---- Decoding ----

  datatype Status = Done | BadHeader | BadPayload | Refused

  /** The frames handed on, in order, and how the decoder ended. */
  datatype Decoded = Decoded(frames: seq<Frame>, status: Status)

  /** The header's length field, and the bytes after the header. */
  function Length(data: seq<Byte>): nat requires |data| >= 5 { Uint32(data[1..5]) }

  /** The code's test on the rest of the data, which it first truncates to 32 bits. */
  predicate Holds(data: seq<Byte>)
    requires |data| >= 5
  {
    (|data| - 5) % WORD >= Length(data)
  }

  function First(data: seq<Byte>): Frame
    requires |data| >= 5 && Holds(data)
  {
    Frame(data[0], data[5..5 + Length(data)])
  }

  function Decode(data: seq<Byte>, accepts: Frame -> bool): Decoded {
    if |data| < 5 then Decoded([], if data == [] then Done else BadHeader)
    else if !Holds(data) then Decoded([], BadPayload)
    else if !accepts(First(data)) then Decoded([First(data)], Refused)
    else if First(data).Trailer() then Decoded([First(data)], Done)
    else After([First(data)], Decode(data[5 + Length(data)..], accepts))
  }

  function After(fs: seq<Frame>, d: Decoded): Decoded { Decoded(fs + d.frames, d.status) }

  lemma AfterAfter(fs: seq<Frame>, f: Frame, d: Decoded)
    ensures After(fs, After([f], d)) == After(fs + [f], d)
  {
    assert fs + ([f] + d.frames) == (fs + [f]) + d.frames;
  }

  /** `readGRPCWebFramesBytes`; `frames` are those handed to `processGRPCWebFrame`. */
  method ReadFrames(data: seq<Byte>, accepts: Frame -> bool) returns (frames: seq<Frame>, status: Status)
    ensures Decoded(frames, status) == Decode(data, accepts)
  {
    var rest := data;
    frames := [];
    while |rest| >= 5
      invariant Decode(data, accepts) == After(frames, Decode(rest, accepts))
      decreases |rest|
    {
      var flags, length := rest[0], Uint32(rest[1..5]);
      ghost var start := rest;
      rest := rest[5..];
      if |rest| % WORD < length {
        return frames, BadPayload;
      }
      var frame := Frame(flags, rest[..length]);
      assert frame == First(start) && rest[length..] == start[5 + length..];
      rest := rest[length..];
      if !accepts(frame) {
        return frames + [frame], Refused;
      }
      if frame.Trailer() {
        return frames + [frame], Done;
      }
      AfterAfter(frames, frame, Decode(rest, accepts));
      frames := frames + [frame];
    }
    status := if |rest| > 0 then BadHeader else Done;
  }

  // ---- Round trip ----

  /** The frames up to and including the first trailer. */
  function UpToTrailer(fs: seq<Frame>): seq<Frame> {
    if fs == [] then [] else if fs[0].Trailer() then [fs[0]] else [fs[0]] + UpToTrailer(fs[1..])
  }

  ghost predicate AcceptsAll(accepts: Frame -> bool, fs: seq<Frame>) { forall i | 0 <= i < |fs| :: accepts(fs[i]) }

  /** Each payload fits the 32-bit length field. */
  predicate Encodable(fs: seq<Frame>) { forall i | 0 <= i < |fs| :: |fs[i].payload| < WORD }

  /** The comparison of the frame's length with the rest of the data, counted modulo 2^32, lets the frame through. */
  predicate Survives(f: Frame, rest: nat) { (|f.payload| + rest) % WORD >= |f.payload| }

  predicate AllSurvive(fs: seq<Frame>, tail: nat) {
    fs == [] || (Survives(fs[0], |EncodeAll(fs[1..])| + tail) && (fs[0].Trailer() || AllSurvive(fs[1..], tail)))
  }

  lemma HeaderOfEncoding(f: Frame, rest: seq<Byte>)
    requires |f.payload| < WORD
    ensures var data := Encode(f) + rest;
            && |data| == 5 + |f.payload| + |rest|
            && data[0] == f.flags && Length(data) == |f.payload|
            && data[5..5 + |f.payload|] == f.payload && data[5 + |f.payload|..] == rest
            && (Holds(data) <==> Survives(f, |rest|))
  {
    var data := Encode(f) + rest;
    assert data[1..5] == BigEndian(|f.payload|) by { HeaderBytes(f, rest); }
    Uint32Inverts(|f.payload|, data[1..5]);
    SmallMod(|f.payload|);
  }

  lemma HeaderBytes(f: Frame, rest: seq<Byte>)
    ensures var data := [f.flags] + BigEndian(|f.payload|) + f.payload + rest;
            && data[1..5] == BigEndian(|f.payload|)
            && data[5..5 + |f.payload|] == f.payload && data[5 + |f.payload|..] == rest
  {
  }

  /** Decoding one encoded frame and whatever follows it. */
  lemma DecodeOne(f: Frame, rest: seq<Byte>, accepts: Frame -> bool)
    requires |f.payload| < WORD && accepts(f)
    ensures |Encode(f) + rest| >= 5
    ensures Decode(Encode(f) + rest, accepts)
            == if !Survives(f, |rest|) then Decoded([], BadPayload)
               else if f.Trailer() then Decoded([f], Done)
               else After([f], Decode(rest, accepts))
  {
    HeaderOfEncoding(f, rest);
    var data := Encode(f) + rest;
    assert Holds(data) ==> First(data) == f;
  }

  predicate HasTrailer(fs: seq<Frame>) { fs != [] && (fs[0].Trailer() || HasTrailer(fs[1..])) }

  /** The frames up to the first trailer; without a trailer, all of them and then what the tail gives. */
  function Expected(fs: seq<Frame>, tail: Decoded): Decoded {
    if HasTrailer(fs) then Decoded(UpToTrailer(fs), Done) else After(fs, tail)
  }

  lemma ExpectedStep(fs: seq<Frame>, tail: Decoded)
    requires fs != []
    ensures Expected(fs, tail)
            == if fs[0].Trailer() then Decoded([fs[0]], Done) else After([fs[0]], Expected(fs[1..], tail))
  {
    assert [fs[0]] + (fs[1..] + tail.frames) == fs + tail.frames;
  }

  lemma EncodeAllStep(fs: seq<Frame>, tail: seq<Byte>)
    requires fs != []
    ensures EncodeAll(fs) + tail == Encode(fs[0]) + (EncodeAll(fs[1..]) + tail)
  {
  }

  /** Decoding an encoded frame sequence followed by `tail`. */
  lemma {:induction false} DecodeOfEncoding(fs: seq<Frame>, tail: seq<Byte>, accepts: Frame -> bool)
    requires Encodable(fs) && AcceptsAll(accepts, fs) && AllSurvive(fs, |tail|)
    ensures Decode(EncodeAll(fs) + tail, accepts) == Expected(fs, Decode(tail, accepts))
  {
    if fs == [] {
      assert EncodeAll(fs) + tail == tail;
    } else {
      if !fs[0].Trailer() {
        DecodeOfEncoding(fs[1..], tail, accepts);
      }
      EncodeAllStep(fs, tail);
      DecodeOne(fs[0], EncodeAll(fs[1..]) + tail, accepts);
      ExpectedStep(fs, Decode(tail, accepts));
    }
  }

  lemma {:induction false} SmallStreamsSurvive(fs: seq<Frame>, tail: nat)
    requires |EncodeAll(fs)| + tail < WORD
    ensures AllSurvive(fs, tail) && Encodable(fs)
  {
    if fs != [] {
      SmallStreamsSurvive(fs[1..], tail);
      var n := |fs[0].payload| + |EncodeAll(fs[1..])| + tail;
      assert n < WORD && n % WORD == n;
    }
  }

  /** Round trip: a stream shorter than 2^32 bytes gives back its frames up to the first trailer. */
  lemma RoundTrip(fs: seq<Frame>, accepts: Frame -> bool)
    requires |EncodeAll(fs)| < WORD && AcceptsAll(accepts, fs)
    ensures Decode(EncodeAll(fs), accepts) == Decoded(UpToTrailer(fs), Done)
  {
    SmallStreamsSurvive(fs, 0);
    DecodeOfEncoding(fs, [], accepts);
    assert EncodeAll(fs) + [] == EncodeAll(fs);
    if !HasTrailer(fs) {
      NoTrailerKeepsAll(fs);
    }
  }

  lemma {:induction false} NoTrailerKeepsAll(fs: seq<Frame>)
    requires !HasTrailer(fs)
    ensures UpToTrailer(fs) == fs
  {
    if fs != [] {
      NoTrailerKeepsAll(fs[1..]);
    }
  }

  /** A stream of any length round-trips if and only if each length comparison survives the truncation to 32 bits. */
  lemma {:induction false} RoundTripExactlyWhenSurviving(fs: seq<Frame>, accepts: Frame -> bool)
    requires Encodable(fs) && AcceptsAll(accepts, fs)
    ensures Decode(EncodeAll(fs), accepts) == Decoded(UpToTrailer(fs), Done) <==> AllSurvive(fs, 0)
  {
    if fs != [] {
      DecodeOne(fs[0], EncodeAll(fs[1..]), accepts);
      RoundTripExactlyWhenSurviving(fs[1..], accepts);
      var d := Decode(EncodeAll(fs[1..]), accepts);
      assert ([fs[0]] + d.frames)[1..] == d.frames && ([fs[0]] + UpToTrailer(fs[1..]))[1..] == UpToTrailer(fs[1..]);
    }
  }

  /** Where the round trip fails: a whole frame, when payload and further frames come to exactly 2^32 bytes. */
  lemma LongStreamIsRefused(f: Frame, rest: seq<Byte>, accepts: Frame -> bool)
    requires f.payload != [] && rest != [] && |f.payload| + |rest| == WORD && accepts(f)
    ensures Decode(Encode(f) + rest, accepts) == Decoded([], BadPayload)
  {
    OneWordTruncatesToNothing(f, |rest|);
    DecodeOne(f, rest, accepts);
  }

  lemma OneWordTruncatesToNothing(f: Frame, rest: nat)
    requires f.payload != [] && |f.payload| + rest == WORD
    ensures !Survives(f, rest)
  {
  }

  // ---- Every input ----

  lemma FirstIsEncoded(data: seq<Byte>)
    requires |data| >= 5 && Holds(data)
    ensures Encode(First(data)) + data[5 + Length(data)..] == data
  {
    var f := First(data);
    Uint32Inverts(0, data[1..5]);
    assert BigEndian(|f.payload|) == data[1..5];
    assert data == [data[0]] + data[1..5] + data[5..5 + Length(data)] + data[5 + Length(data)..];
  }

  /** The decoder stopped at a trailer. */
  predicate EndsInTrailer(fs: seq<Frame>) { fs != [] && fs[|fs| - 1].Trailer() }

  /**
   On every input, the frames handed on are the ones whose encoding the input starts with, only the last may be a
   trailer, and decoding succeeds if and only if all of them were accepted and they are the whole input or end in a
   trailer.
   */
  lemma {:induction false} DecodedIsAPrefix(data: seq<Byte>, accepts: Frame -> bool)
    ensures var d := Decode(data, accepts);
            && EncodeAll(d.frames) <= data
            && UpToTrailer(d.frames) == d.frames
            && (d.status == Done <==>
                  AcceptsAll(accepts, d.frames) && (EncodeAll(d.frames) == data || EndsInTrailer(d.frames)))
    decreases |data|
  {
    var d := Decode(data, accepts);
    if |data| >= 5 && Holds(data) {
      var f, rest := First(data), data[5 + Length(data)..];
      FirstIsEncoded(data);
      if accepts(f) && !f.Trailer() {
        DecodedIsAPrefix(rest, accepts);
        Longer(f, Decode(rest, accepts).frames, rest, accepts);
      } else {
        assert d.frames == [f] && d.frames[1..] == [];
      }
    }
  }

  lemma Longer(f: Frame, fs: seq<Frame>, rest: seq<Byte>, accepts: Frame -> bool)
    requires EncodeAll(fs) <= rest && accepts(f) && !f.Trailer()
    ensures EncodeAll([f] + fs) <= Encode(f) + rest
    ensures EncodeAll([f] + fs) == Encode(f) + rest <==> EncodeAll(fs) == rest
    ensures EndsInTrailer([f] + fs) <==> EndsInTrailer(fs)
    ensures AcceptsAll(accepts, [f] + fs) <==> AcceptsAll(accepts, fs)
    ensures UpToTrailer([f] + fs) == [f] + UpToTrailer(fs)
  {
    var all := [f] + fs;
    assert all[1..] == fs;
    assert EncodeAll(all) == Encode(f) + EncodeAll(fs);
    assert forall i | 0 <= i < |fs| :: all[i + 1] == fs[i];
    assert (Encode(f) + rest)[|Encode(f)|..] == rest && EncodeAll(all)[|Encode(f)|..] == EncodeAll(fs);
  }

  /** A stream cut strictly inside a frame before the trailer is rejected, after the whole frames were handed on. */
  lemma CutInsideAFrame(fs: seq<Frame>, f: Frame, k: nat, accepts: Frame -> bool)
    requires !HasTrailer(fs) && AcceptsAll(accepts, fs) && 0 < k < |Encode(f)|
    requires |EncodeAll(fs)| + |Encode(f)| < WORD
    ensures Decode(EncodeAll(fs) + Encode(f)[..k], accepts) == Decoded(fs, if k < 5 then BadHeader else BadPayload)
  {
    SmallStreamsSurvive(fs, k);
    DecodeOfEncoding(fs, Encode(f)[..k], accepts);
    CutFrame(f, k, accepts);
    assert fs + [] == fs;
  }

  lemma CutFrame(f: Frame, k: nat, accepts: Frame -> bool)
    requires 0 < k < |Encode(f)| < WORD
    ensures Decode(Encode(f)[..k], accepts) == Decoded([], if k < 5 then BadHeader else BadPayload)
  {
    var cut := Encode(f)[..k];
    if k >= 5 {
      HeaderBytes(f, []);
      assert Encode(f) + [] == Encode(f);
      assert cut[1..5] == Encode(f)[1..5];
      Uint32Inverts(|f.payload|, cut[1..5]);
      SmallMod(|f.payload|);
      SmallMod(k - 5);
    }
  }

  lemma SmallMod(n: nat)
    requires n < WORD
    ensures n % WORD == n
  {
  }

  // ---- Binary or base64 ----

  predicate Alphanumeric(c: int) {
    || 'A' as int <= c <= 'Z' as int
    || 'a' as int <= c <= 'z' as int
    || '0' as int <= c <= '9' as int
  }

  predicate IsBase64Header(header: seq<Byte>) { |header| >= 5 && Alphanumeric(header[0]) }

  /** The standard base64 alphabet. */
  function Letter(v: nat): (c: Byte)
    requires v < 64
    ensures Alphanumeric(c) <==> v < 62
  {
    if v < 26 then 'A' as int + v
    else if v < 52 then 'a' as int + (v - 26)
    else if v < 62 then '0' as int + (v - 52)
    else if v == 62 then '+' as int
    else '/' as int
  }

  /** Standard base64 with padding. */
  function Base64(s: seq<Byte>): (r: seq<Byte>)
    ensures 3 * |r| >= 4 * |s|
    ensures s != [] ==> r[0] == Letter(s[0] / 4)
  {
    var pad: Byte := '=' as int;
    if |s| == 0 then []
    else if |s| == 1 then [Letter(s[0] / 4), Letter(s[0] % 4 * 16), pad, pad]
    else if |s| == 2 then [Letter(s[0] / 4), Letter(s[0] % 4 * 16 + s[1] / 16), Letter(s[1] % 16 * 4), pad]
    else [Letter(s[0] / 4), Letter(s[0] % 4 * 16 + s[1] / 16), Letter(s[1] % 16 * 4 + s[2] / 64), Letter(s[2] % 64)]
         + Base64(s[3..])
  }

  /**
   A binary stream is taken for base64 exactly when its first flag byte is a letter or digit, and a base64 stream is
   recognised exactly when that byte is below 248; so the flags 0x00, 0x01, 0x80 and 0x81 are never misrouted.
   */
  lemma RoutingIsRightExactlyWhen(f: Frame, rest: seq<Byte>)
    ensures IsBase64Header(Encode(f) + rest)
            <==> 0x30 <= f.flags <= 0x39 || 0x41 <= f.flags <= 0x5A || 0x61 <= f.flags <= 0x7A
    ensures IsBase64Header(Base64(Encode(f) + rest)) <==> f.flags < 248
    ensures forall short: seq<Byte> | |short| < 5 :: !IsBase64Header(short)
    ensures f.flags in {0x00, 0x01, 0x80, 0x81} ==>
              !IsBase64Header(Encode(f) + rest) && IsBase64Header(Base64(Encode(f) + rest))
  {
    var data := Encode(f) + rest;
    assert |data| >= 5 && data[0] == f.flags;
  }

  /** The trailer mark is the high bit of the flags. */
  lemma TrailerIsTheHighBit(f: Frame)
    ensures f.Trailer() <==> (f.flags as bv8) & 0x80 != 0
  {
  }
}
