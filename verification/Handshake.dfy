/** The accept value of the WebSocket opening handshake, section 4.2.2 of RFC 6455. */
module Handshake {
  import opened Bytes
  import Sha1
  import Base64
  import Sha1Vectors

  const GUID: seq<byte> := Ascii("258EAFA5-E914-47DA-95CA-C5AB0DC85B11")

  function Octets(s: seq<byte>): (o: seq<Sha1.octet>)
    ensures |o| == |s|
  {
    seq(|s|, i requires 0 <= i < |s| => s[i] as Sha1.octet)
  }

  function FromOctets(o: seq<Sha1.octet>): (s: seq<byte>)
    ensures |s| == |o|
  {
    seq(|o|, i requires 0 <= i < |o| => o[i] as int)
  }

  /** The base64-encoded SHA-1 of the key with the GUID appended. */
  function Accept(key: seq<byte>): (a: string) {
    Base64.Encode(FromOctets(Sha1.Digest(Octets(key + GUID))))
  }

  const BUFFER: nat := 256

  /** What `snprintf` leaves in `combined`: at most 255 bytes and the terminator. */
  function Combined(key: seq<byte>): (c: seq<byte>) {
    var all := key + GUID;
    if |all| < BUFFER then all else all[..BUFFER - 1]
  }

  /** The GUID is hashed whole exactly for keys of at most 219 bytes. */
  lemma KeyFits(key: seq<byte>)
    ensures Combined(key) == key + GUID <==> |key| <= 219
  {
    assert |GUID| == 36;
  }

  /** websocket_handshake: the value sent back for a key (a C string, so without zero bytes). */
  method AcceptKey(key: seq<byte>) returns (accept: string)
    ensures accept == Base64.Encode(FromOctets(Sha1.Digest(Octets(Combined(key)))))
    ensures |key| <= 219 ==> accept == Accept(key)
  {
    KeyFits(key);
    var combined := Combined(key);
    var digest := Sha1.Compute(Octets(combined));
    var input := new byte[20](i requires 0 <= i < 20 => digest[i] as int);
    assert input[..] == FromOctets(digest);
    var output := new char[32](_ => '\0');
    var n := Base64.EncodeInto(input, output);
    accept := output[..n];
  }

  /** 28 characters, exactly one pad, and the digest comes back from them. */
  lemma AcceptShape(key: seq<byte>)
    ensures |Accept(key)| == 28 && Base64.Count(Accept(key), '=') == 1
    ensures Base64.Decode(Accept(key)) == Some(FromOctets(Sha1.Digest(Octets(key + GUID))))
  {
    hide Sha1.Digest, Base64.Encode, Base64.Decode, FromOctets, Octets;
    var d := FromOctets(Sha1.Digest(Octets(key + GUID)));
    Base64.EncodedShape(d);
    Base64.DecodeEncode(d);
  }
  // ---------- the example of section 1.3 of RFC 6455 ----------

  const SAMPLE_KEY: seq<byte> := Ascii("dGhlIHNhbXBsZSBub25jZQ==")

  // The characters of key and GUID, cut where the words of the block begin.
  const TEXT0: seq<byte> := [100, 71, 104, 108, 73, 72, 78, 104, 98, 88, 66, 115, 90, 83, 66, 117]
  const TEXT1: seq<byte> := [98, 50, 53, 106, 90, 81, 61, 61]
  const TEXT2: seq<byte> := [50, 53, 56, 69, 65, 70, 65, 53]
  const TEXT3: seq<byte> := [45, 69, 57, 49, 52, 45, 52, 55, 68, 65, 45, 57, 53, 67, 65, 45]
  const TEXT4: seq<byte> := [67, 53, 65, 66, 48, 68, 67, 56, 53, 66, 49, 49]

  lemma KeyBytes()
    ensures SAMPLE_KEY == TEXT0 + TEXT1
  {
  }

  lemma GuidBytes()
    ensures GUID == TEXT2 + TEXT3 + TEXT4
  {
  }

  lemma Part0()
    ensures FromOctets(Sha1Vectors.Octs(Sha1Vectors.KEY0)) ==
      [100, 71, 104, 108, 73, 72, 78, 104, 98, 88, 66, 115, 90, 83, 66, 117]
  {
    assert Sha1.OctetsOf(0x6447686c) == [0x64, 0x47, 0x68, 0x6c];
    assert Sha1.OctetsOf(0x49484e68) == [0x49, 0x48, 0x4e, 0x68];
    assert Sha1.OctetsOf(0x62584273) == [0x62, 0x58, 0x42, 0x73];
    assert Sha1.OctetsOf(0x5a534275) == [0x5a, 0x53, 0x42, 0x75];
    hide Sha1.OctetsOf;
  }

  lemma Part1()
    ensures FromOctets(Sha1Vectors.Octs(Sha1Vectors.KEY1)) ==
      [98, 50, 53, 106, 90, 81, 61, 61, 50, 53, 56, 69, 65, 70, 65, 53]
  {
    assert Sha1.OctetsOf(0x6232356a) == [0x62, 0x32, 0x35, 0x6a];
    assert Sha1.OctetsOf(0x5a513d3d) == [0x5a, 0x51, 0x3d, 0x3d];
    assert Sha1.OctetsOf(0x32353845) == [0x32, 0x35, 0x38, 0x45];
    assert Sha1.OctetsOf(0x41464135) == [0x41, 0x46, 0x41, 0x35];
    hide Sha1.OctetsOf;
  }

  lemma Part2()
    ensures FromOctets(Sha1Vectors.Octs(Sha1Vectors.KEY2)) ==
      [45, 69, 57, 49, 52, 45, 52, 55, 68, 65, 45, 57, 53, 67, 65, 45]
  {
    assert Sha1.OctetsOf(0x2d453931) == [0x2d, 0x45, 0x39, 0x31];
    assert Sha1.OctetsOf(0x342d3437) == [0x34, 0x2d, 0x34, 0x37];
    assert Sha1.OctetsOf(0x44412d39) == [0x44, 0x41, 0x2d, 0x39];
    assert Sha1.OctetsOf(0x3543412d) == [0x35, 0x43, 0x41, 0x2d];
    hide Sha1.OctetsOf;
  }

  lemma Part3()
    ensures FromOctets(Sha1Vectors.Octs(Sha1Vectors.KEY3)) ==
      [67, 53, 65, 66, 48, 68, 67, 56, 53, 66, 49, 49, 128, 0, 0, 0]
  {
    assert Sha1.OctetsOf(0x43354142) == [0x43, 0x35, 0x41, 0x42];
    assert Sha1.OctetsOf(0x30444338) == [0x30, 0x44, 0x43, 0x38];
    assert Sha1.OctetsOf(0x35423131) == [0x35, 0x42, 0x31, 0x31];
    assert Sha1.OctetsOf(0x80000000) == [0x80, 0x00, 0x00, 0x00];
    hide Sha1.OctetsOf;
  }

  lemma ThereAndBack(o: seq<Sha1.octet>)
    ensures Octets(FromOctets(o)) == o
  {
  }

  lemma Joined(a: seq<Sha1.octet>, b: seq<Sha1.octet>)
    ensures FromOctets(a + b) == FromOctets(a) + FromOctets(b)
  {
  }

  lemma Parts()
    ensures FromOctets(Sha1Vectors.Octs(Sha1Vectors.KEY0)) == TEXT0
    ensures FromOctets(Sha1Vectors.Octs(Sha1Vectors.KEY1)) == TEXT1 + TEXT2
    ensures FromOctets(Sha1Vectors.Octs(Sha1Vectors.KEY2)) == TEXT3
    ensures FromOctets(Sha1Vectors.Octs(Sha1Vectors.KEY3))[..12] == TEXT4
  {
    hide FromOctets, Sha1Vectors.Octs;
    Part0();
    Part1();
    Part2();
    Part3();
    assert TEXT1 + TEXT2 == [98, 50, 53, 106, 90, 81, 61, 61, 50, 53, 56, 69, 65, 70, 65, 53];
    assert TEXT4 + [128, 0, 0, 0] == [67, 53, 65, 66, 48, 68, 67, 56, 53, 66, 49, 49, 128, 0, 0, 0];
    assert (TEXT4 + [128, 0, 0, 0])[..12] == TEXT4;
  }

  lemma InFour(a: seq<byte>, b: seq<byte>, c: seq<byte>, d: seq<byte>, e: seq<byte>)
    ensures a + b + (c + d + e) == a + (b + c) + d + e
  {
  }

  lemma SampleOctets()
    ensures Octets(SAMPLE_KEY + GUID) == Sha1Vectors.SAMPLE
  {
    hide Octets, FromOctets, Sha1Vectors.Octs;
    KeyBytes();
    GuidBytes();
    Parts();
    InFour(TEXT0, TEXT1, TEXT2, TEXT3, TEXT4);
    ThereAndBack(Sha1Vectors.SAMPLE);
    var a, b := Sha1Vectors.Octs(Sha1Vectors.KEY0), Sha1Vectors.Octs(Sha1Vectors.KEY1);
    var c, d := Sha1Vectors.Octs(Sha1Vectors.KEY2), Sha1Vectors.Octs(Sha1Vectors.KEY3);
    Joined(a, b);
    Joined(a + b, c);
    Joined(a + b + c, d[..12]);
    Cut(d, 12);
  }

  lemma Cut(o: seq<Sha1.octet>, n: nat)
    requires n <= |o|
    ensures FromOctets(o[..n]) == FromOctets(o)[..n]
  {
  }

  const SAMPLE_DIGEST: seq<byte> :=
    [179, 122, 79, 44, 192, 98, 79, 22, 144, 246, 70, 6, 207, 56, 89, 69, 178, 190, 196, 234]

  lemma OneGroup(a: byte, b: byte, c: byte, rest: seq<byte>)
    ensures Base64.Encode([a, b, c] + rest) == Base64.Quad(a, b, c) + Base64.Encode(rest)
  {
    Base64.EncodeGroup([a, b, c] + rest);
    hide Base64.Encode, Base64.Quad;
    assert ([a, b, c] + rest)[3..] == rest;
  }

  lemma FirstLetters()
    ensures Base64.Quad(179, 122, 79) == "s3pP" && Base64.Quad(44, 192, 98) == "LMBi"
  {
  }

  lemma NextLetters()
    ensures Base64.Quad(79, 22, 144) == "TxaQ" && Base64.Quad(246, 70, 6) == "9kYG"
  {
  }

  lemma LastLetters()
    ensures Base64.Quad(207, 56, 89) == "zzhZ" && Base64.Quad(69, 178, 190) == "RbK+"
    ensures Base64.Encode([196, 234]) == "xOo="
  {
  }

  lemma SecondHalf()
    ensures Base64.Encode([207, 56, 89, 69, 178, 190, 196, 234]) == "zzhZ" + ("RbK+" + "xOo=")
  {
    hide Base64.Encode, Base64.Quad;
    LastLetters();
    var r0: seq<byte> := [196, 234];
    var r1 := [69, 178, 190] + r0;
    OneGroup(69, 178, 190, r0);
    OneGroup(207, 56, 89, r1);
    assert [207, 56, 89, 69, 178, 190, 196, 234] == [207, 56, 89] + r1;
  }

  lemma FirstHalf(rest: seq<byte>)
    ensures Base64.Encode([179, 122, 79, 44, 192, 98, 79, 22, 144, 246, 70, 6] + rest)
      == "s3pP" + ("LMBi" + ("TxaQ" + ("9kYG" + Base64.Encode(rest))))
  {
    hide Base64.Encode, Base64.Quad;
    FirstLetters();
    NextLetters();
    var r1 := [246, 70, 6] + rest;
    var r2 := [79, 22, 144] + r1;
    var r3 := [44, 192, 98] + r2;
    OneGroup(246, 70, 6, rest);
    OneGroup(79, 22, 144, r1);
    OneGroup(44, 192, 98, r2);
    OneGroup(179, 122, 79, r3);
    assert [179, 122, 79, 44, 192, 98, 79, 22, 144, 246, 70, 6] + rest == [179, 122, 79] + r3;
  }

  lemma OneString()
    ensures "s3pP" + ("LMBi" + ("TxaQ" + ("9kYG" + ("zzhZ" + ("RbK+" + "xOo=")))))
      == "s3pPLMBiTxaQ9kYGzzhZRbK+xOo="
  {
  }

  lemma SampleEncoded()
    ensures Base64.Encode(SAMPLE_DIGEST) == "s3pPLMBiTxaQ9kYGzzhZRbK+xOo="
  {
    hide Base64.Encode;
    var rest: seq<byte> := [207, 56, 89, 69, 178, 190, 196, 234];
    FirstHalf(rest);
    SecondHalf();
    OneString();
    assert SAMPLE_DIGEST == [179, 122, 79, 44, 192, 98, 79, 22, 144, 246, 70, 6] + rest;
  }

  /** The server answers the sample key as the standard says a server must. */
  lemma SampleAccepted()
    ensures Accept(SAMPLE_KEY) == "s3pPLMBiTxaQ9kYGzzhZRbK+xOo="
  {
    hide Base64.Encode, Sha1.Digest, Octets;
    SampleOctets();
    Sha1Vectors.SampleDigest();
    SampleEncoded();
    assert FromOctets(Sha1.Digest(Sha1Vectors.SAMPLE)) == SAMPLE_DIGEST;
  }
}
