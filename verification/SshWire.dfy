/**
 SSH strings on the wire (section 5 of RFC 4251): four bytes of length, most
 significant first, then the bytes themselves. The writer casts the length to
 32 bits, so it wraps for longer strings.
 */
module SshWire {
  import opened Options

  newtype Byte = x: int | 0 <= x < 256

  type WireBytes = seq<Byte>

  const WORD: nat := 0x1_0000_0000

  function BigEndian(n: nat): (r: WireBytes)
    requires n < WORD
    ensures |r| == 4
  {
    [(n / 0x100_0000) as Byte, (n / 0x1_0000 % 256) as Byte, (n / 256 % 256) as Byte, (n % 256) as Byte]
  }

  function Frame(value: WireBytes): (r: WireBytes)
    ensures |r| == 4 + |value|
  {
    BigEndian(|value| % WORD) + value
  }

  function Frames(values: seq<WireBytes>): WireBytes {
    if values == [] then [] else Frame(values[0]) + Frames(values[1..])
  }

  /** The bytes being built, which every append extends in place. */
  class Buffer {
    var bytes: WireBytes

    constructor ()
      ensures bytes == []
    {
      bytes := [];
    }

    method AppendSshString(value: WireBytes)
      modifies this
      ensures bytes == old(bytes) + Frame(value)
    {
      bytes := bytes + BigEndian(|value| % WORD);
      bytes := bytes + value;
    }
  }

  const ALGORITHM: WireBytes := [115, 115, 104, 45, 101, 100, 50, 53, 53, 49, 57]

  /** The bytes of a text without characters beyond the seventh bit. */
  function Ascii(text: string): WireBytes
    requires forall i :: 0 <= i < |text| ==> text[i] < 128 as char
  {
    seq(|text|, i requires 0 <= i < |text| => text[i] as int as Byte)
  }

  lemma AlgorithmIsNamed()
    ensures ALGORITHM == Ascii("ssh-ed25519")
  {
  }

  /** The blob of an Ed25519 public key (section 4 of RFC 8709), before it is put in base 64. */
  method PublicKeyBlob(key: WireBytes) returns (blob: WireBytes)
    requires |key| == 32
    ensures blob == [0, 0, 0, 11] + Ascii("ssh-ed25519") + [0, 0, 0, 32] + key
    ensures Read(blob) == Some([Ascii("ssh-ed25519"), key])
  {
    hide Read, Frame, Ascii;
    AlgorithmIsNamed();
    var buffer := new Buffer();
    buffer.AppendSshString(ALGORITHM);
    buffer.AppendSshString(key);
    blob := buffer.bytes;
    assert blob == Frame(ALGORITHM) + Frame(key);
    BlobIsRead(ALGORITHM, key);
    ShortFrame(ALGORITHM);
    ShortFrame(key);
  }

  /** A short string has its length in one byte, behind three zeros. */
  lemma ShortFrame(value: WireBytes)
    requires |value| < 256
    ensures Frame(value) == [0, 0, 0, |value| as Byte] + value
  {
  }

  lemma BlobIsRead(a: WireBytes, b: WireBytes)
    requires |a| < WORD && |b| < WORD
    ensures Read(Frame(a) + Frame(b)) == Some([a, b])
  {
    hide Read, Frame;
    var values := [a, b];
    assert values[1..] == [b] && [b][1..] == [];
    assert Frames([b]) == Frame(b) + [] == Frame(b);
    assert Frames(values) == Frame(a) + Frame(b);
    ReadInvertsFrames(values);
  }

  // ------------------------------------------------------------------ reader

  function LengthOf(s: WireBytes): nat
    requires |s| >= 4
  {
    s[0] as nat * 0x100_0000 + s[1] as nat * 0x1_0000 + s[2] as nat * 256 + s[3] as nat
  }

  /** The strings that make up the bytes, or nothing if the last one is cut short. */
  function Read(s: WireBytes): Option<seq<WireBytes>>
    decreases |s|
  {
    if s == [] then Some([])
    else if |s| < 4 || |s| < 4 + LengthOf(s) then None
    else
      var length := LengthOf(s);
      var rest := Read(s[4 + length..]);
      if rest.None? then None else Some([s[4..4 + length]] + rest.value)
  }

  lemma Digits(n: nat)
    requires n < WORD
    ensures LengthOf(BigEndian(n)) == n
  {
    Base256(n);
  }

  lemma Base256(n: nat)
    ensures n == n / 0x100_0000 * 0x100_0000 + n / 0x1_0000 % 256 * 0x1_0000 + n / 256 % 256 * 256 + n % 256
  {
    assert n / 0x1_0000 == n / 256 / 256 && n / 0x100_0000 == n / 0x1_0000 / 256;
  }

  lemma FrameLength(value: WireBytes, rest: WireBytes)
    ensures LengthOf(Frame(value) + rest) == |value| % WORD
  {
    var s := Frame(value) + rest;
    var header := BigEndian(|value| % WORD);
    Digits(|value| % WORD);
    hide BigEndian;
    assert s == header + (value + rest);
    assert LengthOf(s) == LengthOf(header);
  }

  /** Reading one frame and whatever follows it. */
  lemma ReadFrame(value: WireBytes, rest: WireBytes)
    requires |value| < WORD
    ensures Read(Frame(value) + rest) == if Read(rest).None? then None else Some([value] + Read(rest).value)
  {
    hide BigEndian, LengthOf;
    var s := Frame(value) + rest;
    FrameLength(value, rest);
    assert s[4..4 + |value|] == value && s[4 + |value|..] == rest;
  }

  /** The wrapped length of a long string cuts it short. */
  lemma ReadLongFrame(value: WireBytes, rest: WireBytes)
    requires |value| >= WORD
    ensures var r := Read(Frame(value) + rest); r.Some? ==> r.value != [] && r.value[0] != value
  {
    hide BigEndian, LengthOf;
    FrameLength(value, rest);
  }

  /**
   A list of strings is read back from its frames exactly when each of them is
   short enough for its length to fit in 32 bits.
   */
  lemma {:induction false} ReadInvertsFrames(values: seq<WireBytes>)
    ensures Read(Frames(values)) == Some(values) <==> forall i :: 0 <= i < |values| ==> |values[i]| < 0x1_0000_0000
  {
    hide Read, Frame;
    if values == [] {
      NothingToRead();
    } else {
      var first, rest := values[0], values[1..];
      if |first| < WORD {
        ReadFrame(first, Frames(rest));
      } else {
        ReadLongFrame(first, Frames(rest));
      }
      ReadInvertsFrames(rest);
      assert values == [first] + rest;
      assert forall i :: 0 <= i < |rest| ==> rest[i] == values[i + 1];
    }
  }

  lemma NothingToRead()
    ensures Read([]) == Some([])
  {
  }

  /** Frames of short strings are written by one list only. */
  lemma FramesAreInjective(a: seq<WireBytes>, b: seq<WireBytes>)
    requires forall i :: 0 <= i < |a| ==> |a[i]| < 0x1_0000_0000
    requires forall i :: 0 <= i < |b| ==> |b[i]| < 0x1_0000_0000
    ensures Frames(a) == Frames(b) ==> a == b
  {
    ReadInvertsFrames(a);
    ReadInvertsFrames(b);
  }
}
