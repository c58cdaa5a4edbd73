/**
 * The WAV serializer of the audio service: a 44-byte canonical PCM header of
 * the RIFF WAVE form (Multimedia Programming Interface and Data
 * Specifications 1.0) written through DataView setters, and the copy of a
 * decoded base64 string into a Uint8Array.
 */
module AudioService {
  import opened JsStrings
  import opened Wrappers
  import Base64

  newtype Byte = x: int | 0 <= x < 0x100

  const TWO16: int := 0x1_0000
  const TWO32: int := 0x1_0000_0000

  /** `setUint16(_, v, true)`: ToUint16 (wrap modulo 2^16), low byte first. */
  function LE16(v: int): (r: seq<Byte>)
    ensures |r| == 2
  {
    var u := v % TWO16;
    [(u % 0x100) as Byte, (u / 0x100) as Byte]
  }

  /** `setUint32(_, v, true)`: ToUint32 (wrap modulo 2^32), low byte first. */
  function LE32(v: int): (r: seq<Byte>)
    ensures |r| == 4
  {
    var u := v % TWO32;
    [(u % 0x100) as Byte, (u / 0x100 % 0x100) as Byte,
     (u / 0x1_0000 % 0x100) as Byte, (u / 0x100_0000) as Byte]
  }

  function ReadLE16(b: seq<Byte>): int
    requires |b| == 2
  {
    b[0] as int + 0x100 * b[1] as int
  }

  function ReadLE32(b: seq<Byte>): int
    requires |b| == 4
  {
    b[0] as int + 0x100 * b[1] as int + 0x1_0000 * b[2] as int + 0x100_0000 * b[3] as int
  }

  lemma ReadLE16OfLE16(v: int)
    ensures ReadLE16(LE16(v)) == v % TWO16
  {
    var u := v % TWO16;
    assert u == u / 0x100 * 0x100 + u % 0x100;
  }

  lemma ReadLE32OfLE32(v: int)
    ensures ReadLE32(LE32(v)) == v % TWO32
  {
    var u := v % TWO32;
    var q1 := u / 0x100;
    var q2 := q1 / 0x100;
    var q3 := q2 / 0x100;
    assert u == q1 * 0x100 + u % 0x100;
    assert q1 == q2 * 0x100 + q1 % 0x100;
    assert q2 == q3 * 0x100 + q2 % 0x100;
    assert u / 0x1_0000 == q2 && u / 0x100_0000 == q3;
  }

  /** `setUint8(_, charCodeAt(i))`: ToUint8 keeps the low byte of the code unit. */
  function LowByte(u: CodeUnit): Byte
  {
    (u % 0x100) as Byte
  }

  /** The bytes `writeString` stores for `s`. */
  function AsciiBytes(s: JsString): (r: seq<Byte>)
    ensures |r| == |s|
    ensures forall i :: 0 <= i < |s| ==> r[i] == LowByte(s[i])
  {
    seq(|s|, i requires 0 <= i < |s| => LowByte(s[i]))
  }

  const RIFF_TAG: seq<Byte> := [0x52, 0x49, 0x46, 0x46]  // "RIFF"
  const WAVE_TAG: seq<Byte> := [0x57, 0x41, 0x56, 0x45]  // "WAVE"
  const FMT_TAG: seq<Byte> := [0x66, 0x6D, 0x74, 0x20]   // "fmt "
  const DATA_TAG: seq<Byte> := [0x64, 0x61, 0x74, 0x61]  // "data"

  /** The 44 header bytes `pcmToWav` writes before `dataLen` bytes of samples. */
  function WavHeader(dataLen: int, sampleRate: int, numChannels: int): (h: seq<Byte>)
    ensures |h| == 44
    ensures h[0..4] == RIFF_TAG && h[8..12] == WAVE_TAG
    ensures h[12..16] == FMT_TAG && h[36..40] == DATA_TAG
    ensures h[4..8] == LE32(36 + dataLen) && h[40..44] == LE32(dataLen)
  {
    RIFF_TAG + LE32(36 + dataLen) + WAVE_TAG
    + FMT_TAG + LE32(16) + LE16(1) + LE16(numChannels) + LE32(sampleRate)
    + LE32(sampleRate * numChannels * 2) + LE16(numChannels * 2) + LE16(16)
    + DATA_TAG + LE32(dataLen)
  }

  /** The blob `pcmToWav` returns: the header followed by the samples unchanged. */
  function WavFile(pcm: seq<Byte>, sampleRate: int, numChannels: int): (r: seq<Byte>)
    ensures |r| == 44 + |pcm| && r[44..] == pcm
  {
    WavHeader(|pcm|, sampleRate, numChannels) + pcm
  }

  /** The header fields a WAV reader takes from a file. */
  datatype WavInfo = WavInfo(
    riffSize: int, fmtSize: int, audioFormat: int, numChannels: int, sampleRate: int,
    byteRate: int, blockAlign: int, bitsPerSample: int, dataSize: int, data: seq<Byte>)

  /** A reader of the canonical 44-byte header: checks the four tags and decodes the fields. */
  function ParseWav(b: seq<Byte>): Option<WavInfo>
  {
    if |b| < 44 || b[0..4] != RIFF_TAG || b[8..12] != WAVE_TAG
       || b[12..16] != FMT_TAG || b[36..40] != DATA_TAG then None
    else Some(WavInfo(
      ReadLE32(b[4..8]), ReadLE32(b[16..20]), ReadLE16(b[20..22]), ReadLE16(b[22..24]),
      ReadLE32(b[24..28]), ReadLE32(b[28..32]), ReadLE16(b[32..34]), ReadLE16(b[34..36]),
      ReadLE32(b[40..44]), b[44..]))
  }

  /**
   * Reading back what `pcmToWav` writes gives the fields it was asked for,
   * each wrapped to its field width: a PCM format (1) fmt chunk of 16 bytes,
   * 16 bits per sample whatever the input, and the samples unchanged.
   */
  lemma ParseWavFile(pcm: seq<Byte>, sampleRate: int, numChannels: int)
    ensures ParseWav(WavFile(pcm, sampleRate, numChannels)) == Some(WavInfo(
      (36 + |pcm|) % TWO32, 16, 1, numChannels % TWO16, sampleRate % TWO32,
      (sampleRate * numChannels * 2) % TWO32, (numChannels * 2) % TWO16, 16,
      |pcm| % TWO32, pcm))
  {
    var f := WavFile(pcm, sampleRate, numChannels);
    var h := WavHeader(|pcm|, sampleRate, numChannels);
    assert f[..44] == h;
    assert f[16..20] == LE32(16);
    assert f[20..22] == LE16(1);
    assert f[22..24] == LE16(numChannels);
    assert f[24..28] == LE32(sampleRate);
    assert f[28..32] == LE32(sampleRate * numChannels * 2);
    assert f[32..34] == LE16(numChannels * 2);
    assert f[34..36] == LE16(16);
    ReadLE32OfLE32(36 + |pcm|);
    ReadLE32OfLE32(16);
    ReadLE16OfLE16(1);
    ReadLE16OfLE16(numChannels);
    ReadLE32OfLE32(sampleRate);
    ReadLE32OfLE32(sampleRate * numChannels * 2);
    ReadLE16OfLE16(numChannels * 2);
    ReadLE16OfLE16(16);
    ReadLE32OfLE32(|pcm|);
  }

  /** `view.setUint8(offset + i, s.charCodeAt(i))` for every i: touches exactly those bytes. */
  method WriteString(view: array<Byte>, offset: nat, s: JsString)
    requires offset + |s| <= view.Length
    modifies view
    ensures view[..] == old(view[..offset]) + AsciiBytes(s) + old(view[offset + |s|..])
  {
    for i := 0 to |s|
      invariant forall k :: 0 <= k < view.Length ==>
        view[k] == if offset <= k < offset + i then LowByte(s[k - offset]) else old(view[k])
    {
      view[offset + i] := LowByte(s[i]);
    }
    assert view[..] == old(view[..offset]) + AsciiBytes(s) + old(view[offset + |s|..]);
  }

  /** `view.setUint16(offset, v, true)`. */
  method SetUint16(view: array<Byte>, offset: nat, v: int)
    requires offset + 2 <= view.Length
    modifies view
    ensures view[..] == old(view[..offset]) + LE16(v) + old(view[offset + 2..])
  {
    var b := LE16(v);
    view[offset] := b[0];
    view[offset + 1] := b[1];
    assert view[..] == old(view[..offset]) + LE16(v) + old(view[offset + 2..]);
  }

  /** `view.setUint32(offset, v, true)`. */
  method SetUint32(view: array<Byte>, offset: nat, v: int)
    requires offset + 4 <= view.Length
    modifies view
    ensures view[..] == old(view[..offset]) + LE32(v) + old(view[offset + 4..])
  {
    var b := LE32(v);
    view[offset] := b[0];
    view[offset + 1] := b[1];
    view[offset + 2] := b[2];
    view[offset + 3] := b[3];
    assert view[..] == old(view[..offset]) + LE32(v) + old(view[offset + 4..]);
  }

  /** The four tags are the code units of their ASCII names. */
  lemma TagBytes()
    ensures AsciiBytes(Lit("RIFF")) == RIFF_TAG && AsciiBytes(Lit("WAVE")) == WAVE_TAG
    ensures AsciiBytes(Lit("fmt ")) == FMT_TAG && AsciiBytes(Lit("data")) == DATA_TAG
  {
  }

  /** A write of `x` just after the filled prefix `p` extends the prefix. */
  lemma ExtendPrefix(cur: seq<Byte>, p: seq<Byte>, rest: seq<Byte>, x: seq<Byte>)
    requires |x| <= |rest| && cur == p + rest
    ensures cur[..|p|] + x + cur[|p| + |x|..] == (p + x) + rest[|x|..]
  {
    assert cur[..|p|] == p;
    assert cur[|p| + |x|..] == rest[|x|..];
  }

  /** The RIFF chunk descriptor: bytes 0..12 of the header. */
  method WriteRiffDescriptor(view: array<Byte>, totalDataLen: int)
    requires view.Length == 44
    modifies view
    ensures view[..] == RIFF_TAG + LE32(36 + totalDataLen) + WAVE_TAG + old(view[12..])
  {
    ghost var rest := view[..];
    TagBytes();
    ExtendPrefix(view[..], [], rest, RIFF_TAG);
    WriteString(view, 0, Lit("RIFF"));
    rest := rest[4..];
    ExtendPrefix(view[..], RIFF_TAG, rest, LE32(36 + totalDataLen));
    SetUint32(view, 4, 36 + totalDataLen);
    rest := rest[4..];
    ExtendPrefix(view[..], RIFF_TAG + LE32(36 + totalDataLen), rest, WAVE_TAG);
    WriteString(view, 8, Lit("WAVE"));
  }

  /** The fmt sub-chunk: bytes 12..36 of the header. */
  method WriteFmtChunk(view: array<Byte>, sampleRate: int, numChannels: int)
    requires view.Length == 44
    modifies view
    ensures view[..] == old(view[..12]) + FMT_TAG + LE32(16) + LE16(1) + LE16(numChannels)
      + LE32(sampleRate) + LE32(sampleRate * numChannels * 2) + LE16(numChannels * 2) + LE16(16)
      + old(view[36..])
  {
    ghost var rest := view[12..];
    ghost var p := view[..12];
    TagBytes();
    ExtendPrefix(view[..], p, rest, FMT_TAG);
    WriteString(view, 12, Lit("fmt "));
    p, rest := p + FMT_TAG, rest[4..];
    ExtendPrefix(view[..], p, rest, LE32(16));
    SetUint32(view, 16, 16);
    p, rest := p + LE32(16), rest[4..];
    ExtendPrefix(view[..], p, rest, LE16(1));
    SetUint16(view, 20, 1);
    p, rest := p + LE16(1), rest[2..];
    ExtendPrefix(view[..], p, rest, LE16(numChannels));
    SetUint16(view, 22, numChannels);
    p, rest := p + LE16(numChannels), rest[2..];
    ExtendPrefix(view[..], p, rest, LE32(sampleRate));
    SetUint32(view, 24, sampleRate);
    p, rest := p + LE32(sampleRate), rest[4..];
    ExtendPrefix(view[..], p, rest, LE32(sampleRate * numChannels * 2));
    SetUint32(view, 28, sampleRate * numChannels * 2);
    p, rest := p + LE32(sampleRate * numChannels * 2), rest[4..];
    ExtendPrefix(view[..], p, rest, LE16(numChannels * 2));
    SetUint16(view, 32, numChannels * 2);
    p, rest := p + LE16(numChannels * 2), rest[2..];
    ExtendPrefix(view[..], p, rest, LE16(16));
    SetUint16(view, 34, 16);
  }

  /** The data sub-chunk header: bytes 36..44. */
  method WriteDataHeader(view: array<Byte>, totalDataLen: int)
    requires view.Length == 44
    modifies view
    ensures view[..] == old(view[..36]) + DATA_TAG + LE32(totalDataLen)
  {
    ghost var rest := view[36..];
    ghost var p := view[..36];
    TagBytes();
    ExtendPrefix(view[..], p, rest, DATA_TAG);
    WriteString(view, 36, Lit("data"));
    p, rest := p + DATA_TAG, rest[4..];
    ExtendPrefix(view[..], p, rest, LE32(totalDataLen));
    SetUint32(view, 40, totalDataLen);
  }

  /** `pcmToWav`: fills a fresh 44-byte header and returns it followed by the samples. */
  method PcmToWav(pcm: seq<Byte>, sampleRate: int, numChannels: int) returns (blob: seq<Byte>)
    ensures blob == WavFile(pcm, sampleRate, numChannels)
  {
    var header := new Byte[44](_ => 0);
    var totalDataLen := |pcm|;
    WriteRiffDescriptor(header, totalDataLen);
    WriteFmtChunk(header, sampleRate, numChannels);
    WriteDataHeader(header, totalDataLen);
    blob := header[..] + pcm;
  }

  /** What a Uint8Array keeps of a binary string: the low byte of each code unit. */
  function BinaryToBytes(binary: JsString): (r: seq<Byte>)
    ensures |r| == |binary|
    ensures forall i :: 0 <= i < |binary| ==> r[i] as int == binary[i] as int % 0x100
  {
    seq(|binary|, i requires 0 <= i < |binary| => LowByte(binary[i]))
  }

  /**
   * `base64ToUint8Array`: `atob` (failing on malformed input, as the browser
   * throws), then one byte per code unit of the decoded string.
   */
  method Base64ToUint8Array(base64: JsString) returns (r: Option<seq<Byte>>)
    ensures Base64.Atob(base64).None? <==> r.None?
    ensures r.Some? ==> r.value == BinaryToBytes(Base64.Atob(base64).value)
  {
    var decoded := Base64.Atob(base64);
    if decoded.None? {
      return None;
    }
    var binaryString := decoded.value;
    var len := |binaryString|;
    var bytes := new Byte[len](_ => 0);
    for i := 0 to len
      invariant forall k :: 0 <= k < i ==> bytes[k] == LowByte(binaryString[k])
    {
      bytes[i] := LowByte(binaryString[i]);
    }
    r := Some(bytes[..]);
  }
}
