/**
 * The WAV container written around the raw speech samples: a 44-byte RIFF/WAVE header with a
 * single "fmt " chunk for 16-bit PCM (format tag 1) and a "data" chunk holding the untouched
 * samples, as laid out in Microsoft's RIFF WAVE format. The header is written through a
 * byte view with little-endian 16- and 32-bit stores, like a JavaScript `DataView`.
 */
module Wav {

  newtype byte = x: int | 0 <= x < 256

  const HeaderSize: nat := 44

  /** The conversion a `Uint8Array` store or `DataView.setUint8` applies: modulo 2^8. */
  function ToUint8(x: int): byte {
    (x % 0x100) as byte
  }

  /** The conversion `DataView.setUint16` applies to its value: modulo 2^16. */
  function ToUint16(x: int): nat {
    x % 0x1_0000
  }

  /** The conversion `DataView.setUint32` applies to its value: modulo 2^32. */
  function ToUint32(x: int): nat {
    x % 0x1_0000_0000
  }

  /** The bytes `charCodeAt` gives for each character of `s`, each stored modulo 2^8. */
  function CharCodes(s: string): (r: seq<byte>)
    ensures |r| == |s|
  {
    seq(|s|, i requires 0 <= i < |s| => ToUint8(s[i] as int))
  }

  /** The two bytes `setUint16(_, v, true)` stores, low byte first. */
  function LE16(v: int): (b: seq<byte>)
    ensures |b| == 2
  {
    var w := ToUint16(v);
    [(w % 0x100) as byte, (w / 0x100) as byte]
  }

  /** The four bytes `setUint32(_, v, true)` stores, low byte first. */
  function LE32(v: int): (b: seq<byte>)
    ensures |b| == 4
  {
    var w := ToUint32(v);
    [(w % 0x100) as byte, (w / 0x100 % 0x100) as byte, (w / 0x1_0000 % 0x100) as byte, (w / 0x100_0000) as byte]
  }

  /** Reads a little-endian unsigned 16-bit field (what `getUint16(at, true)` returns). */
  function ReadLE16(b: seq<byte>, at: nat): nat
    requires at + 2 <= |b|
  {
    b[at] as nat + 0x100 * b[at + 1] as nat
  }

  /** Reads a little-endian unsigned 32-bit field (what `getUint32(at, true)` returns). */
  function ReadLE32(b: seq<byte>, at: nat): nat
    requires at + 4 <= |b|
  {
    b[at] as nat + 0x100 * b[at + 1] as nat + 0x1_0000 * b[at + 2] as nat + 0x100_0000 * b[at + 3] as nat
  }

  /** Reading back a stored 16-bit field gives the value modulo 2^16. */
  lemma LE16RoundTrip(v: int)
    ensures ReadLE16(LE16(v), 0) == ToUint16(v)
  {
    var w := ToUint16(v);
    assert w == w % 0x100 + 0x100 * (w / 0x100);
  }

  /** Reading back a stored 32-bit field gives the value modulo 2^32. */
  lemma LE32RoundTrip(v: int)
    ensures ReadLE32(LE32(v), 0) == ToUint32(v)
  {
    var w := ToUint32(v);
    var q1, q2, q3 := w / 0x100, w / 0x1_0000, w / 0x100_0000;
    assert w == w % 0x100 + 0x100 * q1;
    assert q1 == q1 % 0x100 + 0x100 * q2;
    assert q2 == q2 % 0x100 + 0x100 * q3;
    assert q1 % 0x100 == w / 0x100 % 0x100;
  }

  /** The 44-byte header for `n` sample bytes, field by field in file order. */
  function WavHeader(n: nat, sampleRate: int, numChannels: int): (h: seq<byte>)
    ensures |h| == HeaderSize
  {
    CharCodes("RIFF") + LE32(36 + n) + CharCodes("WAVE")
    + CharCodes("fmt ") + LE32(16) + LE16(1) + LE16(numChannels) + LE32(sampleRate)
    + LE32(sampleRate * numChannels * 2) + LE16(numChannels * 2) + LE16(16)
    + CharCodes("data") + LE32(n)
  }

  /** The whole container: header, then the samples exactly as given. */
  function WavFile(samples: seq<byte>, sampleRate: int, numChannels: int): (r: seq<byte>)
    ensures |r| == HeaderSize + |samples| && r[HeaderSize..] == samples
  {
    WavHeader(|samples|, sampleRate, numChannels) + samples
  }

  /** The size fields and the payload: the container is the header followed by the samples. */
  lemma WavSizes(samples: seq<byte>, sampleRate: int, numChannels: int)
    ensures var w, n := WavFile(samples, sampleRate, numChannels), |samples|;
      && |w| == HeaderSize + n
      && ReadLE32(w, 4) == ToUint32(36 + n)
      && ReadLE32(w, 16) == 16
      && ReadLE32(w, 40) == ToUint32(n)
      && w[HeaderSize..] == samples
  {
    var w := WavFile(samples, sampleRate, numChannels);
    WavPieces(samples, sampleRate, numChannels);
    FieldAt32(w, 4, 36 + |samples|);
    FieldAt32(w, 16, 16);
    FieldAt32(w, 40, |samples|);
  }

  /** The four chunk markers, as the character codes of "RIFF", "WAVE", "fmt " and "data". */
  lemma WavMarkers(samples: seq<byte>, sampleRate: int, numChannels: int)
    ensures var w := WavFile(samples, sampleRate, numChannels);
      && w[0..4] == [0x52, 0x49, 0x46, 0x46]
      && w[8..12] == [0x57, 0x41, 0x56, 0x45]
      && w[12..16] == [0x66, 0x6D, 0x74, 0x20]
      && w[36..40] == [0x64, 0x61, 0x74, 0x61]
  {
    WavPieces(samples, sampleRate, numChannels);
    MarkerCodes();
  }

  /** The "fmt " chunk: PCM tag 1, channel count, rate, byte rate, block align, 16 bits per sample. */
  lemma WavFormat(samples: seq<byte>, sampleRate: int, numChannels: int)
    ensures var w := WavFile(samples, sampleRate, numChannels);
      && ReadLE16(w, 20) == 1
      && ReadLE16(w, 22) == ToUint16(numChannels)
      && ReadLE32(w, 24) == ToUint32(sampleRate)
      && ReadLE32(w, 28) == ToUint32(sampleRate * numChannels * 2)
      && ReadLE16(w, 32) == ToUint16(numChannels * 2)
      && ReadLE16(w, 34) == 16
  {
    var w := WavFile(samples, sampleRate, numChannels);
    WavPieces(samples, sampleRate, numChannels);
    FieldAt16(w, 20, 1);
    FieldAt16(w, 22, numChannels);
    FieldAt32(w, 24, sampleRate);
    FieldAt32(w, 28, sampleRate * numChannels * 2);
    FieldAt16(w, 32, numChannels * 2);
    FieldAt16(w, 34, 16);
  }

  /** The container cut at the field boundaries gives back the pieces it was built from. */
  lemma WavPieces(samples: seq<byte>, sampleRate: int, numChannels: int)
    ensures var w, n := WavFile(samples, sampleRate, numChannels), |samples|;
      && |w| == HeaderSize + n
      && w[0..4] == CharCodes("RIFF") && w[4..8] == LE32(36 + n)
      && w[8..12] == CharCodes("WAVE") && w[12..16] == CharCodes("fmt ")
      && w[16..20] == LE32(16) && w[20..22] == LE16(1) && w[22..24] == LE16(numChannels)
      && w[24..28] == LE32(sampleRate) && w[28..32] == LE32(sampleRate * numChannels * 2)
      && w[32..34] == LE16(numChannels * 2) && w[34..36] == LE16(16)
      && w[36..40] == CharCodes("data") && w[40..44] == LE32(n)
      && w[HeaderSize..] == samples
  {
    var n := |samples|;
    var w := WavFile(samples, sampleRate, numChannels);
    var p1 := CharCodes("RIFF");
    var p2 := p1 + LE32(36 + n);
    var p3 := p2 + CharCodes("WAVE");
    var p4 := p3 + CharCodes("fmt ");
    var p5 := p4 + LE32(16);
    var p6 := p5 + LE16(1);
    var p7 := p6 + LE16(numChannels);
    var p8 := p7 + LE32(sampleRate);
    var p9 := p8 + LE32(sampleRate * numChannels * 2);
    var p10 := p9 + LE16(numChannels * 2);
    var p11 := p10 + LE16(16);
    var p12 := p11 + CharCodes("data");
    var p13 := p12 + LE32(n);
    assert w == p13 + samples;
    assert w[..HeaderSize] == p13 && w[HeaderSize..] == samples;
    Split(w, p12, LE32(n));
    Split(w, p11, CharCodes("data"));
    Split(w, p10, LE16(16));
    Split(w, p9, LE16(numChannels * 2));
    Split(w, p8, LE32(sampleRate * numChannels * 2));
    Split(w, p7, LE32(sampleRate));
    Split(w, p6, LE16(numChannels));
    Split(w, p5, LE16(1));
    Split(w, p4, LE32(16));
    Split(w, p3, CharCodes("fmt "));
    Split(w, p2, CharCodes("WAVE"));
    Split(w, p1, LE32(36 + n));
  }

  /** The character codes of the four chunk markers. */
  lemma MarkerCodes()
    ensures CharCodes("RIFF") == [0x52, 0x49, 0x46, 0x46]
    ensures CharCodes("WAVE") == [0x57, 0x41, 0x56, 0x45]
    ensures CharCodes("fmt ") == [0x66, 0x6D, 0x74, 0x20]
    ensures CharCodes("data") == [0x64, 0x61, 0x74, 0x61]
  {
  }

  /** A prefix `q + x` of `w` splits into a shorter prefix `q` and the field `x` right after it. */
  lemma Split(w: seq<byte>, q: seq<byte>, x: seq<byte>)
    requires |q| + |x| <= |w| && w[..|q| + |x|] == q + x
    ensures w[..|q|] == q && w[|q|..|q| + |x|] == x
  {
    assert w[..|q|] == (q + x)[..|q|];
    assert w[|q|..|q| + |x|] == (q + x)[|q|..];
  }

  lemma FieldAt32(w: seq<byte>, at: nat, v: int)
    requires at + 4 <= |w| && w[at..at + 4] == LE32(v)
    ensures ReadLE32(w, at) == ToUint32(v)
  {
    LE32RoundTrip(v);
    assert w[at] == LE32(v)[0] && w[at + 1] == LE32(v)[1] && w[at + 2] == LE32(v)[2] && w[at + 3] == LE32(v)[3];
  }

  lemma FieldAt16(w: seq<byte>, at: nat, v: int)
    requires at + 2 <= |w| && w[at..at + 2] == LE16(v)
    ensures ReadLE16(w, at) == ToUint16(v)
  {
    LE16RoundTrip(v);
    assert w[at] == LE16(v)[0] && w[at + 1] == LE16(v)[1];
  }

  /** No samples: a bare 44-byte header whose RIFF size is 36 and whose data size is 0. */
  lemma EmptyWavExample()
    ensures var w := WavFile([], 24000, 1);
      |w| == 44 && ReadLE32(w, 4) == 36 && ReadLE32(w, 40) == 0
  {
    WavSizes([], 24000, 1);
  }

  /** One second of 24 kHz mono speech: 48000 sample bytes, a 48044-byte file, byte rate 48000. */
  lemma OneSecondWavExample(samples: seq<byte>)
    requires |samples| == 48000
    ensures var w := WavFile(samples, 24000, 1);
      |w| == 48044 && ReadLE32(w, 28) == 48000 && ReadLE32(w, 40) == 48000
  {
    WavSizes(samples, 24000, 1);
    WavFormat(samples, 24000, 1);
  }

  /** `writeString`: stores the character code of each character of `s` from `offset` on. */
  method WriteString(view: array<byte>, offset: nat, s: string)
    requires offset + |s| <= view.Length
    modifies view
    ensures view[..offset + |s|] == old(view[..offset]) + CharCodes(s)
    ensures view[offset + |s|..] == old(view[offset + |s|..])
  {
    for i := 0 to |s|
      invariant view[..offset] == old(view[..offset])
      invariant forall k :: 0 <= k < i ==> view[offset + k] == ToUint8(s[k] as int)
      invariant view[offset + i..] == old(view[offset + i..])
    {
      view[offset + i] := ToUint8(s[i] as int);
      assert view[offset + i + 1..] == old(view[offset + i..])[1..];
    }
    assert view[..offset + |s|] == view[..offset] + view[offset..offset + |s|];
  }

  /** `DataView.setUint32(offset, value, true)`. */
  method SetUint32(view: array<byte>, offset: nat, value: int)
    requires offset + 4 <= view.Length
    modifies view
    ensures view[..offset + 4] == old(view[..offset]) + LE32(value)
    ensures view[offset + 4..] == old(view[offset + 4..])
  {
    var b := LE32(value);
    view[offset], view[offset + 1], view[offset + 2], view[offset + 3] := b[0], b[1], b[2], b[3];
    assert view[..offset + 4] == view[..offset] + view[offset..offset + 4];
  }

  /** `DataView.setUint16(offset, value, true)`. */
  method SetUint16(view: array<byte>, offset: nat, value: int)
    requires offset + 2 <= view.Length
    modifies view
    ensures view[..offset + 2] == old(view[..offset]) + LE16(value)
    ensures view[offset + 2..] == old(view[offset + 2..])
  {
    var b := LE16(value);
    view[offset], view[offset + 1] := b[0], b[1];
    assert view[..offset + 2] == view[..offset] + view[offset..offset + 2];
  }

  /** Bytes 0-11 of the header: "RIFF", the RIFF chunk size 36 + n, "WAVE". */
  method WriteRiffDescriptor(view: array<byte>, n: nat)
    requires HeaderSize <= view.Length
    modifies view
    ensures view[..12] == CharCodes("RIFF") + LE32(36 + n) + CharCodes("WAVE")
    ensures view[12..] == old(view[12..])
  {
    WriteString(view, 0, "RIFF");
    assert view[..4] == CharCodes("RIFF");
    SetUint32(view, 4, 36 + n);
    assert view[..8] == CharCodes("RIFF") + LE32(36 + n);
    WriteString(view, 8, "WAVE");
  }

  /** Bytes 12-35 of the header: the "fmt " chunk of 16 bytes describing 16-bit PCM. */
  method WriteFormatChunk(view: array<byte>, sampleRate: int, numChannels: int)
    requires HeaderSize <= view.Length
    modifies view
    ensures view[..36] == old(view[..12]) + CharCodes("fmt ") + LE32(16) + LE16(1) + LE16(numChannels)
      + LE32(sampleRate) + LE32(sampleRate * numChannels * 2) + LE16(numChannels * 2) + LE16(16)
    ensures view[36..] == old(view[36..])
  {
    ghost var written := old(view[..12]);
    ghost var tail := old(view[36..]);
    WriteString(view, 12, "fmt ");
    assert view[36..] == tail;
    written := written + CharCodes("fmt ");
    assert view[..16] == written;
    SetUint32(view, 16, 16);
    assert view[36..] == tail;
    written := written + LE32(16);
    assert view[..20] == written;
    SetUint16(view, 20, 1);
    assert view[36..] == tail;
    written := written + LE16(1);
    assert view[..22] == written;
    SetUint16(view, 22, numChannels);
    assert view[36..] == tail;
    written := written + LE16(numChannels);
    assert view[..24] == written;
    SetUint32(view, 24, sampleRate);
    assert view[36..] == tail;
    written := written + LE32(sampleRate);
    assert view[..28] == written;
    SetUint32(view, 28, sampleRate * numChannels * 2);
    assert view[36..] == tail;
    written := written + LE32(sampleRate * numChannels * 2);
    assert view[..32] == written;
    SetUint16(view, 32, numChannels * 2);
    assert view[36..] == tail;
    written := written + LE16(numChannels * 2);
    assert view[..34] == written;
    SetUint16(view, 34, 16);
    assert view[36..] == tail;
  }

  /** Bytes 36-43 of the header: "data" and the data chunk size n. */
  method WriteDataChunkHeader(view: array<byte>, n: nat)
    requires HeaderSize <= view.Length
    modifies view
    ensures view[..HeaderSize] == old(view[..36]) + CharCodes("data") + LE32(n)
    ensures view[HeaderSize..] == old(view[HeaderSize..])
  {
    WriteString(view, 36, "data");
    assert view[..40] == old(view[..36]) + CharCodes("data");
    SetUint32(view, 40, n);
  }

  /** The header stores of `addWavHeader`, in the order the source makes them. */
  method WriteWavHeader(view: array<byte>, n: nat, sampleRate: int, numChannels: int)
    requires HeaderSize <= view.Length
    modifies view
    ensures view[..HeaderSize] == WavHeader(n, sampleRate, numChannels)
    ensures view[HeaderSize..] == old(view[HeaderSize..])
  {
    WriteRiffDescriptor(view, n);
    WriteFormatChunk(view, sampleRate, numChannels);
    WriteDataChunkHeader(view, n);
  }

  /** `addWavHeader`: a new buffer holding the header for `samples` followed by the samples. */
  method AddWavHeader(samples: array<byte>, sampleRate: int, numChannels: int) returns (buffer: array<byte>)
    ensures fresh(buffer)
    ensures buffer[..] == WavFile(samples[..], sampleRate, numChannels)
  {
    var n := samples.Length;
    buffer := new byte[HeaderSize + n];
    WriteWavHeader(buffer, n, sampleRate, numChannels);
    ghost var header := WavHeader(n, sampleRate, numChannels);
    // the samples go in after the header, as `new Uint8Array(buffer, 44).set(samples)` does
    for i := 0 to n
      invariant buffer[..HeaderSize] == header
      invariant forall k :: 0 <= k < i ==> buffer[HeaderSize + k] == samples[k]
    {
      buffer[HeaderSize + i] := samples[i];
    }
    assert buffer[..] == buffer[..HeaderSize] + buffer[HeaderSize..];
    assert buffer[HeaderSize..] == samples[..];
  }

  /** `decodeBase64` after `atob`: one byte per character of the binary string, its code modulo 2^8. */
  method DecodeBase64(binary: string) returns (bytes: array<byte>)
    ensures fresh(bytes)
    ensures bytes[..] == CharCodes(binary)
  {
    var len := |binary|;
    bytes := new byte[len];
    for i := 0 to len
      invariant forall k :: 0 <= k < i ==> bytes[k] == ToUint8(binary[k] as int)
    {
      bytes[i] := ToUint8(binary[i] as int);
    }
  }

  /** A "binary string" as `atob` returns it: every character is a code below 256. */
  predicate IsBinaryString(s: string) {
    forall i :: 0 <= i < |s| ==> s[i] as int < 0x100
  }

  /** The binary string whose character codes are the given bytes. */
  function BinaryString(bytes: seq<byte>): (s: string)
    ensures |s| == |bytes| && IsBinaryString(s)
  {
    seq(|bytes|, i requires 0 <= i < |bytes| => (bytes[i] as int) as char)
  }

  /** On binary strings the byte conversion loses nothing, in both directions. */
  lemma BinaryStringRoundTrip(s: string, bytes: seq<byte>)
    ensures IsBinaryString(s) ==> BinaryString(CharCodes(s)) == s
    ensures CharCodes(BinaryString(bytes)) == bytes
  {
    if IsBinaryString(s) {
      var t := BinaryString(CharCodes(s));
      forall i | 0 <= i < |s| ensures t[i] == s[i] {
        assert (s[i] as int) % 0x100 == s[i] as int;
      }
    }
  }
}
