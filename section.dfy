/**
 * One positioned read of the uploaded payload into a freshly zeroed buffer
 * (main.go:76-80): `io.NewSectionReader(file, off, len).Read(buf)` with
 * `len(buf) == len` copies the bytes the payload has from `off` on, up to
 * `len` of them, and stops with `io.EOF` where the payload ends; the rest of
 * the buffer keeps the zeros `make` put there.
 */
module Section {
  import opened Common

  /** How many bytes the read copies. */
  function ReadCount(src: seq<byte>, off: nat, len: nat): (n: nat)
    ensures n <= len
    ensures off + n <= |src| || n == 0
    ensures n < len ==> off + n >= |src|
  {
    Min(len, Max(0, |src| - off))
  }

  /** The buffer after the read: the payload's bytes at off.., then zeros where it runs out. */
  function SectionBytes(src: seq<byte>, off: nat, len: nat): (b: seq<byte>)
    ensures |b| == len
    ensures forall j :: 0 <= j < len ==> b[j] == if off + j < |src| then src[off + j] else 0
  {
    var n := ReadCount(src, off, len);
    var lo := Min(off, |src|);
    src[lo..lo + n] + Zeros(len - n)
  }

  /** Two adjacent sections read the same bytes as one section spanning both. */
  lemma SectionBytesAppend(src: seq<byte>, off: nat, len1: nat, len2: nat)
    ensures SectionBytes(src, off, len1) + SectionBytes(src, off + len1, len2) == SectionBytes(src, off, len1 + len2)
  {
    var a, b, c := SectionBytes(src, off, len1), SectionBytes(src, off + len1, len2), SectionBytes(src, off, len1 + len2);
    forall j | 0 <= j < len1 + len2
      ensures (a + b)[j] == c[j]
    {
      if j >= len1 {
        assert (a + b)[j] == b[j - len1];
      }
    }
  }

  /**
   * A section starting at 0 is the payload itself when it is exactly as long,
   * its prefix when shorter, and the payload followed by zeros when longer.
   */
  lemma SectionFromStart(src: seq<byte>, len: nat)
    ensures len <= |src| ==> SectionBytes(src, 0, len) == src[..len]
    ensures len >= |src| ==> SectionBytes(src, 0, len) == src + Zeros(len - |src|)
  {
    var b := SectionBytes(src, 0, len);
    if len >= |src| {
      var z := src + Zeros(len - |src|);
      assert |b| == |z|;
      forall j | 0 <= j < len ensures b[j] == z[j] {
        if j >= |src| { assert z[j] == Zeros(len - |src|)[j - |src|]; }
      }
    }
  }
}
