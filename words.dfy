/**
 * Fixed-width integers and the word stream that ns-3's TagBuffer reads and writes.
 * A tag's Serialize writes a sequence of words; Deserialize reads them back in the same order.
 */
module Words {

  const U32_LIMIT: int := 0x1_0000_0000
  const U32_MAX: int := 0xFFFF_FFFF

  type u8 = x: int | 0 <= x < 0x100
  type u32 = x: int | 0 <= x < 0x1_0000_0000

  /** One fixed-width item of a TagBuffer: WriteU8/ReadU8 or WriteU32/ReadU32. */
  datatype Word = W8(b: u8) | W32(w: u32)

  /** Width of a word in bytes, as counted by GetSerializedSize. */
  function WordSize(w: Word): (n: nat)
    ensures n == 1 || n == 4
    ensures n == 4 <==> w.W32?
  {
    match w
    case W8(_) => 1
    case W32(_) => 4
  }

  /** Number of bytes a word stream occupies in the tag buffer. */
  function ByteSize(ws: seq<Word>): nat
  {
    if ws == [] then 0 else WordSize(ws[0]) + ByteSize(ws[1..])
  }

  /** The size of a concatenation is the sum of the sizes of its parts. */
  lemma {:induction false} ByteSizeAppend(a: seq<Word>, b: seq<Word>)
    ensures ByteSize(a + b) == ByteSize(a) + ByteSize(b)
    decreases |a|
  {
    if a == [] {
      assert a + b == b;
    } else {
      assert (a + b)[1..] == a[1..] + b;
      ByteSizeAppend(a[1..], b);
    }
  }

  /** A stream made only of 32-bit words occupies four bytes per word. */
  lemma {:induction false} ByteSizeAll32(ws: seq<Word>)
    requires forall i :: 0 <= i < |ws| ==> ws[i].W32?
    ensures ByteSize(ws) == 4 * |ws|
    decreases |ws|
  {
    if ws != [] {
      ByteSizeAll32(ws[1..]);
    }
  }

  /** ReadU32: the next word must be a 32-bit word; the rest of the stream is returned. */
  function ReadU32(ws: seq<Word>): (r: (u32, seq<Word>))
    requires |ws| > 0 && ws[0].W32?
    ensures [W32(r.0)] + r.1 == ws
  {
    (ws[0].w, ws[1..])
  }

  /** ReadU8: the next word must be an 8-bit word. */
  function ReadU8(ws: seq<Word>): (r: (u8, seq<Word>))
    requires |ws| > 0 && ws[0].W8?
    ensures [W8(r.0)] + r.1 == ws
  {
    (ws[0].b, ws[1..])
  }
}
