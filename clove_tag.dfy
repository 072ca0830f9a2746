/**
 * The CLOVE packet tag (src/clove/model/tcp-clove-tag.cc): the path a CLOVE edge picked,
 * written to the tag buffer as a single 32-bit word.
 */
module CloveTag {
  import opened Words

  class TcpCloveTag {
    var path: u32

    /** The source's default constructor leaves the path unset; the model starts it at 0. */
    constructor ()
      ensures path == 0
    {
      path := 0;
    }

    method SetPath(v: u32)
      modifies this
      ensures GetPath() == v
    {
      path := v;
    }

    function GetPath(): u32 reads this { path }

    /** sizeof(uint32_t): the size agrees with what Serialize writes. */
    function GetSerializedSize(): (n: nat)
      reads this
      ensures n == ByteSize(Serialize())
    {
      4
    }

    /** One 32-bit word; reading it back yields the path. */
    function Serialize(): (ws: seq<Word>)
      reads this
      ensures |ws| == 1 && ws[0].W32? && ReadU32(ws) == (GetPath(), [])
    {
      [W32(path)]
    }

    /** Reads the path from the front of the stream and returns what is left. */
    method Deserialize(ws: seq<Word>) returns (rest: seq<Word>)
      requires |ws| > 0 && ws[0].W32?
      modifies this
      ensures (GetPath(), rest) == ReadU32(ws)
    {
      path, rest := ws[0].w, ws[1..];
    }
  }
}
