/**
 * The XPath packet tag (src/internet/model/ipv4-xpath-tag.cc): one 32-bit path identifier,
 * written to the tag buffer as a single 32-bit word.
 */
module XPathTag {
  import opened Words

  class Ipv4XPathTag {
    var pathId: u32

    /** The source's default constructor leaves the path id unset; the model starts it at 0. */
    constructor ()
      ensures pathId == 0
    {
      pathId := 0;
    }

    method SetPathId(v: u32)
      modifies this
      ensures GetPathId() == v
    {
      pathId := v;
    }

    function GetPathId(): u32 reads this { pathId }

    /** sizeof(uint32_t): the size agrees with what Serialize writes. */
    function GetSerializedSize(): (n: nat)
      reads this
      ensures n == ByteSize(Serialize())
    {
      4
    }

    /** One 32-bit word; reading it back yields the path id. */
    function Serialize(): (ws: seq<Word>)
      reads this
      ensures |ws| == 1 && ws[0].W32? && ReadU32(ws) == (GetPathId(), [])
    {
      [W32(pathId)]
    }

    /** Reads the path id from the front of the stream and returns what is left. */
    method Deserialize(ws: seq<Word>) returns (rest: seq<Word>)
      requires |ws| > 0 && ws[0].W32?
      modifies this
      ensures (GetPathId(), rest) == ReadU32(ws)
    {
      pathId, rest := ws[0].w, ws[1..];
    }
  }
}
