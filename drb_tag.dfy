/**
 * The DRB packet tag (src/internet/model/ipv4-drb-tag.cc): the original destination address,
 * written to the tag buffer as the address's 32-bit value (Ipv4Address::Get).
 */
module DrbTag {
  import opened Words

  class Ipv4DrbTag {
    /** An Ipv4Address is represented by its 32-bit host-order value. */
    var addr: u32

    /** A default-constructed Ipv4Address holds 0x66666666 (102.102.102.102), ns-3's marker for an unset address. */
    constructor ()
      ensures GetOriginalDestAddr() == 0x6666_6666
    {
      addr := 0x6666_6666;
    }

    method SetOriginalDestAddr(a: u32)
      modifies this
      ensures GetOriginalDestAddr() == a
    {
      addr := a;
    }

    function GetOriginalDestAddr(): u32 reads this { addr }

    /** sizeof(uint32_t): the size agrees with what Serialize writes. */
    function GetSerializedSize(): (n: nat)
      reads this
      ensures n == ByteSize(Serialize())
    {
      4
    }

    /** One 32-bit word; reading it back yields the address. */
    function Serialize(): (ws: seq<Word>)
      reads this
      ensures |ws| == 1 && ws[0].W32? && ReadU32(ws) == (GetOriginalDestAddr(), [])
    {
      [W32(addr)]
    }

    /** Reads the address from the front of the stream and returns what is left. */
    method Deserialize(ws: seq<Word>) returns (rest: seq<Word>)
      requires |ws| > 0 && ws[0].W32?
      modifies this
      ensures (GetOriginalDestAddr(), rest) == ReadU32(ws)
    {
      addr, rest := ws[0].w, ws[1..];
    }
  }
}
