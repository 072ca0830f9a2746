/**
 * The ECN packet tag (src/internet/model/ipv4-ecn-tag.cc): an IPv4 ECN codepoint kept in one
 * byte and written to the tag buffer as a single 8-bit word.
 */
module EcnTag {
  import opened Words
  import opened Wrappers

  /** Ipv4Header::EcnType: the four ECN codepoints of section 5 of RFC 3168. */
  datatype EcnType = NotEct | Ect1 | Ect0 | Ce

  /** The two-bit codepoint of each ECN value (Not-ECT 00, ECT(1) 01, ECT(0) 10, CE 11). */
  function Codepoint(e: EcnType): (b: u8)
    ensures b < 4
  {
    match e
    case NotEct => 0
    case Ect1 => 1
    case Ect0 => 2
    case Ce => 3
  }

  /** The ECN value a stored byte stands for; a byte above 3 names no codepoint. */
  function FromCodepoint(b: u8): (r: Option<EcnType>)
    ensures r.Some? <==> b < 4
    ensures r.Some? ==> Codepoint(r.value) == b
  {
    if b == 0 then Some(NotEct)
    else if b == 1 then Some(Ect1)
    else if b == 2 then Some(Ect0)
    else if b == 3 then Some(Ce)
    else None
  }

  /** Distinct ECN values have distinct codepoints, so the byte stored loses nothing. */
  lemma CodepointRoundTrip(e: EcnType)
    ensures FromCodepoint(Codepoint(e)) == Some(e)
  {
  }

  class Ipv4EcnTag {
    /** The source stores the enum in a uint8_t field. */
    var ecn: u8

    /** The source's default constructor leaves the byte unset; the model starts it at Not-ECT. */
    constructor ()
      ensures GetEcn() == Some(NotEct)
    {
      ecn := 0;
    }

    method SetEcn(e: EcnType)
      modifies this
      ensures GetEcn() == Some(e)
    {
      ecn := Codepoint(e);
      CodepointRoundTrip(e);
    }

    /** The enum cast of the stored byte; None when a deserialized byte is not a codepoint. */
    function GetEcn(): Option<EcnType>
      reads this
    {
      FromCodepoint(ecn)
    }

    /** sizeof(uint8_t): the size agrees with what Serialize writes. */
    function GetSerializedSize(): (n: nat)
      reads this
      ensures n == ByteSize(Serialize())
    {
      1
    }

    /** One 8-bit word; reading it back yields the stored byte. */
    function Serialize(): (ws: seq<Word>)
      reads this
      ensures |ws| == 1 && ws[0].W8? && ReadU8(ws) == (ecn, [])
    {
      [W8(ecn)]
    }

    /** Reads the byte from the front of the stream and returns what is left. */
    method Deserialize(ws: seq<Word>) returns (rest: seq<Word>)
      requires |ws| > 0 && ws[0].W8?
      modifies this
      ensures (ecn, rest) == ReadU8(ws)
      ensures GetEcn() == FromCodepoint(ws[0].b)
    {
      ecn, rest := ws[0].b, ws[1..];
    }
  }

  /** A tag set to e, serialized and read into a fresh tag, carries e again. */
  method EcnRoundTrip(e: EcnType) returns (copy: Ipv4EcnTag)
    ensures fresh(copy) && copy.GetEcn() == Some(e)
  {
    var t := new Ipv4EcnTag();
    t.SetEcn(e);
    var ws := t.Serialize();
    copy := new Ipv4EcnTag();
    var rest := copy.Deserialize(ws);
  }
}
