/**
 * The CONGA packet tag (src/internet/model/ipv4-conga-tag.cc): four 32-bit fields carried
 * from the source leaf to the destination leaf. The tag is written to a TagBuffer as four
 * 32-bit words in the order lbTag, ce, fbLbTag, fbMetric.
 */
module CongaTag {
  import opened Words

  /** The value carried by an Ipv4CongaTag. */
  datatype CongaHeader = CongaHeader(lbTag: u32, ce: u32, fbLbTag: u32, fbMetric: u32)

  /** The words Serialize writes, in order. */
  function Encode(h: CongaHeader): (ws: seq<Word>)
    ensures |ws| == 4 && forall i :: 0 <= i < 4 ==> ws[i].W32?
    ensures ByteSize(ws) == 16
  {
    var ws := [W32(h.lbTag), W32(h.ce), W32(h.fbLbTag), W32(h.fbMetric)];
    ByteSizeAll32(ws);
    ws
  }

  /** True when the stream starts with the four 32-bit words Deserialize reads. */
  predicate HasHeader(ws: seq<Word>)
  {
    |ws| >= 4 && ws[0].W32? && ws[1].W32? && ws[2].W32? && ws[3].W32?
  }

  /** What Deserialize reads: four words in the order Serialize wrote them, and the rest. */
  function Decode(ws: seq<Word>): (r: (CongaHeader, seq<Word>))
    requires HasHeader(ws)
    ensures Encode(r.0) + r.1 == ws
  {
    var (lb, ws1) := ReadU32(ws);
    var (ce, ws2) := ReadU32(ws1);
    var (fbLb, ws3) := ReadU32(ws2);
    var (fbMetric, ws4) := ReadU32(ws3);
    (CongaHeader(lb, ce, fbLb, fbMetric), ws4)
  }

  /** Deserialize after Serialize restores all four fields and consumes exactly their words. */
  lemma DecodeEncode(h: CongaHeader, rest: seq<Word>)
    ensures HasHeader(Encode(h) + rest)
    ensures Decode(Encode(h) + rest) == (h, rest)
  {
    var r := Decode(Encode(h) + rest);
    assert Encode(r.0) + r.1 == Encode(h) + rest;
    assert Encode(r.0) == (Encode(h) + rest)[..4] == Encode(h);
  }

  /** The tag object whose setters and Deserialize assign its fields. */
  class Ipv4CongaTag {
    var lbTag: u32
    var ce: u32
    var fbLbTag: u32
    var fbMetric: u32

    /** The source's default constructor leaves the fields unset; the model starts them at 0. */
    constructor ()
      ensures Value() == CongaHeader(0, 0, 0, 0)
    {
      lbTag, ce, fbLbTag, fbMetric := 0, 0, 0, 0;
    }

    function Value(): CongaHeader
      reads this
    {
      CongaHeader(lbTag, ce, fbLbTag, fbMetric)
    }

    method SetLbTag(v: u32)
      modifies this
      ensures Value() == old(Value()).(lbTag := v)
    {
      lbTag := v;
    }

    method SetCe(v: u32)
      modifies this
      ensures Value() == old(Value()).(ce := v)
    {
      ce := v;
    }

    method SetFbLbTag(v: u32)
      modifies this
      ensures Value() == old(Value()).(fbLbTag := v)
    {
      fbLbTag := v;
    }

    method SetFbMetric(v: u32)
      modifies this
      ensures Value() == old(Value()).(fbMetric := v)
    {
      fbMetric := v;
    }

    function GetLbTag(): u32 reads this { lbTag }
    function GetCe(): u32 reads this { ce }
    function GetFbLbTag(): u32 reads this { fbLbTag }
    function GetFbMetric(): u32 reads this { fbMetric }

    /** Four 32-bit words: the size agrees with what Serialize writes. */
    function GetSerializedSize(): (n: nat)
      reads this
      ensures n == ByteSize(Serialize())
    {
      4 + 4 + 4 + 4
    }

    /** The words written to the tag buffer; reading them back yields this tag's value. */
    function Serialize(): (ws: seq<Word>)
      reads this
      ensures HasHeader(ws) && Decode(ws) == (Value(), [])
    {
      DecodeEncode(Value(), []);
      assert Encode(Value()) + [] == Encode(Value());
      Encode(Value())
    }

    /** Reads the four fields from the front of the stream and returns what is left. */
    method Deserialize(ws: seq<Word>) returns (rest: seq<Word>)
      requires HasHeader(ws)
      modifies this
      ensures (Value(), rest) == Decode(ws)
    {
      var ws1, ws2, ws3;
      lbTag, ws1 := ws[0].w, ws[1..];
      ce, ws2 := ws1[0].w, ws1[1..];
      fbLbTag, ws3 := ws2[0].w, ws2[1..];
      fbMetric, rest := ws3[0].w, ws3[1..];
    }
  }

  /** A client of the class: Serialize then Deserialize into a fresh tag reproduces every field. */
  method SerializeRoundTrip(t: Ipv4CongaTag) returns (copy: Ipv4CongaTag)
    ensures fresh(copy) && copy.Value() == t.Value()
  {
    var ws := t.Serialize();
    copy := new Ipv4CongaTag();
    var rest := copy.Deserialize(ws);
  }
}
