/**
 * TcpPauseBuffer (src/internet/model/tcp-pause-buffer.cc): a FIFO of segments (packet and TCP
 * header) a paused sender holds back and releases later in the order they were buffered.
 */
module PauseBuffer {

  /** A buffered segment: the packet and its TCP header, both carried as they are. */
  datatype TcpPauseItem<P, H> = TcpPauseItem(packet: P, header: H)

  class TcpPauseBuffer<P, H> {
    /** m_pauseItems, front first. */
    var pauseItems: seq<TcpPauseItem<P, H>>

    constructor ()
      ensures pauseItems == []
    {
      pauseItems := [];
    }

    /** BufferItem: push_back. */
    method BufferItem(p: P, header: H)
      modifies this
      ensures pauseItems == old(pauseItems) + [TcpPauseItem(p, header)]
    {
      pauseItems := pauseItems + [TcpPauseItem(p, header)];
    }

    /** GetBufferedItem: front then pop_front; the deque must not be empty. */
    method GetBufferedItem() returns (item: TcpPauseItem<P, H>)
      requires pauseItems != []
      modifies this
      ensures [item] + pauseItems == old(pauseItems)
    {
      item := pauseItems[0];
      pauseItems := pauseItems[1..];
    }

    /** HasBufferedItem as written: it returns m_pauseItems.empty(), true exactly when nothing is buffered. */
    function HasBufferedItemAsWritten(): (r: bool)
      reads this
      ensures r <==> pauseItems == []
    {
      |pauseItems| == 0
    }

    /** HasBufferedItem as its name promises: true exactly when something is buffered. */
    function HasBufferedItem(): (r: bool)
      reads this
      ensures r <==> pauseItems != []
      ensures r == !HasBufferedItemAsWritten()
    {
      |pauseItems| > 0
    }
  }

  /** A new buffer answers true to HasBufferedItem as written, although it holds nothing. */
  method EmptyBufferClaimsItems() returns (b: TcpPauseBuffer<int, int>)
    ensures fresh(b) && b.pauseItems == [] && b.HasBufferedItemAsWritten()
  {
    b := new TcpPauseBuffer<int, int>();
  }

  /** Draining while HasBufferedItem holds releases every buffered segment in buffering order. */
  method Drain<P, H>(b: TcpPauseBuffer<P, H>) returns (released: seq<TcpPauseItem<P, H>>)
    modifies b
    ensures released == old(b.pauseItems) && b.pauseItems == []
  {
    released := [];
    while b.HasBufferedItem()
      invariant released + b.pauseItems == old(b.pauseItems)
      decreases |b.pauseItems|
    {
      var item := b.GetBufferedItem();
      released := released + [item];
    }
  }
}
