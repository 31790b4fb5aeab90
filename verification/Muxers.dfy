/** The Muxer object. Its methods carry out the state machine of `Muxing`. */
module Muxers {
  import opened Prelude
  import opened Bytes
  import opened Media
  import opened Muxing

  /** Routes the packets of one subscribed stream to its muxer. */
  class StreamInfo {
    const owner: Muxer
    const index: StreamIndex

    constructor (owner: Muxer, index: StreamIndex)
      ensures this.owner == owner && this.index == index
    {
      this.owner, this.index := owner, index;
    }

    method Process(packet: Packet)
      modifies owner
      ensures owner.Content() == Muxing.Process(old(owner.Content()), packet, index)
    {
      owner.Process(packet, index);
    }
  }

  class Muxer {
    const bufferMax: int64
    const noFile: bool
    var state: Phase
    var streamStart: bool
    var streams: nat
    var buffer: seq<Packet>
    /** The calls on the output context so far. */
    ghost var trace: seq<Output>

    ghost function Content(): Mux
      reads this
    {
      Mux(Limit(bufferMax), noFile, state, streamStart, streams, buffer, trace)
    }

    /** `opens` is whether the file can be opened; if not, the constructor throws. */
    constructor (bufferMax: int64, noFile: bool, opens: bool)
      ensures Content() == OpenOutput(Init(bufferMax, noFile), opens)
    {
      this.bufferMax, this.noFile := bufferMax, noFile;
      state, streamStart, streams, buffer, trace := Ready, true, 0, [], [];
      new;
      OpenFor(opens);
    }

    /** A null result stands for the exception: nothing is added after the header. */
    method Subscribe() returns (info: StreamInfo?)
      requires streams < TWO31
      modifies this`streams
      ensures match Muxing.Subscribe(old(Content()))
              case None => info == null && Content() == old(Content())
              case Some(m) => Content() == m && info != null && fresh(info)
                              && info.owner == this && info.index == old(streams)
    {
      if !streamStart {
        return null;
      }
      info := new StreamInfo(this, streams);
      streams := streams + 1;
    }

    method OpenFor(opens: bool)
      modifies this`state, this`trace
      ensures Content() == OpenOutput(old(Content()), opens)
    {
      if state != Open {
        if !noFile {
          if !opens {
            state := Failed;
            return;
          }
          trace := trace + [OpenFile];
        }
        state := Open;
      }
    }

    method Close()
      modifies this
      ensures Content() == Muxing.Close(old(Content()))
    {
      Flush();
      if state == Open {
        if !streamStart {
          trace := trace + [FlushInterleaver];
          trace := trace + [Trailer];
        }
        if !noFile {
          trace := trace + [CloseFile];
        }
        state := Closed;
        streamStart := true;
      }
    }

    method WriteOut(packet: Packet)
      modifies this`streamStart, this`trace
      ensures Content() == WritePacket(old(Content()), packet)
    {
      if streamStart {
        streamStart := false;
        trace := trace + [Header(streams)];
      }
      trace := trace + [Write(packet)];
    }

    /** One critical section: the buffer is written, oldest packet first, until it is empty. */
    method Flush()
      modifies this
      ensures Content() == Muxing.Flush(old(Content()))
      ensures buffer == []
    {
      while |buffer| > 0
        invariant Muxing.Flush(Content()) == Muxing.Flush(old(Content()))
        decreases |buffer|
      {
        var packet := buffer[0];
        buffer := buffer[1..];
        WriteOut(packet);
      }
    }

    /** The packet is stored with the index of its output stream; a full buffer gives up
        its oldest packet. */
    method Process(packet: Packet, index: StreamIndex)
      modifies this
      ensures Content() == Muxing.Process(old(Content()), packet, index)
    {
      var stamped := packet.(streamIndex := index);
      if |buffer| < Limit(bufferMax) {
        buffer := buffer + [stamped];
      } else {
        buffer := buffer + [stamped];
        var front := buffer[0];
        buffer := buffer[1..];
        WriteOut(front);
      }
    }
  }
}
