/** The Segmenter object. Its methods carry out the state machine of `Splitting`. */
module Segmenters {
  import opened Prelude
  import opened Bytes
  import opened Media
  import opened Segments
  import Splitting

  class Segmenter {
    const jobId: Uuid
    const nframes: uint64
    var currentFrames: nat
    var currentSegment: Segment?
    var stream: Option<Splitting.StreamData>
    /** Every call of the `segments` signal so far. */
    ghost var emitted: seq<Splitting.Emission>

    ghost function Content(): Splitting.State
      reads this, currentSegment
    {
      var current := if currentSegment == null then None else Some(currentSegment.Content());
      Splitting.State(jobId, nframes, currentFrames, current, stream, emitted)
    }

    constructor (generated: Uuid, nframes: uint64)
      ensures Content() == Splitting.Fresh(generated, nframes)
    {
      jobId, this.nframes := generated, nframes;
      currentFrames, currentSegment, stream, emitted := 0, null, None, [];
    }

    method Flush()
      modifies this`emitted
      ensures Content() == Splitting.Flush(old(Content()))
    {
      Signal(stream);
    }

    /** Sends the current segment to the subscribers, who see it as it is now. */
    method Signal(stream: Option<Splitting.StreamData>)
      modifies this`emitted
      ensures emitted == old(emitted) + [Splitting.Emission(old(Content()).current, stream)]
    {
      emitted := emitted + [Splitting.Emission(Content().current, stream)];
    }

    /** `raw` is what the storage of a newly created first segment happens to hold. */
    method Process(packet: Packet, stream: Option<Splitting.StreamData>)
      returns (outcome: Splitting.Outcome, ghost raw: Splitting.Raw)
      requires currentSegment != null ==> stream.Some?
      modifies this, currentSegment
      ensures (Content(), outcome) == Splitting.Process(old(Content()), packet, stream, raw)
    {
      hide IsKey;
      raw := Splitting.Raw(0, 0, Rational(0, 0));
      if this.stream.None? {
        this.stream := stream;
      }
      if currentSegment == null {
        if stream.None? || stream.value.parameters.None? {
          return Splitting.MissingParameters, raw;
        }
        var first := new Segment.Create(jobId, stream.value.parameters.value);
        raw := Splitting.Raw(first.pts, first.dts, first.timeBase);
        currentSegment := first;
        if stream.value.avTimeBase.Some? {
          currentSegment.timeBase := stream.value.avTimeBase.value;
        }
        if stream.value.mediaType == VIDEO && !IsKey(packet) {
          return Splitting.NotAKeyFrame, raw;
        }
        currentSegment.Append(packet);
        currentFrames := currentFrames + 1;
      } else {
        if (stream.value.mediaType == VIDEO && IsKey(packet))
           || (stream.value.mediaType != VIDEO && currentFrames >= nframes)
        {
          Signal(stream);
          currentSegment := currentSegment.Next();
          currentFrames := 0;
        }
        currentSegment.Append(packet);
        currentFrames := currentFrames + 1;
      }
      return Splitting.Accepted, raw;
    }

    /** The destructor. */
    method Destroy()
      modifies this`emitted
      ensures Content() == Splitting.Flush(old(Content()))
    {
      Flush();
    }
  }
}
