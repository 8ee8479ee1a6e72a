/**
 * The GIF encoder the generators hand their frames to, seen from outside:
 * it keeps the frames it was given, in order, with their delays, and can
 * be told to render. How it quantises colours or runs its workers is not
 * part of this model.
 */
module GifSink {

  /** One `addFrame(picture, { delay })` call. */
  datatype Frame<P> = Frame(picture: P, delay: real)

  class Encoder<P> {
    var frames: seq<Frame<P>>
    var rendering: bool

    /** `new GIF({...})` */
    constructor()
      ensures frames == [] && !rendering
    {
      frames := [];
      rendering := false;
    }

    /** `gif.addFrame(picture, { delay })` */
    method AddFrame(picture: P, delay: real)
      modifies this
      ensures frames == old(frames) + [Frame(picture, delay)]
      ensures rendering == old(rendering)
    {
      frames := frames + [Frame(picture, delay)];
    }

    /** `gif.render()` */
    method Render()
      modifies this
      ensures frames == old(frames) && rendering
    {
      rendering := true;
    }
  }
}
