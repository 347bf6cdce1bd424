/** One frame of audio: 320 signed 16-bit samples. */
module Pcm {
  const FRAME_SAMPLES: nat := 320

  type Sample = x: int | -32768 <= x <= 32767
}
