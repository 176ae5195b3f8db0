/**
 * The boundary between the recognition loops and the audio device, the queue
 * and the speech recogniser, all of which lie outside this model.
 */
module Audio {
  newtype byte = x: int | 0 <= x < 256

  /** One block of raw 16-bit PCM as handed over by the device callback. */
  type Chunk = seq<byte>

  /** The outcome of one `queue.get(timeout=...)`: a chunk, or `queue.Empty`. */
  datatype Poll = Timeout | Got(chunk: Chunk)

  /**
   * What feeding a chunk to a recogniser yields: `AcceptWaveform` returned
   * false (`Partial`), it returned true and `Result()` carried the text `raw`
   * (`Final`, with `""` when the result has no "text" entry), or an exception
   * other than `queue.Empty` was raised (`Fault`).
   */
  datatype Feed = Partial | Final(raw: string) | Fault
}
