/**
 * The record shapes the simulation engine works on: an `AndroidMessage`
 * and an `AndroidLooper`.
 */
module Types {
  datatype Option<T> = None | Some(value: T)

  /**
   * One message in the queue. `id` comes from the engine's counter, `what`
   * is the payload tag, `when` the absolute time (ms) at which it becomes
   * due, `target` the sending handler and `isRecycled` whether it was taken
   * from the object pool rather than freshly allocated.
   */
  datatype Message = Message(id: nat, what: int, when: int, target: string, isRecycled: bool)

  /** The looper record: `active` once prepared, `isLooping` while the loop runs. */
  datatype Looper = Looper(active: bool, threadName: string, isLooping: bool)
}
