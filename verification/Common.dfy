/** Types that several components share. */
module Common {
  datatype Option<T> = None | Some(value: T)

  /** `ObserverListPolicy`: whether observers added during a notification are notified. */
  datatype Policy = All | ExistingOnly

  /** Callbacks that are consumed when they run, and callbacks that can run again. */
  datatype Kind = Once | Repeating
}
