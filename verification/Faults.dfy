/** What can become of a durable write. */
module Faults {
  /** It takes effect, is lost, or takes effect although an error is reported. */
  datatype Fault = Works | LostBefore | LostAfter
}
