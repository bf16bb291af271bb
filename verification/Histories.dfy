/** What has been observed of a run, newest label last. No code reads it. */
module Histories {

  datatype History<+L> = Start | Then(before: History<L>, last: L)
}
