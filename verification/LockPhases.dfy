/** The stages of an operation on a lock or a semaphore. */
module LockPhases {

  /** Where it stands: await_ready not run yet; await_ready said no;
      queued; the owner, but not resumed yet; resumed; and past its release. */
  datatype Phase = Calling | Retrying | Parked | Granted | Holding | Released
}
