/** What the critical section of a call on a semaphore or a mutex comes to: a code, or the caller blocked. */
module CallOutcome {
  import opened Common

  datatype Outcome = Returns(code: Error) | Suspends
}
