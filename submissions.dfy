/**
 * The per-process submission counter behind `getNSubmissions` and
 * `incrementNSubmissions` (imported by app/routes/survey.join/route.tsx from
 * `~/lib/submissions`). That module is not part of this model; the counter is
 * taken to start at zero and to be read and incremented by one.
 */
module Submissions {

  class SubmissionCounter {
    /** How many answers this process has recorded. */
    var nSubmissions: nat

    constructor ()
      ensures nSubmissions == 0
    {
      nSubmissions := 0;
    }

    /** `getNSubmissions()`. */
    method Get() returns (n: nat)
      ensures n == nSubmissions
    {
      n := nSubmissions;
    }

    /** `incrementNSubmissions()`. */
    method Increment()
      modifies this
      ensures nSubmissions == old(nSubmissions) + 1
    {
      nSubmissions := nSubmissions + 1;
    }
  }
}
