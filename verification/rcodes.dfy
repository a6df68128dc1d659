/** The return codes a module hands back to the request-processing pipeline. */
module Rcodes {

  /** `rlm_rcode_t`, in declaration order. */
  datatype Rcode =
    | Reject    // the user is rejected
    | Fail      // the module failed; the request should be rejected
    | Ok        // the module succeeded
    | Handled   // the module handled the request and replied
    | Invalid   // the request or the server answer was malformed
    | Userlock  // the user is locked out
    | NotFound  // the user was not found
    | Noop      // the module did nothing
    | Updated   // the module updated the request
}
