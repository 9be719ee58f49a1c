/** What becomes of a write to the API server or to a cloud provider. */
module Calls {

  /** A write can also take effect although its caller sees an error. */
  datatype Reply = Applied | AppliedUnacked | Rejected {
    predicate Lands() { !Rejected? }
  }
}
