/** Option and Result, as the two wrappers below use them for `null` and thrown errors. */
module Wrappers {

  /** `None` stands for JavaScript's `undefined`/missing value where the code tests for presence. */
  datatype Option<+T> = None | Some(value: T)

  /**
   * An error object thrown by fs-extra or by the DynamoDB client. The code never
   * inspects it: it logs it and either rethrows it unchanged or swallows it.
   */
  datatype Fault = Fault(name: string, message: string)

  /** The settled outcome of an async call: it resolves with a value or rejects with a fault. */
  datatype Result<+T> = Success(value: T) | Failure(fault: Fault)
}
