/** How a call to another system can end.
 *
 *  A call can fail and still have taken effect: that is how a lost acknowledgement looks from the
 *  caller. `cancelled` marks a failure that is the caller being told to stop.
 */
module Calls {

  datatype Option<T> = None | Some(value: T)

  datatype Outcome = Succeeds | Fails(took: bool, cancelled: bool)

  predicate Effective(o: Outcome) {
    o.Succeeds? || o.took
  }
}
