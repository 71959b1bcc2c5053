/** What the environment will do, one answer after the other. */
module Streams {

  /** Any answers at all; rest stands for those not given one by one. */
  datatype Stream<T> = Stream(given: imap<nat, T>, rest: T) {
    function At(k: nat): T {
      if k in given then given[k] else rest
    }
  }
}
