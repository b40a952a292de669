/** Types shared by every part of the model. */
module Common {

  datatype Option<+T> = None | Some(value: T)

  /** A 32-byte digest (block hash, body digest, transaction id). The model only
      ever compares digests, so a number stands for each. */
  type Hash = nat

  const U64_MAX := 0xffff_ffff_ffff_ffff

  /** An `Instant`, as the time since some fixed origin. */
  type Time = nat

  /** `Instant::duration_since`, which saturates at zero. */
  function Elapsed(now: Time, at: Time): nat {
    if now >= at then now - at else 0
  }

  /** A finite run, oldest step first. */
  datatype Trace<+A> = Start | Then(before: Trace<A>, last: A)

  /** The last `n` elements, or all of them. */
  function Last<T>(s: seq<T>, n: nat): seq<T> {
    if |s| <= n then s else s[|s| - n..]
  }

  /** No element occurs at two positions. */
  ghost predicate Distinct<T>(s: seq<T>) {
    forall i, j :: 0 <= i < j < |s| ==> s[i] != s[j]
  }
}
