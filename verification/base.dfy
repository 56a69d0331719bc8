/** Small shared value types used across the sync bridge model. */
module Base {

  /** A value that may be absent: JavaScript `null`/`undefined` or a failed read. */
  datatype Option<+T> = None | Some(value: T) {

    /** The value, or `default` when absent (the source's `x || default` on non-falsy values). */
    function GetOr(default: T): T {
      match this
      case Some(v) => v
      case None => default
    }
  }

  /** A non-empty sequence is its head followed by its tail, also in front of another sequence. */
  lemma HeadTail<T>(a: seq<T>, b: seq<T>)
    requires |a| > 0
    ensures a == [a[0]] + a[1..]
    ensures a + b == [a[0]] + (a[1..] + b)
  {
  }

  /** The members of a sequence with one element put in front. */
  lemma ConsMembers<T>(x: T, rest: seq<T>)
    ensures forall e :: e in [x] + rest <==> e == x || e in rest
  {
  }

  /** Sequence concatenation regroups freely. */
  lemma ConcatAssoc<T>(a: seq<T>, b: seq<T>, c: seq<T>)
    ensures a + (b + c) == a + b + c
  {
  }

}
