/** Vocabulary shared by every node of the overlay: optional values, addresses,
    neighbour status and the link costs that the relay nodes compare. */
module Common {

  /** A value that may be absent (Python's `None`, or a dictionary key that is missing). */
  datatype Option<T> = None | Some(value: T) {
    function GetOr(default: T): T {
      match this
      case Some(v) => v
      case None => default
    }
  }

  /** Node addresses are the dotted strings the nodes exchange. */
  type IP = string

  /** The two values the nodes ever store under a neighbour's "status" key. */
  datatype Status = Active | Inactive

  /** A link cost in the relay's time unit. The source keeps these as floats that start at
      `float('inf')`; here a cost is a natural number or infinity. */
  datatype Cost = Fin(n: nat) | Inf {

    /** Python's `<` on these floats: nothing is below a finite cost except a smaller one,
        and infinity is below nothing. */
    predicate Less(other: Cost) {
      match (this, other)
      case (Fin(a), Fin(b)) => a < b
      case (Fin(_), Inf) => true
      case (Inf, _) => false
    }

    /** Python's `+` on these floats: infinity absorbs. */
    function Plus(other: Cost): Cost {
      match (this, other)
      case (Fin(a), Fin(b)) => Fin(a + b)
      case _ => Inf
    }
  }

  /** `Less` is a strict total order on costs. */
  lemma CostOrder(a: Cost, b: Cost, c: Cost)
    ensures !a.Less(a)
    ensures a.Less(b) ==> !b.Less(a)
    ensures a.Less(b) && b.Less(c) ==> a.Less(c)
    ensures a != b ==> a.Less(b) || b.Less(a)
  {
  }

  /** Adding costs never makes a path cheaper, and only an infinite part makes it infinite. */
  lemma PlusMonotone(a: Cost, b: Cost)
    ensures !a.Plus(b).Less(a) && !a.Plus(b).Less(b)
    ensures a.Plus(b) == Inf <==> a == Inf || b == Inf
  {
  }

  /** Python's `str.startswith`. */
  predicate StartsWith(s: string, prefix: string) {
    |prefix| <= |s| && s[..|prefix|] == prefix
  }

  /** Concatenation is associative; stated once so that large contexts need not rediscover it. */
  lemma AppendAssoc<T>(a: seq<T>, b: seq<T>, c: seq<T>)
    ensures (a + b) + c == a + (b + c)
  {
  }
}
