/** Small datatypes and set facts shared by the other modules. */
module Common {

  datatype Option<+T> = None | Some(value: T) {
    function GetOr(default: T): T {
      match this
      case Some(v) => v
      case None => default
    }
  }

  /** A Go (value, error) pair. */
  datatype Result<+T> = Ok(value: T) | Err(reason: string)

  /** An injective map from a into b. */
  lemma {:induction false} InjectionCardinality(a: set<nat>, b: set<nat>, f: map<nat, nat>)
    requires forall x :: x in a ==> x in f && f[x] in b
    requires forall x, y :: x in a && y in a && x != y ==> f[x] != f[y]
    ensures |a| <= |b|
  {
    if a != {} {
      var x :| x in a;
      InjectionCardinality(a - {x}, b - {f[x]}, f);
    }
  }
}
