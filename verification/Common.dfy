/** Shared vocabulary: an optional value, and the few counting facts the proofs lean on. */
module Common {

  /** A value that may be absent; the source writes `None`. */
  datatype Option<+T> = None | Some(value: T) {

    /** The value when there is one, otherwise `default`. */
    function GetOr(default: T): T {
      match this
      case Some(v) => v
      case None => default
    }
  }

  /** A subset has no more elements than the set around it. */
  lemma {:induction false} SubsetCard<T>(a: set<T>, b: set<T>)
    requires a <= b
    ensures |a| <= |b|
  {
    if a != {} {
      var x :| x in a;
      SubsetCard(a - {x}, b - {x});
    }
  }

  /** An injective map has as many keys as values. */
  lemma {:induction false} InjectiveCard<A, B>(f: map<A, B>, image: set<B>)
    requires forall x, y :: x in f && y in f && f[x] == f[y] ==> x == y
    requires forall b :: b in image ==> exists a :: a in f && f[a] == b
    requires forall a :: a in f ==> f[a] in image
    ensures |f.Keys| == |image|
  {
    if f.Keys == {} {
      assert forall b :: b !in image;
    } else {
      var a :| a in f.Keys;
      var rest := f - {a};
      var image' := image - {f[a]};
      forall b | b in image' ensures exists x :: x in rest && rest[x] == b {
        var x :| x in f && f[x] == b;
        assert x in rest;
      }
      assert rest.Keys == f.Keys - {a};
      InjectiveCard(rest, image');
    }
  }
}
