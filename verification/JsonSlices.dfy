/** What encoding/json leaves in a slice that it decodes an array into: the elements that are there already are
    decoded into without being cleared first, also those beyond the slice's length (Go 1.13, as go.mod:3 names).
    cluster/manager.go:112 and cluster/node.go:864 decode into a value that was decoded into before. */
module JsonSlices {

  /** A slice and the elements that its memory holds beyond its length; all that follow are zero. */
  datatype Slice<T> = Slice(list: seq<T>, spare: seq<T>)

  function At<T>(s: Slice<T>, i: nat, zero: T): T {
    var memory := s.list + s.spare;
    if i < |memory| then memory[i] else zero
  }

  /** An array without elements gives a new slice; any other array is decoded element by element. */
  function Decode<T, P>(s: Slice<T>, elements: seq<P>, zero: T, merge: (T, P) -> T): Slice<T> {
    if elements == [] then Slice([], [])
    else
      var memory := s.list + s.spare;
      Slice(seq(|elements|, i requires 0 <= i < |elements| => merge(At(s, i, zero), elements[i])),
            if |elements| < |memory| then memory[|elements|..] else [])
  }

  lemma DecodedAt<T, P>(s: Slice<T>, elements: seq<P>, zero: T, merge: (T, P) -> T, i: nat)
    requires elements != []
    ensures var d := Decode(s, elements, zero, merge);
            && |d.list| == |elements|
            && At(d, i, zero) == (if i < |elements| then merge(At(s, i, zero), elements[i]) else At(s, i, zero))
            && (i < |elements| ==> d.list[i] == At(d, i, zero))
  {}

  /** The code's two slices begin as nil or empty, so an empty one has nothing spare. */
  predicate Tight<T>(s: Slice<T>) { s.list == [] ==> s.spare == [] }

  lemma DecodedIsTight<T, P>(s: Slice<T>, elements: seq<P>, zero: T, merge: (T, P) -> T)
    ensures Tight(Decode(s, elements, zero, merge))
  {}
}
