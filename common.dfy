/** Small shared vocabulary: an optional value, the colour hues the views pick
    between, and two predicates over sequences used across the model. */
module Common {

  datatype Option<+T> = None | Some(value: T) {
    function GetOr(default: T): T {
      match this
      case Some(v) => v
      case None => default
    }
  }

  /** The hue of a Tailwind colour class chosen by a view (`bg-emerald-500`,
      `text-amber-500`, ...); the shade and the property prefix are not modelled. */
  datatype Tone = Primary | Emerald | Yellow | Amber | Orange | Red

  /** `r` is obtained from `s` by deleting elements, keeping the order of the rest. */
  predicate SubsequenceOf<T(==)>(r: seq<T>, s: seq<T>)
    decreases |s|
  {
    if r == [] then true
    else if s == [] then false
    else if r[0] == s[0] then SubsequenceOf(r[1..], s[1..])
    else SubsequenceOf(r, s[1..])
  }

  predicate NoDuplicates<T(==)>(s: seq<T>) {
    forall i, j :: 0 <= i < j < |s| ==> s[i] != s[j]
  }

  /** Prepending an element that the result does not keep, or that it keeps as
      its first element, preserves the subsequence relation. */
  lemma {:induction false} SubsequenceCons<T>(x: T, r: seq<T>, s: seq<T>)
    requires SubsequenceOf(r, s)
    ensures SubsequenceOf(r, [x] + s)
    ensures SubsequenceOf([x] + r, [x] + s)
    decreases |s|, 1
  {
    assert ([x] + s)[1..] == s;
    assert ([x] + r)[1..] == r;
    if r != [] && r[0] == x {
      // SubsequenceOf(r, [x] + s) reduces to SubsequenceOf(r[1..], s)
      SubsequenceDropHead(r, s);
    }
  }

  /** Dropping the first element of a subsequence keeps it a subsequence. */
  lemma {:induction false} SubsequenceDropHead<T>(r: seq<T>, s: seq<T>)
    requires r != [] && SubsequenceOf(r, s)
    ensures SubsequenceOf(r[1..], s)
    decreases |s|, 0
  {
    if s == [] {
    } else if r[0] == s[0] {
      SubsequenceCons(s[0], r[1..], s[1..]);
      assert [s[0]] + s[1..] == s;
    } else {
      SubsequenceDropHead(r, s[1..]);
      SubsequenceCons(s[0], r[1..], s[1..]);
      assert [s[0]] + s[1..] == s;
    }
  }
}
