/**
  The order the dashboard sorts its power series by. The source compares two
  `time` labels with `localeCompare`; time inputs produce zero-padded `HH:MM`
  labels, on which locale order and character-code order agree, so the model
  compares strings lexicographically by character code.
*/
module TimeOrder {

  /** Negative, zero or positive as `a` sorts before, equal to or after `b`. */
  function Compare(a: string, b: string): (r: int)
    ensures -1 <= r <= 1
    decreases |a|
  {
    if a == [] && b == [] then 0
    else if a == [] then -1
    else if b == [] then 1
    else if a[0] < b[0] then -1
    else if a[0] > b[0] then 1
    else Compare(a[1..], b[1..])
  }

  /** The comparator reports "equal" for identical labels and for nothing else. */
  lemma {:induction false} CompareZeroIffEqual(a: string, b: string)
    ensures Compare(a, b) == 0 <==> a == b
    decreases |a|
  {
    if a != [] && b != [] && a[0] == b[0] {
      CompareZeroIffEqual(a[1..], b[1..]);
      assert a == [a[0]] + a[1..] && b == [b[0]] + b[1..];
    }
  }

  /** Swapping the arguments flips the sign: the order is antisymmetric and total. */
  lemma {:induction false} CompareFlip(a: string, b: string)
    ensures Compare(b, a) == -Compare(a, b)
    decreases |a|
  {
    if a != [] && b != [] && a[0] == b[0] {
      CompareFlip(a[1..], b[1..]);
    }
  }

  /** "At or before" is transitive. */
  lemma {:induction false} CompareTransitive(a: string, b: string, c: string)
    requires Compare(a, b) <= 0 && Compare(b, c) <= 0
    ensures Compare(a, c) <= 0
    decreases |a|
  {
    if a != [] && b != [] && c != [] && a[0] == b[0] == c[0] {
      CompareTransitive(a[1..], b[1..], c[1..]);
    }
  }

  /** Two labels each at or before the other are the same label. */
  lemma AtOrBeforeBothWaysEqual(a: string, b: string)
    requires Compare(a, b) <= 0 && Compare(b, a) <= 0
    ensures a == b
  {
    CompareFlip(a, b);
    CompareZeroIffEqual(a, b);
  }
}
