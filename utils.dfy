/** `SingleOrMultiple<T>` (src/utils/mod.rs): one item or a vector of items,
    both of which iterate as a sequence. */
module Utils {

  datatype SingleOrMultiple<T> = Single(item: T) | Multiple(items: seq<T>)

  /** `SingleOrMultiple::from_iter`: always the `Multiple` variant. */
  function FromIter<T>(xs: seq<T>): (r: SingleOrMultiple<T>)
    ensures r.Multiple? && r.items == xs
  {
    Multiple(xs)
  }

  /** `From<T>`: a lone item is `Single`. */
  function FromItem<T>(x: T): (r: SingleOrMultiple<T>)
    ensures r.Single? && r.item == x
  {
    Single(x)
  }

  /** `From<Vec<T>>`: a vector is `Multiple`, even when it has one element. */
  function FromVec<T>(xs: seq<T>): (r: SingleOrMultiple<T>)
    ensures r.Multiple? && r.items == xs
  {
    Multiple(xs)
  }

  /** `IntoIterator::into_iter`, as the sequence it yields. */
  function IntoIter<T>(s: SingleOrMultiple<T>): (r: seq<T>)
    ensures s.Single? ==> r == [s.item]
    ensures s.Multiple? ==> r == s.items
  {
    match s
    case Single(item) => [item]
    case Multiple(items) => items
  }

  /** Collecting into `Multiple` and iterating gives the items back, in order. */
  lemma IntoIterFromIter<T>(xs: seq<T>)
    ensures IntoIter(FromIter(xs)) == xs
    ensures IntoIter(FromVec(xs)) == xs
  {
  }

  /** A lone item and a one-element collection are different variants that
      iterate identically. */
  lemma SingleVersusOneElement<T>(x: T)
    ensures FromIter([x]) != FromItem(x)
    ensures IntoIter(FromIter([x])) == IntoIter(FromItem(x)) == [x]
  {
  }

  /** The number of items the value iterates over. */
  lemma IterLength<T>(s: SingleOrMultiple<T>)
    ensures |IntoIter(s)| == if s.Single? then 1 else |s.items|
  {
  }
}
