/** Small value types shared by the models: an optional value, and the
    insertion-ordered table behind a JavaScript `Map` or a Python `dict`. */
module Tables {

  datatype Option<+T> = None | Some(value: T)

  /** No element twice. */
  ghost predicate Distinct<T(!new)>(s: seq<T>) {
    forall i, j :: 0 <= i < j < |s| ==> s[i] != s[j]
  }

  /** `s` with every occurrence of `x` taken out, order kept. */
  function Without<T(==,!new)>(s: seq<T>, x: T): (r: seq<T>)
    ensures forall y :: y in r <==> y in s && y != x
    ensures |r| <= |s|
  {
    if s == [] then []
    else if s[0] == x then Without(s[1..], x)
    else [s[0]] + Without(s[1..], x)
  }

  lemma {:induction false} WithoutKeepsDistinct<T(!new)>(s: seq<T>, x: T)
    requires Distinct(s)
    ensures Distinct(Without(s, x))
    ensures |Without(s, x)| == if x in s then |s| - 1 else |s|
  {
    if s != [] {
      WithoutKeepsDistinct(s[1..], x);
      assert s == [s[0]] + s[1..];
      assert s[0] !in s[1..];
    }
  }

  lemma {:induction false} WithoutAppend<T(!new)>(s: seq<T>, x: T, y: T)
    requires x != y
    ensures Without(s + [y], x) == Without(s, x) + [y]
  {
    if s == [] {
      assert [] + [y] == [y];
    } else {
      assert (s + [y])[1..] == s[1..] + [y];
      WithoutAppend(s[1..], x, y);
    }
  }

  /** Keys in the order they were first inserted, and the value of each key. */
  datatype Table<K(==,!new), V> = Table(order: seq<K>, at: map<K, V>) {

    ghost predicate Valid() {
      && Distinct(order)
      && (forall k :: k in order <==> k in at)
    }

    /** Setting a present key keeps its place, a new key goes last. */
    function Put(k: K, v: V): Table<K, V> {
      Table(if k in at then order else order + [k], at[k := v])
    }

    function Remove(k: K): Table<K, V> {
      Table(Without(order, k), at - {k})
    }

    lemma PutValid(k: K, v: V)
      requires Valid()
      ensures Put(k, v).Valid()
      ensures |Put(k, v).order| == if k in at then |order| else |order| + 1
    {}

    lemma RemoveValid(k: K)
      requires Valid()
      ensures Remove(k).Valid()
      ensures |Remove(k).order| == if k in at then |order| - 1 else |order|
    {
      WithoutKeepsDistinct(order, k);
    }
  }

  function Empty<K(==,!new), V>(): Table<K, V> {
    Table([], map[])
  }
}
