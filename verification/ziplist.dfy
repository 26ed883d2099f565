/**
 * The std::forward_list<Zipfed*> both programs keep their records in. The
 * model holds each record's value as it was after parsing; the programs
 * never change a record once it is in the list.
 */
module ZipList {

  import opened Zipfed
  import opened CityOrder

  /** The sequence in the opposite order. */
  function Reverse<T>(s: seq<T>): (r: seq<T>)
    ensures |r| == |s|
    ensures forall i :: 0 <= i < |s| ==> r[i] == s[|s| - 1 - i]
  {
    if s == [] then [] else Reverse(s[1..]) + [s[0]]
  }

  /** Pushing onto the front, one record at a time, reverses. */
  lemma ReverseSnoc<T>(s: seq<T>, x: T)
    ensures Reverse(s + [x]) == [x] + Reverse(s)
  {
  }

  /** Reversing a concatenation reverses and swaps its parts. */
  lemma {:induction false} ReverseAppend<T>(a: seq<T>, b: seq<T>)
    ensures Reverse(a + b) == Reverse(b) + Reverse(a)
  {
    if a == [] {
      assert a + b == b;
    } else {
      assert (a + b)[1..] == a[1..] + b;
      ReverseAppend(a[1..], b);
    }
  }

  class ForwardList {

    var items: seq<Record>

    /** An empty list. */
    constructor ()
      ensures items == []
    {
      items := [];
    }

    /** push_front: the record becomes the first element. */
    method PushFront(r: Record)
      modifies this
      ensures items == [r] + old(items)
    {
      items := [r] + items;
    }

    /** sort(alphabet): the records reordered by city, keeping the order of equal cities. */
    method Sort()
      modifies this
      ensures items == SortByCity(old(items))
      ensures SortedByCity(items) && multiset(items) == multiset(old(items))
    {
      items := SortByCity(items);
    }
  }
}
