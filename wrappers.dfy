/** Swift's optional values. */
module Wrappers {

  datatype Option<+T> = None | Some(value: T) {

    /** The value, or `default` when absent (Swift's `??`). */
    function GetOr(default: T): T {
      match this
      case Some(v) => v
      case None => default
    }
  }
}

/**
 * A Swift `[String: V]` dictionary whose iteration order the code depends on.
 * Swift leaves that order unspecified; the model fixes it as the order of
 * `entries`, so every property proved about code that iterates a dictionary
 * holds for every order Swift might pick.
 */
module Dictionaries {
  import opened Wrappers

  datatype Entries<V> = Entries(entries: seq<(string, V)>)
  {
    /** No key occurs twice, as in every Swift dictionary. */
    predicate HasUniqueKeys()
    {
      forall i, j :: 0 <= i < j < |entries| ==> entries[i].0 != entries[j].0
    }

    /** `dict.keys`, in iteration order. */
    function Keys(): (ks: seq<string>)
      ensures |ks| == |entries|
      ensures forall i :: 0 <= i < |entries| ==> ks[i] == entries[i].0
    {
      seq(|entries|, i requires 0 <= i < |entries| => entries[i].0)
    }

    /** `dict.values`, in iteration order. */
    function Values(): (vs: seq<V>)
      ensures |vs| == |entries|
      ensures forall i :: 0 <= i < |entries| ==> vs[i] == entries[i].1
    {
      seq(|entries|, i requires 0 <= i < |entries| => entries[i].1)
    }

    /** `dict[key]`. */
    function Get(key: string): (r: Option<V>)
      ensures r.Some? <==> key in Keys()
      ensures r.Some? ==> exists i :: 0 <= i < |entries| && entries[i] == (key, r.value)
    {
      Lookup(entries, key)
    }
  }

  type Dict<V> = d: Entries<V> | d.HasUniqueKeys() witness Entries([])

  function Lookup<V>(entries: seq<(string, V)>, key: string): (r: Option<V>)
    ensures r.Some? <==> exists i :: 0 <= i < |entries| && entries[i].0 == key
    ensures r.Some? ==> exists i :: 0 <= i < |entries| && entries[i] == (key, r.value)
  {
    if entries == [] then None
    else if entries[0].0 == key then Some(entries[0].1)
    else
      var r := Lookup(entries[1..], key);
      assert forall i :: 0 < i < |entries| ==> entries[i] == entries[1..][i - 1];
      r
  }

  /** In a dictionary with unique keys, the value found for the key of an entry is that entry's value. */
  lemma GetEntry<V>(d: Dict<V>, i: int)
    requires 0 <= i < |d.entries|
    ensures d.Get(d.entries[i].0) == Some(d.entries[i].1)
  {
    var r := d.Get(d.entries[i].0);
    assert d.entries[i].0 in d.Keys();
    var j :| 0 <= j < |d.entries| && d.entries[j] == (d.entries[i].0, r.value);
    assert j == i;
  }
}

/** Flattening a list of lists (Swift's `flatMap` over already mapped values). */
module Sequences {

  /** The lists one after the other. */
  function Concat<T(!new)>(lists: seq<seq<T>>): (r: seq<T>)
    ensures forall x :: x in r <==> exists i :: 0 <= i < |lists| && x in lists[i]
    decreases |lists|
  {
    if lists == [] then []
    else
      var rest := Concat(lists[1..]);
      assert forall i :: 0 < i < |lists| ==> lists[i] == lists[1..][i - 1];
      lists[0] + rest
  }

  /** Appending one more list to the input appends it to the output. */
  lemma {:induction false} ConcatSnoc<T(!new)>(lists: seq<seq<T>>, last: seq<T>)
    ensures Concat(lists + [last]) == Concat(lists) + last
    decreases |lists|
  {
    if lists == [] {
      assert lists + [last] == [last];
    } else {
      assert (lists + [last])[1..] == lists[1..] + [last];
      ConcatSnoc(lists[1..], last);
    }
  }

  /** Concatenating two inputs concatenates the outputs. */
  lemma {:induction false} ConcatAppend<T(!new)>(a: seq<seq<T>>, b: seq<seq<T>>)
    ensures Concat(a + b) == Concat(a) + Concat(b)
    decreases |a|
  {
    if a == [] {
      assert a + b == b;
    } else {
      assert (a + b)[1..] == a[1..] + b;
      ConcatAppend(a[1..], b);
    }
  }

  /** The concatenation is empty exactly when every list is. */
  lemma {:induction false} ConcatEmpty<T(!new)>(lists: seq<seq<T>>)
    ensures Concat(lists) == [] <==> forall i :: 0 <= i < |lists| ==> lists[i] == []
    decreases |lists|
  {
    if lists != [] {
      ConcatEmpty(lists[1..]);
      assert forall i :: 0 < i < |lists| ==> lists[i] == lists[1..][i - 1];
    }
  }
}
