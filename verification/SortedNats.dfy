/** Sets of numbers listed in ascending order, the form a sorted storage iteration takes. */
module SortedNats {
  import opened Prelude

  ghost predicate Ascending(keys: seq<nat>) {
    forall i, j :: 0 <= i < j < |keys| ==> keys[i] < keys[j]
  }

  ghost function Inserted(keys: seq<nat>, key: nat): seq<nat> {
    if keys == [] || key < keys[0] then [key] + keys else [keys[0]] + Inserted(keys[1..], key)
  }

  lemma {:induction false} InsertedSorts(keys: seq<nat>, key: nat)
    requires Ascending(keys) && key !in keys
    ensures Ascending(Inserted(keys, key)) && Elements(Inserted(keys, key)) == Elements(keys) + {key}
  {
    if keys != [] && keys[0] < key {
      var first, tail := keys[0], keys[1..];
      assert keys == [first] + tail && Elements(keys) == {first} + Elements(tail);
      InsertedSorts(tail, key);
      var rest := Inserted(tail, key);
      forall i | 0 <= i < |rest| ensures first < rest[i] {
        assert rest[i] in Elements(rest);
        assert rest[i] == key || rest[i] in tail;
      }
      ConsAscending(first, rest);
    } else {
      ConsAscending(key, keys);
    }
  }

  lemma ConsAscending(first: nat, rest: seq<nat>)
    requires Ascending(rest) && forall i :: 0 <= i < |rest| ==> first < rest[i]
    ensures Ascending([first] + rest) && Elements([first] + rest) == {first} + Elements(rest)
  {
  }

  /** The blocks in ascending order. */
  ghost function SortedList(blocks: set<nat>): (keys: seq<nat>)
    ensures Ascending(keys) && Elements(keys) == blocks
    decreases |blocks|
  {
    if blocks == {} then []
    else
      var b :| b in blocks;
      var rest := SortedList(blocks - {b});
      assert b !in Elements(rest);
      InsertedSorts(rest, b);
      Inserted(rest, b)
  }

  method InsertSorted(keys: seq<nat>, key: nat) returns (r: seq<nat>)
    requires Ascending(keys) && key !in keys
    ensures Ascending(r) && Elements(r) == Elements(keys) + {key}
  {
    var i := 0;
    while i < |keys| && keys[i] < key
      invariant 0 <= i <= |keys|
      invariant forall j :: 0 <= j < i ==> keys[j] < key
    {
      i := i + 1;
    }
    r := keys[..i] + [key] + keys[i..];
    InsertedIsAscending(keys, key, i);
  }

  lemma InsertedIsAscending(keys: seq<nat>, key: nat, i: nat)
    requires Ascending(keys) && key !in keys && i <= |keys|
    requires (forall j :: 0 <= j < i ==> keys[j] < key) && (i < |keys| ==> key < keys[i])
    ensures var r := keys[..i] + [key] + keys[i..];
            Ascending(r) && Elements(r) == Elements(keys) + {key}
  {
    var r := keys[..i] + [key] + keys[i..];
    forall a, b | 0 <= a < b < |r| ensures r[a] < r[b] {
      if a == i {
        assert r[b] == keys[b - 1];
      } else if b == i {
        assert r[a] == keys[a];
      } else {
        assert r[a] == keys[if a < i then a else a - 1];
        assert r[b] == keys[if b < i then b else b - 1];
      }
    }
    assert keys == keys[..i] + keys[i..];
    assert forall x :: x in r <==> x in keys[..i] || x == key || x in keys[i..];
  }

  lemma {:induction false} AscendingUnique(a: seq<nat>, b: seq<nat>)
    requires Ascending(a) && Ascending(b) && Elements(a) == Elements(b)
    ensures a == b
    decreases |a|
  {
    if a == [] {
      NoElements(a);
      NoElements(b);
    } else {
      assert a[0] in Elements(b) && b != [];
      assert b[0] in Elements(a);
      var i :| 0 <= i < |b| && b[i] == a[0];
      var j :| 0 <= j < |a| && a[j] == b[0];
      assert a[0] == b[0];
      assert Elements(a[1..]) == Elements(a) - {a[0]};
      assert Elements(b[1..]) == Elements(b) - {b[0]};
      AscendingUnique(a[1..], b[1..]);
      assert a == [a[0]] + a[1..] && b == [b[0]] + b[1..];
    }
  }

  /** A storage clear bounded to `limit` entries. */
  ghost function ClearUpTo<T>(entries: map<nat, T>, limit: nat): map<nat, T> {
    var keys := SortedList(entries.Keys);
    entries - Elements(if |keys| <= limit then keys else keys[..limit])
  }

  lemma ClearEmpties<T>(entries: map<nat, T>, limit: nat)
    requires |entries| <= limit
    ensures ClearUpTo(entries, limit) == map[]
  {
    var keys := SortedList(entries.Keys);
    DistinctCount(keys);
    assert |keys| == |entries.Keys| == |entries|;
  }
}
