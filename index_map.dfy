/** The insertion-ordered map (`indexmap::IndexMap<String, V>`) that the
    library keeps its projects in and the configuration keeps its profiles
    in, as a sequence of entries. Only the operations the program calls are
    modelled: `get`, `contains_key`, `keys`, `insert`, `retain`,
    `swap_remove` and `shift_remove`. */
module IndexMaps {
  import opened Wrappers

  datatype Entry<V> = Entry(key: string, value: V)

  type IndexMap<V> = seq<Entry<V>>

  function Keys<V>(m: IndexMap<V>): (ks: seq<string>)
    ensures |ks| == |m|
  {
    seq(|m|, i requires 0 <= i < |m| => m[i].key)
  }

  predicate HasKey<V>(m: IndexMap<V>, k: string) {
    exists i :: 0 <= i < |m| && m[i].key == k
  }

  /** The map property: no key occurs twice. */
  ghost predicate Wf<V>(m: IndexMap<V>) {
    forall i, j :: 0 <= i < j < |m| ==> m[i].key != m[j].key
  }

  /** The position of key `k`, if it is present. */
  function Find<V>(m: IndexMap<V>, k: string): (r: Option<nat>)
    ensures r.None? <==> !HasKey(m, k)
    ensures r.Some? ==> r.value < |m| && m[r.value].key == k
    ensures r.Some? ==> forall j :: 0 <= j < r.value ==> m[j].key != k
  {
    if m == [] then None
    else if m[0].key == k then Some(0)
    else match Find(m[1..], k)
      case None =>
        assert forall j :: 1 <= j < |m| ==> m[j] == m[1..][j - 1];
        None
      case Some(i) => Some(i + 1)
  }

  /** `IndexMap::get`. */
  function Get<V>(m: IndexMap<V>, k: string): (r: Option<V>)
    ensures r.Some? <==> HasKey(m, k)
    ensures Wf(m) ==> forall i :: 0 <= i < |m| && m[i].key == k ==> r == Some(m[i].value)
  {
    match Find(m, k)
    case None => None
    case Some(i) => Some(m[i].value)
  }

  lemma HasKeyCons<V>(m: IndexMap<V>)
    requires m != []
    ensures forall x :: HasKey(m, x) <==> m[0].key == x || HasKey(m[1..], x)
  {
    forall x | HasKey(m, x) ensures m[0].key == x || HasKey(m[1..], x) {
      var j :| 0 <= j < |m| && m[j].key == x;
      if j > 0 { assert m[1..][j - 1].key == x; }
    }
    forall x | HasKey(m[1..], x) ensures HasKey(m, x) {
      var j :| 0 <= j < |m[1..]| && m[1..][j].key == x;
      assert m[j + 1].key == x;
    }
  }

  lemma HasKeyAppend<V>(a: IndexMap<V>, b: IndexMap<V>)
    ensures forall x :: HasKey(a + b, x) <==> HasKey(a, x) || HasKey(b, x)
  {
    forall x | HasKey(a + b, x) ensures HasKey(a, x) || HasKey(b, x) {
      var j :| 0 <= j < |a + b| && (a + b)[j].key == x;
      if j < |a| { assert a[j].key == x; } else { assert b[j - |a|].key == x; }
    }
    forall x | HasKey(a, x) ensures HasKey(a + b, x) {
      var j :| 0 <= j < |a| && a[j].key == x;
      assert (a + b)[j].key == x;
    }
    forall x | HasKey(b, x) ensures HasKey(a + b, x) {
      var j :| 0 <= j < |b| && b[j].key == x;
      assert (a + b)[|a| + j].key == x;
    }
  }

  /** Replacing the value at a key's position keeps the keys. */
  lemma ReplaceValue<V>(m: IndexMap<V>, i: nat, v: V)
    requires i < |m|
    ensures var r := m[i := Entry(m[i].key, v)];
      && Keys(r) == Keys(m)
      && (forall x :: HasKey(r, x) <==> HasKey(m, x))
      && (Wf(m) ==> Wf(r))
      && Find(r, m[i].key) == Find(m, m[i].key)
  {
    var r := m[i := Entry(m[i].key, v)];
    assert forall j :: 0 <= j < |m| ==> r[j].key == m[j].key;
    assert Keys(r) == Keys(m);
    forall x | HasKey(m, x) ensures HasKey(r, x) {
      var j :| 0 <= j < |m| && m[j].key == x;
      assert r[j].key == x;
    }
    FindSameKeys(r, m, m[i].key);
  }

  /** `Find` only looks at keys. */
  lemma {:induction false} FindSameKeys<V>(a: IndexMap<V>, b: IndexMap<V>, k: string)
    requires |a| == |b| && forall j :: 0 <= j < |a| ==> a[j].key == b[j].key
    ensures Find(a, k) == Find(b, k)
    decreases |a|
  {
    if a != [] && a[0].key != k {
      FindSameKeys(a[1..], b[1..], k);
    }
  }

  /** `IndexMap::insert`: a present key keeps its place and takes the new
      value; an absent key goes to the end. */
  function Insert<V>(m: IndexMap<V>, k: string, v: V): (r: IndexMap<V>)
    ensures Wf(m) ==> Wf(r)
    ensures forall x :: HasKey(r, x) <==> HasKey(m, x) || x == k
    ensures Get(r, k) == Some(v)
    ensures !HasKey(m, k) ==> r == m + [Entry(k, v)]
    ensures HasKey(m, k) ==> |r| == |m| && Keys(r) == Keys(m)
    ensures forall i :: 0 <= i < |m| && m[i].key != k ==> i < |r| && r[i] == m[i]
    ensures forall e :: e in r ==> e in m || e == Entry(k, v)
  {
    match Find(m, k)
    case Some(i) =>
      ReplaceValue(m, i, v);
      m[i := Entry(k, v)]
    case None =>
      var r := m + [Entry(k, v)];
      HasKeyAppend(m, [Entry(k, v)]);
      assert [Entry(k, v)][0].key == k;
      assert forall x :: HasKey([Entry(k, v)], x) ==> x == k;
      FindAppend(m, [Entry(k, v)], k);
      r
  }

  /** A key absent from the front is looked up in the back. */
  lemma {:induction false} FindAppend<V>(a: IndexMap<V>, b: IndexMap<V>, k: string)
    requires !HasKey(a, k)
    ensures Find(a + b, k) == (match Find(b, k) case None => None case Some(i) => Some(|a| + i))
    decreases |a|
  {
    if a == [] {
      assert a + b == b;
    } else {
      HasKeyCons(a);
      assert (a + b)[1..] == a[1..] + b;
      FindAppend(a[1..], b, k);
    }
  }

  /** `IndexMap::retain` with the predicate "key not in `ks`". */
  function RemoveKeys<V>(m: IndexMap<V>, ks: set<string>): (r: IndexMap<V>)
    ensures |r| <= |m|
    ensures forall x :: HasKey(r, x) <==> HasKey(m, x) && x !in ks
    ensures forall e :: e in r ==> e in m
    ensures Wf(m) ==> Wf(r)
  {
    if m == [] then []
    else
      var tail := RemoveKeys(m[1..], ks);
      HasKeyCons(m);
      if m[0].key in ks then tail
      else
        var r := [m[0]] + tail;
        HasKeyCons(r);
        assert r[1..] == tail;
        assert Wf(m) ==> Wf(r) by {
          if Wf(m) {
            forall i, j | 0 <= i < j < |r| ensures r[i].key != r[j].key {
              if i == 0 {
                assert r[j] in m[1..];
                var l :| 0 <= l < |m[1..]| && m[1..][l] == r[j];
                assert m[l + 1] == r[j];
              } else {
                assert r[i] == tail[i - 1] && r[j] == tail[j - 1];
              }
            }
          }
        }
        r
  }

  /** Removing keys distributes over concatenation: the entries that stay
      keep their relative order. */
  lemma {:induction false} RemoveKeysAppend<V>(a: IndexMap<V>, b: IndexMap<V>, ks: set<string>)
    ensures RemoveKeys(a + b, ks) == RemoveKeys(a, ks) + RemoveKeys(b, ks)
    decreases |a|
  {
    if a == [] {
      assert a + b == b;
    } else {
      assert (a + b)[1..] == a[1..] + b;
      RemoveKeysAppend(a[1..], b, ks);
    }
  }

  /** Removing keys that are not there changes nothing. */
  lemma {:induction false} RemoveAbsentKeys<V>(m: IndexMap<V>, ks: set<string>)
    requires forall x :: x in ks ==> !HasKey(m, x)
    ensures RemoveKeys(m, ks) == m
    decreases |m|
  {
    if m != [] {
      HasKeyCons(m);
      RemoveAbsentKeys(m[1..], ks);
      assert m == [m[0]] + m[1..];
    }
  }

  /** Removing a key that was just appended gives back the map before the
      append. */
  lemma RemoveAppendedKey<V>(m: IndexMap<V>, k: string, v: V)
    requires !HasKey(m, k)
    ensures RemoveKeys(m + [Entry(k, v)], {k}) == m
  {
    RemoveKeysAppend(m, [Entry(k, v)], {k});
    RemoveAbsentKeys(m, {k});
    assert RemoveKeys([Entry(k, v)], {k}) == [];
  }

  /** A kept key keeps its value. */
  lemma {:induction false} RemoveKeysGet<V>(m: IndexMap<V>, ks: set<string>, x: string)
    requires x !in ks
    ensures Get(RemoveKeys(m, ks), x) == Get(m, x)
    decreases |m|
  {
    if m != [] {
      var tail := RemoveKeys(m[1..], ks);
      RemoveKeysGet(m[1..], ks, x);
      GetCons(m, x);
      if m[0].key !in ks {
        var r := [m[0]] + tail;
        assert RemoveKeys(m, ks) == r;
        assert r[1..] == tail;
        GetCons(r, x);
      } else {
        assert RemoveKeys(m, ks) == tail;
      }
    }
  }

  /** `get` on a map with at least one entry looks at the first one, then
      at the rest. */
  lemma GetCons<V>(m: IndexMap<V>, x: string)
    requires m != []
    ensures Get(m, x) == if m[0].key == x then Some(m[0].value) else Get(m[1..], x)
  {
    if m[0].key != x {
      match Find(m[1..], x)
      case None =>
      case Some(i) => assert m[i + 1] == m[1..][i];
    }
  }

  /** `IndexMap::swap_remove`: the last entry moves into the removed slot. */
  function SwapRemove<V>(m: IndexMap<V>, k: string): (r: IndexMap<V>)
    ensures !HasKey(m, k) ==> r == m
  {
    match Find(m, k)
    case None => m
    case Some(i) => if i == |m| - 1 then m[..i] else m[..i] + [m[|m| - 1]] + m[i + 1..|m| - 1]
  }

  /** What `swap_remove` does to a well-formed map: the key goes, the size
      drops by one, the former last entry takes the freed slot, and every
      other entry stays where it was. */
  lemma SwapRemoveProperties<V>(m: IndexMap<V>, k: string, i: nat)
    requires Wf(m) && i < |m| && m[i].key == k
    ensures var r := SwapRemove(m, k);
      && Wf(r)
      && |r| == |m| - 1
      && (forall x :: HasKey(r, x) <==> HasKey(m, x) && x != k)
      && (i < |r| ==> r[i] == m[|m| - 1])
      && (forall j :: 0 <= j < |r| && j != i ==> r[j] == m[j])
  {
    SwapRemoveLayout(m, k, i);
    SwapRemoveWf(m, k, i);
    SwapRemoveKeys(m, k, i);
  }

  lemma SwapRemoveWf<V>(m: IndexMap<V>, k: string, i: nat)
    requires Wf(m) && i < |m| && m[i].key == k
    ensures Wf(SwapRemove(m, k))
  {
    var r := SwapRemove(m, k);
    SwapRemoveLayout(m, k, i);
    forall j1, j2 | 0 <= j1 < j2 < |r| ensures r[j1].key != r[j2].key {
      if j1 == i {
        assert r[j1] == m[|m| - 1] && r[j2] == m[j2];
      } else if j2 == i {
        assert r[j2] == m[|m| - 1] && r[j1] == m[j1];
      } else {
        assert r[j1] == m[j1] && r[j2] == m[j2];
      }
    }
  }

  lemma SwapRemoveKeys<V>(m: IndexMap<V>, k: string, i: nat)
    requires Wf(m) && i < |m| && m[i].key == k
    ensures forall x :: HasKey(SwapRemove(m, k), x) <==> HasKey(m, x) && x != k
  {
    var r := SwapRemove(m, k);
    SwapRemoveLayout(m, k, i);
    forall x | HasKey(m, x) && x != k ensures HasKey(r, x) {
      var j :| 0 <= j < |m| && m[j].key == x;
      if j == |m| - 1 { assert r[i].key == x; } else { assert r[j].key == x; }
    }
    forall x | HasKey(r, x) ensures HasKey(m, x) && x != k {
      var j :| 0 <= j < |r| && r[j].key == x;
      if j == i { assert m[|m| - 1].key == x; } else { assert m[j].key == x; }
    }
  }

  /** The positions after `swap_remove`, entry by entry. */
  lemma SwapRemoveLayout<V>(m: IndexMap<V>, k: string, i: nat)
    requires Wf(m) && i < |m| && m[i].key == k
    ensures var r := SwapRemove(m, k);
      && |r| == |m| - 1
      && (i < |r| ==> r[i] == m[|m| - 1])
      && (forall j :: 0 <= j < |r| && j != i ==> r[j] == m[j])
  {
    assert Find(m, k) == Some(i);
    var r := SwapRemove(m, k);
    if i == |m| - 1 {
      assert r == m[..i];
    } else {
      assert r == m[..i] + [m[|m| - 1]] + m[i + 1..|m| - 1];
      assert |r| == |m| - 1;
      assert r[i] == m[|m| - 1];
    }
  }

  /** `IndexMap::shift_remove`: the later entries shift down by one. */
  function ShiftRemove<V>(m: IndexMap<V>, k: string): (r: IndexMap<V>)
    ensures !HasKey(m, k) ==> r == m
  {
    match Find(m, k)
    case None => m
    case Some(i) => m[..i] + m[i + 1..]
  }

  /** On a well-formed map `shift_remove` of one key is the same as
      `retain` of every other key: the relative order of the rest is kept. */
  lemma ShiftRemoveIsRemoveKey<V>(m: IndexMap<V>, k: string)
    requires Wf(m)
    ensures ShiftRemove(m, k) == RemoveKeys(m, {k})
  {
    var f := Find(m, k);
    if f.None? {
      RemoveAbsentKeys(m, {k});
    } else {
      KeyOnlyAt(m, f.value);
      RemoveKeyAt(m, f.value);
    }
  }

  /** Removing the key found at `i` and nowhere else cuts out position `i`. */
  lemma RemoveKeyAt<V>(m: IndexMap<V>, i: nat)
    requires i < |m| && !HasKey(m[..i], m[i].key) && !HasKey(m[i + 1..], m[i].key)
    ensures RemoveKeys(m, {m[i].key}) == m[..i] + m[i + 1..]
  {
    var ks := {m[i].key};
    RemoveKeysDropsAt(m, i, ks);
    RemoveAbsentKeys(m[..i], ks);
    RemoveAbsentKeys(m[i + 1..], ks);
  }

  /** An entry whose key is removed leaves no trace between its neighbours. */
  lemma RemoveKeysDropsAt<V>(m: IndexMap<V>, i: nat, ks: set<string>)
    requires i < |m| && m[i].key in ks
    ensures RemoveKeys(m, ks) == RemoveKeys(m[..i], ks) + RemoveKeys(m[i + 1..], ks)
  {
    var a, c := m[..i], m[i..];
    assert m == a + c;
    RemoveKeysAppend(a, c, ks);
    assert c[1..] == m[i + 1..];
  }

  /** In a well-formed map a key is found at one position only. */
  lemma KeyOnlyAt<V>(m: IndexMap<V>, i: nat)
    requires Wf(m) && i < |m|
    ensures !HasKey(m[..i], m[i].key) && !HasKey(m[i + 1..], m[i].key)
  {
  }
}
