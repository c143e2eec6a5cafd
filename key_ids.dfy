/** Key interning: every key seen gets the next free integer id, and the key can be
    read back from its id (plover_hatchery/lib/trie/KeyIdManager.py, and the same
    bookkeeping inside plover_hatchery/lib/trie/NondeterministicTrie.py:420-430).
    `None` stands for the epsilon key and has no id. */
module KeyIds {
  import opened Wrappers

  /** An interning table: the id of each key and the keys in id order. */
  datatype KeyTable<K> = KeyTable(ids: map<K, nat>, keys: seq<K>)

  /** Ids are 0, 1, 2, ... in order of first appearance and `keys` inverts `ids`. */
  predicate Interned<K(==)>(t: KeyTable<K>) {
    |t.ids| == |t.keys|
    && (forall k :: k in t.ids ==> t.ids[k] < |t.keys| && t.keys[t.ids[k]] == k)
    && (forall i :: 0 <= i < |t.keys| ==> t.keys[i] in t.ids && t.ids[t.keys[i]] == i)
  }

  /** `t2` knows every key `t1` knows, under the same id. */
  predicate Keeps<K(==)>(t1: KeyTable<K>, t2: KeyTable<K>) {
    t1.keys <= t2.keys && forall k :: k in t1.ids ==> k in t2.ids && t2.ids[k] == t1.ids[k]
  }

  function EmptyTable<K>(): (t: KeyTable<K>)
    ensures Interned(t) && |t.keys| == 0
  {
    KeyTable(map[], [])
  }

  /** The id of `key`, created when the key is new; `None` for the epsilon key
      (KeyIdManager.py:9-19). */
  function Intern<K(==)>(t: KeyTable<K>, key: Option<K>): (r: (KeyTable<K>, Option<nat>))
    requires Interned(t)
    ensures Interned(r.0) && Keeps(t, r.0)
    ensures key.None? <==> r.1.None?
    ensures key.Some? ==> key.value in r.0.ids && r.1 == Some(r.0.ids[key.value]) && r.0.keys[r.1.value] == key.value
    ensures key.Some? && key.value !in t.ids ==> r.1 == Some(|t.ids|) && r.0.keys == t.keys + [key.value]
    ensures key.None? || key.value in t.ids ==> r.0 == t
  {
    match key
    case None => (t, None)
    case Some(k) =>
      if k in t.ids then (t, Some(t.ids[k]))
      else
        var id := |t.ids|;
        var t2 := KeyTable(t.ids[k := id], t.keys + [k]);
        assert forall j :: 0 <= j < |t.keys| ==> t.keys[j] != k;
        (t2, Some(id))
  }

  /** Interning a key a second time returns the id of the first time and changes
      nothing. */
  lemma InternIdempotent<K>(t: KeyTable<K>, key: Option<K>)
    requires Interned(t)
    ensures Intern(Intern(t, key).0, key) == (Intern(t, key).0, Intern(t, key).1)
  {
  }

  /** Interning each key in order (KeyIdManager.py:32-33). */
  function InternAll<K(==)>(t: KeyTable<K>, keys: seq<Option<K>>): (r: (KeyTable<K>, seq<Option<nat>>))
    requires Interned(t)
    ensures Interned(r.0) && |r.1| == |keys|
    decreases |keys|
  {
    if |keys| == 0 then (t, [])
    else
      var r1 := Intern(t, keys[0]);
      var r2 := InternAll(r1.0, keys[1..]);
      (r2.0, [r1.1] + r2.1)
  }

  /** After interning a sequence, every key in it is known, the i-th id is the id the
      final table gives the i-th key, and no key known before changed its id. */
  lemma {:induction false} InternAllProps<K>(t: KeyTable<K>, keys: seq<Option<K>>)
    requires Interned(t)
    ensures Keeps(t, InternAll(t, keys).0)
    ensures forall i :: 0 <= i < |keys| ==> IdOf(InternAll(t, keys).0, keys[i], InternAll(t, keys).1[i])
    decreases |keys|
  {
    if |keys| > 0 {
      var r1 := Intern(t, keys[0]);
      InternAllProps(r1.0, keys[1..]);
      var r := InternAll(t, keys);
      assert r.1 == [r1.1] + InternAll(r1.0, keys[1..]).1;
      forall i | 0 <= i < |keys|
        ensures IdOf(r.0, keys[i], r.1[i])
      {
        if i > 0 {
          assert keys[1..][i - 1] == keys[i];
        }
      }
    }
  }

  /** `id` is what table `t` says for `key`: nothing for the epsilon key, otherwise the
      key's id. */
  predicate IdOf<K(==)>(t: KeyTable<K>, key: Option<K>, id: Option<nat>) {
    match key
    case None => id.None?
    case Some(k) => k in t.ids && id == Some(t.ids[k])
  }

  /** One more key at the end: its id comes from the table the others left. */
  lemma {:induction false} InternAllSnoc<K>(t: KeyTable<K>, keys: seq<Option<K>>, key: Option<K>)
    requires Interned(t)
    ensures InternAll(t, keys + [key]).0 == Intern(InternAll(t, keys).0, key).0
    ensures InternAll(t, keys + [key]).1 == InternAll(t, keys).1 + [Intern(InternAll(t, keys).0, key).1]
    decreases |keys|
  {
    if |keys| == 0 {
      assert keys + [key] == [key];
    } else {
      assert (keys + [key])[1..] == keys[1..] + [key];
      InternAllSnoc(Intern(t, keys[0]).0, keys[1..], key);
    }
  }

  /** How the epsilon key is printed: the Greek letter epsilon in parentheses. */
  const EPSILON_LABEL: string := "(\U{03B5})"

  /** The interning table of plover_hatchery/lib/trie/KeyIdManager.py. */
  class KeyIdManager<K(==)> {
    var keysToIds: map<K, nat>
    var keysList: seq<K>

    function Table(): KeyTable<K>
      reads this
    {
      KeyTable(keysToIds, keysList)
    }

    ghost predicate Valid()
      reads this
    {
      Interned(Table())
    }

    /** An empty table (KeyIdManager.py:5-7). */
    constructor ()
      ensures Valid() && keysToIds == map[] && keysList == []
    {
      keysToIds := map[];
      keysList := [];
    }

    /** The id of `key`, allocating the next one for a new key (KeyIdManager.py:9-19). */
    method GetKeyIdElseCreate(key: Option<K>) returns (id: Option<nat>)
      requires Valid()
      modifies this
      ensures Valid()
      ensures Table() == Intern(old(Table()), key).0 && id == Intern(old(Table()), key).1
    {
      if key.None? {
        return None;
      }
      var k := key.value;
      if k in keysToIds {
        return Some(keysToIds[k]);
      }
      var newId := |keysToIds|;
      keysToIds := keysToIds[k := newId];
      keysList := keysList + [k];
      id := Some(newId);
    }

    /** The key with id `id`; an id that was never handed out is an index error in
        the source (KeyIdManager.py:22-23). */
    function GetKey(id: nat): (k: K)
      reads this
      requires Valid() && id < |keysList|
      ensures k in keysToIds && keysToIds[k] == id
    {
      keysList[id]
    }

    /** A printable form of a key id: "(ε)" for the epsilon key, otherwise the key
        as `show` prints it (KeyIdManager.py:26-30). */
    function GetKeyStr(id: Option<nat>, show: K -> string): (s: string)
      reads this
      requires Valid() && (id.Some? ==> id.value < |keysList|)
      ensures id.None? ==> s == EPSILON_LABEL
      ensures id.Some? ==> exists k :: k in keysToIds && keysToIds[k] == id.value && s == show(k)
    {
      match id
      case None => EPSILON_LABEL
      case Some(i) =>
        assert keysList[i] in keysToIds;
        show(keysList[i])
    }

    /** The ids of `keys` in order, allocating ids for new keys (KeyIdManager.py:32-33). */
    method GetKeyIdsElseCreate(keys: seq<K>) returns (ids: seq<nat>)
      requires Valid()
      modifies this
      ensures Valid()
      ensures Table() == InternAll(old(Table()), Lift(keys)).0
      ensures |ids| == |keys| && forall i :: 0 <= i < |keys| ==> keys[i] in keysToIds && ids[i] == keysToIds[keys[i]]
    {
      ghost var t0 := Table();
      ghost var got: seq<Option<nat>> := [];
      ids := [];
      for i := 0 to |keys|
        invariant Valid() && |ids| == i && |got| == i
        invariant Table() == InternAll(t0, Lift(keys[..i])).0
        invariant got == InternAll(t0, Lift(keys[..i])).1
        invariant forall j :: 0 <= j < i ==> got[j] == Some(ids[j])
      {
        var id := GetKeyIdAt(keys, i, t0);
        ids := ids + [id.value];
        got := got + [id];
      }
      assert keys[..|keys|] == keys;
      InternedIds(t0, keys, got, ids);
    }

    /** One turn of the loop of `get_key_ids_else_create`: the keys before `i` have been
        interned on top of `t0`, and key `i` is interned next. */
    method GetKeyIdAt(keys: seq<K>, i: nat, ghost t0: KeyTable<K>) returns (id: Option<nat>)
      requires Valid() && i < |keys| && Interned(t0)
      requires Table() == InternAll(t0, Lift(keys[..i])).0
      modifies this
      ensures Valid() && id.Some?
      ensures Table() == InternAll(t0, Lift(keys[..i + 1])).0
      ensures InternAll(t0, Lift(keys[..i + 1])).1 == InternAll(t0, Lift(keys[..i])).1 + [id]
    {
      id := GetKeyIdElseCreate(Some(keys[i]));
      assert keys[..i + 1] == keys[..i] + [keys[i]];
      LiftSnoc(keys[..i], keys[i]);
      InternAllSnoc(t0, Lift(keys[..i]), Some(keys[i]));
    }
  }

  /** Every key as a present key. */
  function Lift<K>(keys: seq<K>): (r: seq<Option<K>>)
    ensures |r| == |keys| && forall i :: 0 <= i < |keys| ==> r[i] == Some(keys[i])
  {
    seq(|keys|, i requires 0 <= i < |keys| => Some(keys[i]))
  }

  lemma LiftSnoc<K>(keys: seq<K>, k: K)
    ensures Lift(keys + [k]) == Lift(keys) + [Some(k)]
  {
    assert |Lift(keys + [k])| == |Lift(keys) + [Some(k)]|;
  }

  /** The ids read off an interning of present keys are the final table's ids. */
  lemma InternedIds<K>(t: KeyTable<K>, keys: seq<K>, got: seq<Option<nat>>, ids: seq<nat>)
    requires Interned(t) && got == InternAll(t, Lift(keys)).1
    requires |ids| == |keys| && forall j :: 0 <= j < |keys| ==> got[j] == Some(ids[j])
    ensures forall i :: 0 <= i < |keys| ==>
              keys[i] in InternAll(t, Lift(keys)).0.ids && ids[i] == InternAll(t, Lift(keys)).0.ids[keys[i]]
  {
    InternAllProps(t, Lift(keys));
    forall i | 0 <= i < |keys|
      ensures keys[i] in InternAll(t, Lift(keys)).0.ids && ids[i] == InternAll(t, Lift(keys)).0.ids[keys[i]]
    {
      assert IdOf(InternAll(t, Lift(keys)).0, Lift(keys)[i], got[i]);
    }
  }
}
