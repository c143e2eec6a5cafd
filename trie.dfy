/** The deterministic trie of plover_hatchery/lib/trie/Trie.py: one destination per
    (node, key), keys interned to integer ids, an optional translation per node, and a
    read-only copy keyed by (node, key id) pairs. */
module DeterministicTrie {
  import opened Wrappers

  const ROOT: nat := 0

  /** The fields of a trie: for each node its edges by key id, the translation set on
      each node, and the id of each key. */
  datatype TrieData<K, V> = TrieData(nodes: seq<map<nat, nat>>, translations: map<nat, V>, keys: map<K, nat>)

  /** The root exists, every edge leads to a node under an id already handed out, and
      every key id is below the number of keys (so the next id is free). */
  ghost predicate TrieOk<K, V>(s: TrieData<K, V>) {
    |s.nodes| >= 1
    && (forall v, id :: 0 <= v < |s.nodes| && id in s.nodes[v] ==> s.nodes[v][id] < |s.nodes| && id < |s.keys|)
    && (forall k :: k in s.keys ==> s.keys[k] < |s.keys|)
  }

  /** `s2` keeps every node, edge and key id of `s1`. */
  ghost predicate Grows<K, V>(s1: TrieData<K, V>, s2: TrieData<K, V>) {
    |s1.nodes| <= |s2.nodes|
    && (forall v, id :: 0 <= v < |s1.nodes| && id in s1.nodes[v] ==> id in s2.nodes[v] && s2.nodes[v][id] == s1.nodes[v][id])
    && (forall k :: k in s1.keys ==> k in s2.keys && s2.keys[k] == s1.keys[k])
  }

  /** A trie holding only the root (Trie.py:11-14). */
  function Empty<K, V>(): (s: TrieData<K, V>)
    ensures TrieOk(s) && |s.nodes| == 1
  {
    TrieData([map[]], map[], map[])
  }

  /** The id of `key`, the next free id for a new key (Trie.py:59-65). */
  function KeyId<K, V>(s: TrieData<K, V>, key: K): (r: (TrieData<K, V>, nat))
    requires TrieOk(s)
    ensures TrieOk(r.0) && Grows(s, r.0) && r.0.nodes == s.nodes && r.0.translations == s.translations
    ensures key in r.0.keys && r.0.keys[key] == r.1
    ensures key !in s.keys ==> r.1 == |s.keys| && forall k :: k in s.keys ==> s.keys[k] != r.1
  {
    if key in s.keys then (s, s.keys[key])
    else
      var id := |s.keys|;
      (TrieData(s.nodes, s.translations, s.keys[key := id]), id)
  }

  /** The destination of `key` from `src`, created as a new last node when missing
      (Trie.py:16-27). */
  function DstElseCreate<K, V>(s: TrieData<K, V>, src: nat, key: K): (r: (TrieData<K, V>, nat))
    requires TrieOk(s) && src < |s.nodes|
    ensures TrieOk(r.0) && Grows(s, r.0) && r.1 < |r.0.nodes| && r.0.translations == s.translations
  {
    var (s1, id) := KeyId(s, key);
    if id in s1.nodes[src] then (s1, s1.nodes[src][id])
    else
      var n: nat := |s1.nodes|;
      var edges: map<nat, nat> := s1.nodes[src][id := n];
      (TrieData(s1.nodes[src := edges] + [map[]], s1.translations, s1.keys), n)
  }

  /** Creating is idempotent: the second call finds the node the first one returned
      and changes nothing. */
  lemma DstElseCreateIdempotent<K, V>(s: TrieData<K, V>, src: nat, key: K)
    requires TrieOk(s) && src < |s.nodes|
    ensures DstElseCreate(DstElseCreate(s, src, key).0, src, key) == DstElseCreate(s, src, key)
  {
    var (s1, id) := KeyId(s, key);
    if id !in s1.nodes[src] {
      var r := DstElseCreate(s, src, key);
      assert r.0.nodes[src] == s1.nodes[src][id := |s1.nodes|];
    }
  }

  /** A missing edge makes a node whose id is the old node count, and that is the only
      new node (Trie.py:23-25). */
  lemma DstElseCreateNew<K, V>(s: TrieData<K, V>, src: nat, key: K)
    requires TrieOk(s) && src < |s.nodes|
    requires GetDst(s, src, key).None?
    ensures DstElseCreate(s, src, key).1 == |s.nodes|
    ensures |DstElseCreate(s, src, key).0.nodes| == |s.nodes| + 1
  {
  }

  /** An existing edge is returned as it is and nothing changes but the key table. */
  lemma DstElseCreateExisting<K, V>(s: TrieData<K, V>, src: nat, key: K)
    requires TrieOk(s) && src < |s.nodes|
    requires GetDst(s, src, key).Some?
    ensures DstElseCreate(s, src, key) == (s, GetDst(s, src, key).value)
  {
  }

  /** Follow or create one key after another (Trie.py:29-33). */
  function DstElseCreateChain<K, V>(s: TrieData<K, V>, src: nat, keys: seq<K>): (r: (TrieData<K, V>, nat))
    requires TrieOk(s) && src < |s.nodes|
    ensures TrieOk(r.0) && Grows(s, r.0) && r.1 < |r.0.nodes| && r.0.translations == s.translations
    decreases |keys|
  {
    if |keys| == 0 then (s, src)
    else
      var (s1, n1) := DstElseCreate(s, src, keys[0]);
      var r := DstElseCreateChain(s1, n1, keys[1..]);
      GrowsTrans(s, s1, r.0);
      r
  }

  lemma GrowsTrans<K, V>(s1: TrieData<K, V>, s2: TrieData<K, V>, s3: TrieData<K, V>)
    requires Grows(s1, s2) && Grows(s2, s3)
    ensures Grows(s1, s3)
  {
  }

  /** The destination of `key` from `src`, or None for an unknown key or a missing
      edge (Trie.py:35-40); `src` must be a node, as the source indexes its list. */
  function GetDst<K, V>(s: TrieData<K, V>, src: nat, key: K): (r: Option<nat>)
    requires src < |s.nodes|
    ensures r.Some? <==> key in s.keys && s.keys[key] in s.nodes[src]
    ensures r.Some? ==> r.value == s.nodes[src][s.keys[key]]
  {
    if key !in s.keys then None
    else if s.keys[key] in s.nodes[src] then Some(s.nodes[src][s.keys[key]])
    else None
  }

  /** Follow one key after another, None at the first missing edge (Trie.py:42-48). */
  function GetDstChain<K, V>(s: TrieData<K, V>, src: nat, keys: seq<K>): (r: Option<nat>)
    requires TrieOk(s) && src < |s.nodes|
    ensures r.Some? ==> r.value < |s.nodes|
    decreases |keys|
  {
    if |keys| == 0 then Some(src)
    else match GetDst(s, src, keys[0])
      case None => None
      case Some(n) => GetDstChain(s, n, keys[1..])
  }

  /** A lookup that succeeds keeps succeeding, with the same answer, once the trie has
      grown. */
  lemma {:induction false} GetDstChainGrows<K, V>(s1: TrieData<K, V>, s2: TrieData<K, V>, src: nat, keys: seq<K>)
    requires TrieOk(s1) && TrieOk(s2) && Grows(s1, s2) && src < |s1.nodes|
    requires GetDstChain(s1, src, keys).Some?
    ensures GetDstChain(s2, src, keys) == GetDstChain(s1, src, keys)
    decreases |keys|
  {
    if |keys| > 0 {
      var n := GetDst(s1, src, keys[0]).value;
      assert GetDst(s2, src, keys[0]) == Some(n);
      GetDstChainGrows(s1, s2, n, keys[1..]);
    }
  }

  /** Round trip: after creating the chain `keys` from `src`, looking the chain up
      finds the node the creation returned. */
  lemma {:induction false} CreateThenGetChain<K, V>(s: TrieData<K, V>, src: nat, keys: seq<K>)
    requires TrieOk(s) && src < |s.nodes|
    ensures GetDstChain(DstElseCreateChain(s, src, keys).0, src, keys) == Some(DstElseCreateChain(s, src, keys).1)
    decreases |keys|
  {
    if |keys| > 0 {
      var first := DstElseCreate(s, src, keys[0]);
      var r := DstElseCreateChain(first.0, first.1, keys[1..]);
      assert DstElseCreateChain(s, src, keys) == r;
      CreateThenGetChain(first.0, first.1, keys[1..]);
      CreateThenGet(s, src, keys[0]);
      GetDstGrows(first.0, r.0, src, keys[0]);
    }
  }

  /** After creating, the edge is there. */
  lemma CreateThenGet<K, V>(s: TrieData<K, V>, src: nat, key: K)
    requires TrieOk(s) && src < |s.nodes|
    ensures src < |DstElseCreate(s, src, key).0.nodes|
    ensures GetDst(DstElseCreate(s, src, key).0, src, key) == Some(DstElseCreate(s, src, key).1)
  {
  }

  /** A single lookup that succeeds keeps its answer once the trie has grown. */
  lemma GetDstGrows<K, V>(s1: TrieData<K, V>, s2: TrieData<K, V>, src: nat, key: K)
    requires Grows(s1, s2) && src < |s1.nodes| && GetDst(s1, src, key).Some?
    ensures src < |s2.nodes| && GetDst(s2, src, key) == GetDst(s1, src, key)
  {
  }

  /** Looking up one more key continues from where the shorter chain ended; a chain
      that fails once fails for every extension. */
  lemma {:induction false} GetDstChainSnoc<K, V>(s: TrieData<K, V>, src: nat, keys: seq<K>, key: K)
    requires TrieOk(s) && src < |s.nodes|
    ensures GetDstChain(s, src, keys + [key]) ==
              match GetDstChain(s, src, keys)
              case None => None
              case Some(n) => GetDst(s, n, key)
    decreases |keys|
  {
    if |keys| == 0 {
      assert keys + [key] == [key];
      assert [key][1..] == [];
    } else {
      assert (keys + [key])[0] == keys[0] && (keys + [key])[1..] == keys[1..] + [key];
      match GetDst(s, src, keys[0])
      case None =>
      case Some(n) => GetDstChainSnoc(s, n, keys[1..], key);
    }
  }

  /** Setting a translation overwrites the node's translation only (Trie.py:50-51). */
  function Translated<K, V>(s: TrieData<K, V>, node: nat, translation: V): (r: TrieData<K, V>)
    ensures r.nodes == s.nodes && r.keys == s.keys && r.translations.Keys == s.translations.Keys + {node}
  {
    TrieData(s.nodes, s.translations[node := translation], s.keys)
  }

  /** The translation of `node`, None when none was set (Trie.py:53-54). */
  function TranslationOf<K, V>(s: TrieData<K, V>, node: nat): (r: Option<V>)
    ensures r.Some? <==> node in s.translations
  {
    if node in s.translations then Some(s.translations[node]) else None
  }

  /** Reading after setting gives the value set last, and other nodes keep theirs. */
  lemma SetThenGetTranslation<K, V>(s: TrieData<K, V>, node: nat, translation: V, other: nat)
    ensures TranslationOf(Translated(s, node, translation), node) == Some(translation)
    ensures other != node ==> TranslationOf(Translated(s, node, translation), other) == TranslationOf(s, other)
  {
  }

  /** The edges of the read-only trie: one entry per (node, key id) (Trie.py:91-96). */
  function Flatten(nodes: seq<map<nat, nat>>): (flat: map<(nat, nat), nat>)
    ensures forall v: nat, id: nat :: (v, id) in flat <==> v < |nodes| && id in nodes[v]
    ensures forall v: nat, id: nat :: (v, id) in flat ==> v < |nodes| && flat[(v, id)] == nodes[v][id]
  {
    map v: nat, id: nat | v < |nodes| && id in nodes[v] :: (v, id) := nodes[v][id]
  }

  /** The fields of the read-only trie. */
  datatype ReadonlyData<K, V> = ReadonlyData(flat: map<(nat, nat), nat>, translations: map<nat, V>, keys: map<K, nat>)

  /** The read-only copy made by `frozen` (Trie.py:56-57). */
  function Freeze<K, V>(s: TrieData<K, V>): (r: ReadonlyData<K, V>)
    ensures r.translations == s.translations && r.keys == s.keys
  {
    ReadonlyData(Flatten(s.nodes), s.translations, s.keys)
  }

  /** The read-only lookup of one key (Trie.py:100-105): any node id is accepted. */
  function ReadonlyGetDst<K, V>(r: ReadonlyData<K, V>, src: nat, key: K): Option<nat> {
    if key !in r.keys then None
    else if (src, r.keys[key]) in r.flat then Some(r.flat[(src, r.keys[key])])
    else None
  }

  /** The read-only chain lookup (Trie.py:107-113). */
  function ReadonlyGetDstChain<K, V>(r: ReadonlyData<K, V>, src: nat, keys: seq<K>): Option<nat>
    decreases |keys|
  {
    if |keys| == 0 then Some(src)
    else match ReadonlyGetDst(r, src, keys[0])
      case None => None
      case Some(n) => ReadonlyGetDstChain(r, n, keys[1..])
  }

  /** The frozen copy answers single lookups as the trie does, and answers None for a
      node the trie does not have. */
  lemma FreezeGetDst<K, V>(s: TrieData<K, V>, src: nat, key: K)
    ensures src < |s.nodes| ==> ReadonlyGetDst(Freeze(s), src, key) == GetDst(s, src, key)
    ensures src >= |s.nodes| ==> ReadonlyGetDst(Freeze(s), src, key).None?
  {
  }

  /** The frozen copy answers chain lookups and translation lookups as the trie does. */
  lemma {:induction false} FreezeGetDstChain<K, V>(s: TrieData<K, V>, src: nat, keys: seq<K>)
    requires TrieOk(s) && src < |s.nodes|
    ensures ReadonlyGetDstChain(Freeze(s), src, keys) == GetDstChain(s, src, keys)
    decreases |keys|
  {
    if |keys| > 0 {
      FreezeGetDst(s, src, keys[0]);
      match GetDst(s, src, keys[0])
      case None =>
      case Some(n) => FreezeGetDstChain(s, n, keys[1..]);
    }
  }

  /** The mutable trie of Trie.py. */
  class Trie<K(==), V> {
    var nodes: seq<map<nat, nat>>
    var translations: map<nat, V>
    var keys: map<K, nat>

    function Data(): TrieData<K, V>
      reads this
    {
      TrieData(nodes, translations, keys)
    }

    ghost predicate Valid()
      reads this
    {
      TrieOk(Data())
    }

    /** Only the root (Trie.py:11-14). */
    constructor ()
      ensures Data() == Empty() && Valid()
    {
      nodes := [map[]];
      translations := map[];
      keys := map[];
    }

    method GetKeyId(key: K) returns (id: nat)
      requires Valid()
      modifies this
      ensures Data() == KeyId(old(Data()), key).0 && id == KeyId(old(Data()), key).1 && Valid()
    {
      if key in keys {
        return keys[key];
      }
      id := |keys|;
      keys := keys[key := id];
    }

    /** Trie.py:16-27. */
    method GetDstNodeElseCreate(src: nat, key: K) returns (dst: nat)
      requires Valid() && src < |nodes|
      modifies this
      ensures Data() == DstElseCreate(old(Data()), src, key).0 && dst == DstElseCreate(old(Data()), src, key).1
      ensures Valid()
    {
      var id := GetKeyId(key);
      if id in nodes[src] {
        return nodes[src][id];
      }
      dst := |nodes|;
      var edges: map<nat, nat> := nodes[src][id := dst];
      nodes := nodes[src := edges];
      nodes := nodes + [map[]];
    }

    /** Trie.py:29-33. */
    method GetDstNodeElseCreateChain(src: nat, ks: seq<K>) returns (dst: nat)
      requires Valid() && src < |nodes|
      modifies this
      ensures Data() == DstElseCreateChain(old(Data()), src, ks).0 && dst == DstElseCreateChain(old(Data()), src, ks).1
      ensures Valid()
    {
      ghost var goal := DstElseCreateChain(Data(), src, ks);
      dst := src;
      for i := 0 to |ks|
        invariant Valid() && dst < |nodes|
        invariant goal == DstElseCreateChain(Data(), dst, ks[i..])
      {
        assert ks[i..][0] == ks[i] && ks[i..][1..] == ks[i + 1..];
        dst := GetDstNodeElseCreate(dst, ks[i]);
      }
    }

    /** Trie.py:35-40. */
    function GetDstNode(src: nat, key: K): (r: Option<nat>)
      reads this
      requires src < |nodes|
      ensures r == GetDst(Data(), src, key)
    {
      if key !in keys then None
      else if keys[key] in nodes[src] then Some(nodes[src][keys[key]])
      else None
    }

    /** Trie.py:42-48. */
    method GetDstNodeChain(src: nat, ks: seq<K>) returns (r: Option<nat>)
      requires Valid() && src < |nodes|
      ensures r == GetDstChain(Data(), src, ks)
    {
      var current: nat := src;
      for i := 0 to |ks|
        invariant current < |nodes|
        invariant GetDstChain(Data(), src, ks) == GetDstChain(Data(), current, ks[i..])
      {
        assert ks[i..][0] == ks[i] && ks[i..][1..] == ks[i + 1..];
        var next := GetDstNode(current, ks[i]);
        if next.None? {
          return None;
        }
        current := next.value;
      }
      assert ks[|ks|..] == [];
      return Some(current);
    }

    /** Trie.py:50-51. */
    method SetTranslation(node: nat, translation: V)
      modifies this
      ensures Data() == Translated(old(Data()), node, translation)
    {
      translations := translations[node := translation];
    }

    /** Trie.py:53-54. */
    function GetTranslation(node: nat): (r: Option<V>)
      reads this
      ensures r == TranslationOf(Data(), node)
    {
      if node in translations then Some(translations[node]) else None
    }

    /** A read-only copy (Trie.py:56-57). */
    method Frozen() returns (r: ReadonlyTrie<K, V>)
      ensures fresh(r) && r.Data() == Freeze(Data())
    {
      r := new ReadonlyTrie(nodes, translations, keys);
    }
  }

  /** The read-only trie of Trie.py:87-116. */
  class ReadonlyTrie<K(==), V> {
    var flat: map<(nat, nat), nat>
    var translations: map<nat, V>
    var keys: map<K, nat>

    function Data(): ReadonlyData<K, V>
      reads this
    {
      ReadonlyData(flat, translations, keys)
    }

    /** Flatten the node list into (node, key id) entries (Trie.py:91-98). */
    constructor (nodes: seq<map<nat, nat>>, translations: map<nat, V>, keys: map<K, nat>)
      ensures Data() == ReadonlyData(Flatten(nodes), translations, keys)
    {
      flat := Flatten(nodes);
      this.translations := translations;
      this.keys := keys;
    }

    /** Trie.py:100-105. */
    function GetDstNode(src: nat, key: K): (r: Option<nat>)
      reads this
      ensures r == ReadonlyGetDst(Data(), src, key)
    {
      if key !in keys then None
      else if (src, keys[key]) in flat then Some(flat[(src, keys[key])])
      else None
    }

    /** Trie.py:107-113. */
    method GetDstNodeChain(src: nat, ks: seq<K>) returns (r: Option<nat>)
      ensures r == ReadonlyGetDstChain(Data(), src, ks)
    {
      var current: nat := src;
      for i := 0 to |ks|
        invariant ReadonlyGetDstChain(Data(), src, ks) == ReadonlyGetDstChain(Data(), current, ks[i..])
      {
        assert ks[i..][0] == ks[i] && ks[i..][1..] == ks[i + 1..];
        var next := GetDstNode(current, ks[i]);
        if next.None? {
          return None;
        }
        current := next.value;
      }
      assert ks[|ks|..] == [];
      return Some(current);
    }

    /** Trie.py:115-116. */
    function GetTranslation(node: nat): (r: Option<V>)
      reads this
      ensures r.Some? <==> node in translations
      ensures r.Some? ==> r.value == translations[node]
    {
      if node in translations then Some(translations[node]) else None
    }
  }
}
