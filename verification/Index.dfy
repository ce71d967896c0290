/** The embedded index (pkg/store/index.go): a forward map from hash to relative path and, per
    namespace, a list of hashes. A bolt transaction is atomic, so each operation is one update. */
module Index {
  import opened Wrappers
  import opened Paths

  datatype IndexState = IndexState(paths: map<string, Path>, lists: map<string, seq<string>>)

  const EmptyIndex := IndexState(map[], map[])

  function Listed(x: IndexState, namespace: string): seq<string> {
    if namespace in x.lists then x.lists[namespace] else []
  }

  /** The state after Put. */
  function WithEntry(x: IndexState, hash: string, namespace: string, rel: Path): IndexState {
    IndexState(x.paths[hash := rel],
               if namespace == "" || hash in Listed(x, namespace) then x.lists
               else x.lists[namespace := Listed(x, namespace) + [hash]])
  }

  /** The hashes of a list other than `hash`, in order. */
  function Without(hashes: seq<string>, hash: string): (r: seq<string>)
    ensures hash !in r
    ensures forall h :: h in r ==> h in hashes
    ensures hash !in hashes ==> r == hashes
  {
    if hashes == [] then []
    else
      var n := |hashes| - 1;
      assert hashes == hashes[..n] + [hashes[n]];
      if hashes[n] == hash then Without(hashes[..n], hash) else Without(hashes[..n], hash) + [hashes[n]]
  }

  /** The state after Delete. */
  function WithoutEntry(x: IndexState, hash: string, namespace: string): IndexState {
    IndexState(x.paths - {hash},
               if namespace !in x.lists || namespace == "" then x.lists
               else if Without(x.lists[namespace], hash) == [] then x.lists - {namespace}
               else x.lists[namespace := Without(x.lists[namespace], hash)])
  }

  ghost predicate NoDuplicates(s: seq<string>) {
    forall i, j | 0 <= i < j < |s| :: s[i] != s[j]
  }

  /** Namespace lists are never empty, never repeat a hash, and there is none for the empty namespace. */
  ghost predicate WellFormed(x: IndexState) {
    forall ns | ns in x.lists :: ns != "" && x.lists[ns] != [] && NoDuplicates(x.lists[ns])
  }

  lemma {:induction false} WithoutKeepsDistinct(s: seq<string>, hash: string)
    requires NoDuplicates(s)
    ensures NoDuplicates(Without(s, hash))
  {
    if s != [] {
      var n := |s| - 1;
      WithoutKeepsDistinct(s[..n], hash);
      forall i | 0 <= i < |Without(s[..n], hash)| ensures Without(s[..n], hash)[i] != s[n] {
        assert Without(s[..n], hash)[i] in s[..n];
      }
    }
  }

  lemma UpdatesKeepWellFormed(x: IndexState, hash: string, namespace: string, rel: Path)
    requires WellFormed(x)
    ensures WellFormed(WithEntry(x, hash, namespace, rel))
    ensures WellFormed(WithoutEntry(x, hash, namespace))
  {
    if namespace in x.lists { WithoutKeepsDistinct(x.lists[namespace], hash); }
  }

  /** Deleting a fresh entry under its own namespace undoes the Put, whatever else is indexed. */
  lemma DeleteUndoesPut(x: IndexState, hash: string, namespace: string, rel: Path)
    requires WellFormed(x) && hash !in x.paths && hash !in Listed(x, namespace)
    ensures WithoutEntry(WithEntry(x, hash, namespace, rel), hash, namespace) == x
  {
    var before := Listed(x, namespace);
    assert (before + [hash])[..|before|] == before;
    assert Without(before + [hash], hash) == before;
    assert x.paths[hash := rel] - {hash} == x.paths;
    if namespace != "" && namespace !in x.lists {
      assert x.lists[namespace := [hash]] - {namespace} == x.lists;
    } else if namespace != "" {
      assert x.lists[namespace := before + [hash]][namespace := before] == x.lists;
    }
  }

  /** Deleting with the empty namespace, as the store does, leaves the hash in every namespace list. */
  lemma StoreDeleteLeavesDeadHashes(x: IndexState, hash: string)
    ensures WithoutEntry(x, hash, "").lists == x.lists
    ensures hash !in WithoutEntry(x, hash, "").paths
  {
  }

  class Index {
    var cassettes: map<string, Path>
    var namespaces: map<string, seq<string>>

    function View(): IndexState
      reads this
    {
      IndexState(cassettes, namespaces)
    }

    constructor ()
      ensures View() == EmptyIndex
    {
      cassettes, namespaces := map[], map[];
    }

    method Put(hash: string, namespace: string, relPath: Path)
      modifies this
      ensures View() == WithEntry(old(View()), hash, namespace, relPath)
    {
      cassettes := cassettes[hash := relPath];
      if namespace != "" {
        var hashes := [];
        if namespace in namespaces { hashes := namespaces[namespace]; }
        var found := false;
        var i := 0;
        while i < |hashes|
          invariant 0 <= i <= |hashes|
          invariant found <==> hash in hashes[..i]
        {
          if hashes[i] == hash {
            found := true;
            assert hashes[i] in hashes;
            break;
          }
          i := i + 1;
        }
        if !found {
          assert hashes[..i] == hashes;
          namespaces := namespaces[namespace := hashes + [hash]];
        }
      }
    }

    method GetPath(hash: string) returns (path: Option<Path>)
      ensures path == if hash in View().paths then Some(View().paths[hash]) else None
    {
      if hash !in cassettes { return None; }
      path := Some(cassettes[hash]);
    }

    method GetHashesByNamespace(namespace: string) returns (hashes: seq<string>)
      ensures hashes == Listed(View(), namespace)
    {
      hashes := [];
      if namespace in namespaces { hashes := namespaces[namespace]; }
    }

    method Delete(hash: string, namespace: string)
      modifies this
      ensures View() == WithoutEntry(old(View()), hash, namespace)
    {
      cassettes := cassettes - {hash};
      if namespace != "" && namespace in namespaces {
        var hashes := namespaces[namespace];
        var newHashes := [];
        for i := 0 to |hashes|
          invariant newHashes == Without(hashes[..i], hash)
        {
          assert hashes[..i + 1][..i] == hashes[..i];
          if hashes[i] != hash { newHashes := newHashes + [hashes[i]]; }
        }
        assert hashes[..|hashes|] == hashes;
        if |newHashes| == 0 {
          namespaces := namespaces - {namespace};
        } else {
          namespaces := namespaces[namespace := newHashes];
        }
      }
    }
  }
}
