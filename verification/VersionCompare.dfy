/** Whether the server offers what the component table already holds. */
module VersionCompare {
  import opened Structs
  import opened FirmwareTables

  /** What the comparison looks at in a component. */
  datatype Key = Key(versionId: string, size: int64, verifyInfo: string)

  function KeyOf(c: Component): Key {
    Key(c.versionId, c.size, c.verifyInfo)
  }

  function Keys(components: seq<Component>): (r: seq<Key>)
    ensures |r| == |components|
    ensures forall i :: 0 <= i < |r| ==> r[i] == KeyOf(components[i])
  {
    seq(|components|, i requires 0 <= i < |components| => KeyOf(components[i]))
  }

  predicate Found(db: seq<Component>, c: Component) {
    var row := QueryByVersionId(db, c.versionId);
    row.Some? && row.value.size == c.size && row.value.verifyInfo == c.verifyInfo
  }

  /** Equal lengths, and each offered component is the first row with its version id. */
  predicate SameWithDb(db: seq<Component>, server: seq<Component>) {
    |db| == |server| && forall c :: c in server ==> Found(db, c)
  }

  method IsVersionSameWithDb(db: seq<Component>, server: seq<Component>) returns (same: bool)
    ensures same == SameWithDb(db, server)
  {
    if |db| != |server| {
      return false;
    }
    for i := 0 to |server|
      invariant forall c :: c in server[..i] ==> Found(db, c)
    {
      var row := QueryByVersionId(db, server[i].versionId);
      if row.None? || row.value.size != server[i].size || row.value.verifyInfo != server[i].verifyInfo {
        assert !Found(db, server[i]) && server[i] in server;
        return false;
      }
      assert server[..i + 1] == server[..i] + [server[i]];
    }
    assert server[..|server|] == server;
    return true;
  }

  ghost predicate DistinctIds(components: seq<Component>) {
    forall i, j :: 0 <= i < j < |components| ==> components[i].versionId != components[j].versionId
  }

  ghost predicate Permutation(db: seq<Component>, server: seq<Component>) {
    multiset(Keys(db)) == multiset(Keys(server))
  }

  /** Pigeonhole: distinct keys, all among equally many others, are exactly those others. */
  lemma {:induction false} DistinctFill(keys: seq<Key>, others: seq<Key>)
    requires |keys| == |others|
    requires forall i, j :: 0 <= i < j < |keys| ==> keys[i] != keys[j]
    requires forall k :: k in keys ==> k in others
    ensures multiset(keys) == multiset(others)
    decreases |keys|
  {
    if keys != [] {
      var k, rest := keys[0], keys[1..];
      assert keys == [k] + rest;
      assert k in keys && k in others;
      var at :| 0 <= at < |others| && others[at] == k;
      var left := others[..at] + others[at + 1..];
      RemovedOne(others, at);
      forall x | x in rest
        ensures x in left
      {
        var i :| 0 <= i < |rest| && rest[i] == x;
        assert keys[i + 1] == x && x in keys && x in others;
        assert x in multiset(others) && x != k;
        assert x in multiset(left);
      }
      DistinctFill(rest, left);
    }
  }

  lemma RemovedOne(s: seq<Key>, at: nat)
    requires at < |s|
    ensures multiset(s) == multiset(s[..at] + s[at + 1..]) + multiset{s[at]}
  {
    assert s == s[..at] + [s[at]] + s[at + 1..];
  }

  lemma FoundHasKey(db: seq<Component>, c: Component)
    requires Found(db, c)
    ensures KeyOf(c) in Keys(db)
  {
    var row := QueryByVersionId(db, c.versionId).value;
    var i :| 0 <= i < |db| && db[i] == row;
    assert Keys(db)[i] == KeyOf(c);
  }

  lemma SameIsPermutation(db: seq<Component>, server: seq<Component>)
    requires DistinctIds(server) && SameWithDb(db, server)
    ensures Permutation(db, server)
  {
    forall k | k in Keys(server)
      ensures k in Keys(db)
    {
      var i :| 0 <= i < |server| && Keys(server)[i] == k;
      assert server[i] in server;
      FoundHasKey(db, server[i]);
    }
    DistinctFill(Keys(server), Keys(db));
  }

  lemma PermutationSameLength(db: seq<Component>, server: seq<Component>)
    requires Permutation(db, server)
    ensures |db| == |server|
  {
    assert |multiset(Keys(db))| == |Keys(db)|;
    assert |multiset(Keys(server))| == |Keys(server)|;
  }

  /** In a permutation of distinct ids, the row a lookup finds can only be the one with the whole key. */
  lemma PermutationFound(db: seq<Component>, server: seq<Component>, i: nat)
    requires DistinctIds(server) && Permutation(db, server) && i < |server|
    ensures Found(db, server[i])
  {
    var id := server[i].versionId;
    assert Keys(server)[i] in multiset(Keys(server));
    var j :| 0 <= j < |db| && Keys(db)[j] == KeyOf(server[i]);
    var row := QueryByVersionId(db, id);
    assert db[j].versionId == id;
    assert row.Some?;
    var n :| 0 <= n < |db| && db[n] == row.value;
    assert Keys(db)[n] in multiset(Keys(server));
    var m :| 0 <= m < |server| && Keys(server)[m] == Keys(db)[n];
    assert server[m].versionId == id;
    assert m == i;
  }

  /** When the offered version ids are distinct, the comparison says "same" exactly when the two lists are
      permutations of each other on version id, size and digest. */
  lemma SameIffPermutation(db: seq<Component>, server: seq<Component>)
    requires DistinctIds(server)
    ensures SameWithDb(db, server) <==> Permutation(db, server)
  {
    if SameWithDb(db, server) {
      SameIsPermutation(db, server);
    }
    if Permutation(db, server) {
      PermutationSameLength(db, server);
      forall c | c in server
        ensures Found(db, c)
      {
        var i :| 0 <= i < |server| && server[i] == c;
        PermutationFound(db, server, i);
      }
    }
  }

  /** Rows stored from an analysed response: no ids, its sizes and digests. */
  predicate StoredFrom(db: seq<Component>, items: seq<ServerItem>) {
    && |db| == |items|
    && forall i :: 0 <= i < |db| ==>
         db[i].versionId == "" && db[i].size == items[i].size && db[i].verifyInfo == items[i].verifyInfo
  }

  predicate AllAlike(items: seq<ServerItem>) {
    forall i :: 0 <= i < |items| ==> items[i].size == items[0].size && items[i].verifyInfo == items[0].verifyInfo
  }

  /** Ids that are not distinct spoil it: every lookup finds the first row. A response offered again compares equal
      to what was stored of it exactly when all its packages have one size and one digest. */
  lemma RecheckSame(db: seq<Component>, items: seq<ServerItem>)
    requires items != [] && StoredFrom(db, items)
    ensures SameWithDb(db, Analysed(items)) <==> AllAlike(items)
  {
    var list := Analysed(items);
    assert QueryByVersionId(db, "") == Some(db[0]);
    if SameWithDb(db, list) {
      forall i | 0 <= i < |items|
        ensures items[i].size == items[0].size && items[i].verifyInfo == items[0].verifyInfo
      {
        assert list[i] in list;
        assert Found(db, list[i]);
      }
    }
  }
}
