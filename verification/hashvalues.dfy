// HashValues (internal/set/material.go): the hash of a list of values, computed from their
// texts alone, is the hash the set keeps incrementally.
module HashValues {
  import opened Types
  import opened XorFold
  import opened SetModel
  import opened Durable

  // The hashes of the values at the given positions.
  function HashesAt(c: Config, key: Key, values: seq<Text>): map<int, Hash>
  {
    map i | 0 <= i < |values| :: TextHash(c, key, values[i])
  }

  method HashValues(c: Config, key: Key, values: seq<Text>) returns (h: Hash)
    ensures h == XorAll(HashesAt(c, key, values))
  {
    hide TextHash, Xor;
    h := 0;
    assert HashesAt(c, key, values[..0]) == map[];
    for i := 0 to |values|
      invariant h == XorAll(HashesAt(c, key, values[..i]))
    {
      var x := TextHash(c, key, values[i]);
      XorInsert(HashesAt(c, key, values[..i]), i, x);
      assert HashesAt(c, key, values[..i + 1]) == HashesAt(c, key, values[..i])[i := x];
      h := Xor(h, x);
    }
    assert values[..|values|] == values;
  }

  // Over any listing of the entries, in any order, that is the XOR of the stored hashes:
  // an outsider who knows key and values can check the hash the keeper announces.
  lemma ListedHash(c: Config, key: Key, e: Entries, values: seq<Text>)
    requires CanonHashes(c, key, e)
    requires forall i, j :: 0 <= i < j < |values| ==> values[i] != values[j]
    requires forall v :: v in e <==> v in values
    ensures XorAll(HashesAt(c, key, values)) == XorOf(e)
  {
    hide TextHash;
    var place := map i: int | 0 <= i < |values| :: values[i];
    forall v | v in Hashes(e)
      ensures exists i :: i in HashesAt(c, key, values) && place[i] == v
    {
      var i :| 0 <= i < |values| && values[i] == v;
      assert place[i] == v;
    }
    XorRename(HashesAt(c, key, values), Hashes(e), place);
  }
}
