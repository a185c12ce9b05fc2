// The XOR of a finite family of 64-bit hashes, independent of any order.
module XorFold {
  import opened Types

  ghost function XorAll<K>(m: map<K, Hash>): Hash
  {
    if m == map[] then 0 else
      var k :| k in m;
      Xor(m[k], XorAll(m - {k}))
  }

  lemma XorSwap(a: Hash, b: Hash, c: Hash)
    ensures Xor(a, Xor(b, c)) == Xor(b, Xor(a, c))
  {}

  lemma XorComm(a: Hash, b: Hash)
    ensures Xor(a, b) == Xor(b, a)
  {}

  lemma XorCancel(a: Hash, b: Hash)
    ensures Xor(Xor(a, b), a) == b && Xor(Xor(b, a), a) == b
  {
    assert Xor(a ^ b, a) == b;
  }

  // The defining equation, with the key the definition happened to choose.
  lemma XorChoice<K>(m: map<K, Hash>) returns (k: K)
    requires m != map[]
    ensures k in m && XorAll(m) == Xor(m[k], XorAll(m - {k}))
  {
    k :| k in m && XorAll(m) == Xor(m[k], XorAll(m - {k}));
  }

  // Any key may be taken out first: the choice inside XorAll does not matter.
  lemma {:induction false} XorRemove<K>(m: map<K, Hash>, k: K)
    requires k in m
    ensures XorAll(m) == Xor(m[k], XorAll(m - {k}))
    decreases |m|
  {
    hide Xor;
    var first := XorChoice(m);
    if first != k {
      var both := m - {first, k};
      assert (m - {first}) - {k} == both && (m - {k}) - {first} == both;
      XorRemove(m - {first}, k);
      XorRemove(m - {k}, first);
      XorSwap(m[first], m[k], XorAll(both));
    }
  }

  lemma {:induction false} XorInsert<K>(m: map<K, Hash>, k: K, h: Hash)
    requires k !in m
    ensures XorAll(m[k := h]) == Xor(XorAll(m), h)
  {
    hide Xor;
    XorRemove(m[k := h], k);
    assert m[k := h] - {k} == m;
    XorComm(h, XorAll(m));
  }

  lemma {:induction false} XorDelete<K>(m: map<K, Hash>, k: K)
    requires k in m
    ensures XorAll(m - {k}) == Xor(XorAll(m), m[k])
  {
    hide Xor;
    XorRemove(m, k);
    XorCancel(m[k], XorAll(m - {k}));
  }

  // Renaming the keys one-to-one keeps the XOR.
  lemma {:induction false} XorRename<K, L>(a: map<K, Hash>, b: map<L, Hash>, f: map<K, L>)
    requires f.Keys == a.Keys
    requires forall k, k' :: k in a && k' in a && f[k] == f[k'] ==> k == k'
    requires forall k :: k in a ==> f[k] in b && b[f[k]] == a[k]
    requires forall l :: l in b ==> exists k :: k in a && f[k] == l
    ensures XorAll(a) == XorAll(b)
    decreases |a|
  {
    hide Xor;
    if a != map[] {
      var k :| k in a;
      XorRemove(a, k);
      XorRemove(b, f[k]);
      var a', b' := a - {k}, b - {f[k]};
      forall l | l in b'
        ensures exists j :: j in a' && f[j] == l
      {
        var j :| j in a && f[j] == l;
        assert j in a';
      }
      XorRename(a', b', f - {k});
    } else {
      assert b.Keys == {};
      assert b == map[];
    }
  }
}
