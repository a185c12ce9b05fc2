// The order of snapshot records (less in internal/wire/pack.go) and sorting by it.
module PackOrder {
  import opened Types
  import opened NetPrefix
  import opened Codec

  // Bytewise text order; a proper prefix comes first.
  predicate TextLess(a: Bytes, b: Bytes)
  {
    b != [] && (a == [] || a[0] < b[0] || (a[0] == b[0] && TextLess(a[1..], b[1..])))
  }

  function Octets(a: Addr): Bytes
  {
    match a
    case NoAddr => []
    case V4(b) => b
    case V6(b) => b
  }

  // netip's Compare < 0: by width, then by address.
  predicate AddrLess(a: Addr, b: Addr)
  {
    BitLen(a) < BitLen(b) || (BitLen(a) == BitLen(b) && TextLess(Octets(a), Octets(b)))
  }

  function Family(p: Prefix): int
  {
    if p.addr.V4? then 4 else 6
  }

  predicate PrefixLess(p: Prefix, q: Prefix)
  {
    if Family(p) != Family(q) then Family(p) < Family(q)
    else if p.bits != q.bits then p.bits < q.bits
    else AddrLess(p.addr, q.addr)
  }

  predicate Less(t: u8, a: PackRecord, b: PackRecord)
  {
    if t == PACK_TYPE_CIDR then PrefixLess(a.prefix, b.prefix) else TextLess(a.value, b.value)
  }

  // What a record is sorted by.
  predicate SameKey(t: u8, a: PackRecord, b: PackRecord)
  {
    if t == PACK_TYPE_CIDR then a.prefix == b.prefix else a.value == b.value
  }

  // ---------- a strict total order ----------

  lemma {:induction false} TextTotal(a: Bytes, b: Bytes)
    ensures !TextLess(a, a)
    ensures TextLess(a, b) || TextLess(b, a) || a == b
    ensures !(TextLess(a, b) && TextLess(b, a))
  {
    if a != [] {
      TextTotal(a[1..], a[1..]);
      if b != [] {
        TextTotal(a[1..], b[1..]);
        assert a == [a[0]] + a[1..] && b == [b[0]] + b[1..];
      }
    }
  }

  lemma {:induction false} TextTransitive(a: Bytes, b: Bytes, c: Bytes)
    requires TextLess(a, b) && TextLess(b, c)
    ensures TextLess(a, c)
  {
    if a != [] && a[0] == b[0] == c[0] {
      TextTransitive(a[1..], b[1..], c[1..]);
    }
  }

  lemma LessTotal(t: u8, a: PackRecord, b: PackRecord)
    ensures !Less(t, a, a)
    ensures Less(t, a, b) || Less(t, b, a) || SameKey(t, a, b)
    ensures !(Less(t, a, b) && (Less(t, b, a) || SameKey(t, a, b)))
  {
    hide TextLess;
    TextTotal(a.value, b.value);
    TextTotal(a.value, a.value);
    TextTotal(Octets(a.prefix.addr), Octets(b.prefix.addr));
    TextTotal(Octets(a.prefix.addr), Octets(a.prefix.addr));
  }

  lemma LessTransitive(t: u8, a: PackRecord, b: PackRecord, c: PackRecord)
    requires Less(t, a, b) && Less(t, b, c)
    ensures Less(t, a, c)
  {
    hide TextLess;
    if t == PACK_TYPE_CIDR {
      var x, y, z := Octets(a.prefix.addr), Octets(b.prefix.addr), Octets(c.prefix.addr);
      if TextLess(x, y) && TextLess(y, z) {
        TextTransitive(x, y, z);
      }
    } else {
      TextTransitive(a.value, b.value, c.value);
    }
  }

  // ---------- which order ----------

  // The first n bytes agree, and then a ends or has the smaller byte.
  predicate Before(a: Bytes, b: Bytes, n: nat)
  {
    n <= |a| && n < |b| && a[..n] == b[..n] && (n == |a| || a[n] < b[n])
  }

  lemma {:induction false} TextLessAt(a: Bytes, b: Bytes) returns (n: nat)
    requires TextLess(a, b)
    ensures Before(a, b, n)
  {
    n := 0;
    if a != [] && a[0] == b[0] {
      n := TextLessAt(a[1..], b[1..]);
      n := n + 1;
      assert a == [a[0]] + a[1..] && b == [b[0]] + b[1..];
      assert a[..n] == [a[0]] + a[1..][..n - 1] && b[..n] == [b[0]] + b[1..][..n - 1];
    }
  }

  lemma {:induction false} BeforeIsLess(a: Bytes, b: Bytes, n: nat)
    requires Before(a, b, n)
    ensures TextLess(a, b)
    decreases n
  {
    if n > 0 {
      assert a[0] == a[..n][0] && b[0] == b[..n][0];
      assert a[1..][..n - 1] == a[..n][1..] && b[1..][..n - 1] == b[..n][1..];
      BeforeIsLess(a[1..], b[1..], n - 1);
    }
  }

  // Texts are in byte order.
  lemma TextLessExactly(a: Bytes, b: Bytes)
    ensures TextLess(a, b) <==> exists n :: Before(a, b, n)
  {
    hide TextLess, Before;
    if TextLess(a, b) {
      var n := TextLessAt(a, b);
    }
    if n :| Before(a, b, n) {
      BeforeIsLess(a, b, n);
    }
  }

  // A prefix as a text to sort by: family, length with the invalid one first, address.
  function SortText(p: Prefix): Bytes
  {
    [Family(p), p.bits + 1] + Octets(p.addr)
  }

  // Records are in byte order of their texts, or of family, length and address.
  lemma LessExactly(t: u8, a: PackRecord, b: PackRecord)
    ensures Less(t, a, b) <==>
              if t == 1 then TextLess(SortText(a.prefix), SortText(b.prefix)) else TextLess(a.value, b.value)
  {
    if t == PACK_TYPE_CIDR {
      var p, q := SortText(a.prefix), SortText(b.prefix);
      assert p[1..][1..] == Octets(a.prefix.addr) && q[1..][1..] == Octets(b.prefix.addr);
      assert TextLess(p, q) <==> p[0] < q[0] || (p[0] == q[0] && TextLess(p[1..], q[1..]));
      assert TextLess(p[1..], q[1..]) <==> p[1] < q[1] || (p[1] == q[1] && TextLess(p[1..][1..], q[1..][1..]));
    }
  }

  // ---------- sorting ----------

  ghost predicate Sorted(t: u8, s: seq<PackRecord>)
  {
    forall i, j :: 0 <= i < j < |s| ==> !Less(t, s[j], s[i])
  }

  lemma LessThanLater(t: u8, a: PackRecord, b: PackRecord, c: PackRecord)
    requires Less(t, a, b) && !Less(t, c, b)
    ensures Less(t, a, c)
  {
    hide Less, SameKey;
    LessTotal(t, b, c);
    if Less(t, b, c) {
      LessTransitive(t, a, b, c);
    } else {
      SameKeyLess(t, a, b, c);
    }
  }

  lemma SameKeyLess(t: u8, a: PackRecord, b: PackRecord, c: PackRecord)
    requires SameKey(t, b, c)
    ensures Less(t, a, b) <==> Less(t, a, c)
    ensures Less(t, b, a) <==> Less(t, c, a)
  {}

  // All but the record at i are in order, and it is less than all after it.
  ghost predicate OrderedBut(t: u8, s: seq<PackRecord>, i: nat)
  {
    && i < |s|
    && (forall j, k :: 0 <= j < k < |s| && j != i && k != i ==> !Less(t, s[k], s[j]))
    && forall k :: i < k < |s| ==> Less(t, s[i], s[k])
  }

  lemma AppendedBut(t: u8, s: seq<PackRecord>)
    requires s != [] && Sorted(t, s[..|s| - 1])
    ensures OrderedBut(t, s, |s| - 1)
  {
    hide Less;
    forall j, k | 0 <= j < k < |s| - 1
      ensures !Less(t, s[k], s[j])
    {
      assert !Less(t, s[..|s| - 1][k], s[..|s| - 1][j]);
    }
  }

  function Exchanged(s: seq<PackRecord>, i: nat): (r: seq<PackRecord>)
    requires 0 < i < |s|
    ensures |r| == |s|
  {
    s[i - 1 := s[i]][i := s[i - 1]]
  }

  // Exchanging it with a greater neighbour before it keeps that.
  lemma ExchangedBut(t: u8, s: seq<PackRecord>, i: nat)
    requires OrderedBut(t, s, i) && i > 0 && Less(t, s[i], s[i - 1])
    ensures OrderedBut(t, Exchanged(s, i), i - 1)
  {
    hide Less;
    var r := Exchanged(s, i);
    forall k | i - 1 < k < |r|
      ensures Less(t, r[i - 1], r[k])
    {
      assert r[k] == if k == i then s[i - 1] else s[k];
    }
    forall j, k | 0 <= j < k < |r| && j != i - 1 && k != i - 1
      ensures !Less(t, r[k], r[j])
    {
      assert r[j] == s[if j == i then i - 1 else j] && r[k] == s[if k == i then i - 1 else k];
    }
  }

  lemma ExchangedSame(s: seq<PackRecord>, i: nat, n: nat)
    requires 0 < i <= n < |s|
    ensures multiset(Exchanged(s, i)) == multiset(s)
    ensures Exchanged(s, i)[..n + 1] == Exchanged(s[..n + 1], i) && Exchanged(s, i)[n + 1..] == s[n + 1..]
  {}

  lemma InsertedSorted(t: u8, s: seq<PackRecord>, i: nat)
    requires OrderedBut(t, s, i) && (i > 0 ==> !Less(t, s[i], s[i - 1]))
    ensures Sorted(t, s)
  {
    hide Less;
    forall j, k | 0 <= j < k < |s|
      ensures !Less(t, s[k], s[j])
    {
      if k == i {
        if j < i - 1 && Less(t, s[i], s[j]) {
          assert !Less(t, s[i - 1], s[j]);
          LessThanLater(t, s[i], s[j], s[i - 1]);
        }
      } else if j == i {
        LessTotal(t, s[i], s[k]);
      }
    }
  }

  method Exchange(a: array<PackRecord>, i: nat)
    requires 0 < i < a.Length
    modifies a
    ensures a[..] == Exchanged(old(a[..]), i)
  {
    a[i], a[i - 1] := a[i - 1], a[i];
  }

  lemma Prefix(a: array<PackRecord>, n: nat)
    requires n <= a.Length
    ensures a[..n] == a[..][..n] && a[n..] == a[..][n..]
  {}

  // The new record at i moves down by exchanges while it is less than its neighbour.
  method Insert(t: u8, a: array<PackRecord>, n: nat)
    requires n < a.Length && Sorted(t, a[..n])
    modifies a
    ensures Sorted(t, a[..n + 1])
    ensures a[n + 1..] == old(a[n + 1..]) && multiset(a[..]) == old(multiset(a[..]))
  {
    hide Less, OrderedBut, Sorted, Exchanged;
    var i := n;
    ghost var s := a[..];
    Prefix(a, n);
    Prefix(a, n + 1);
    assert s[..n + 1][..n] == s[..n];
    AppendedBut(t, s[..n + 1]);
    while i > 0 && Less(t, a[i], a[i - 1])
      invariant 0 <= i <= n && s == a[..] && OrderedBut(t, s[..n + 1], i)
      invariant s[n + 1..] == old(a[..])[n + 1..] && multiset(s) == old(multiset(a[..]))
    {
      ExchangedBut(t, s[..n + 1], i);
      ExchangedSame(s, i, n);
      Exchange(a, i);
      s := Exchanged(s, i);
      i := i - 1;
    }
    InsertedSorted(t, s[..n + 1], i);
    Prefix(a, n + 1);
  }

  // sort.Slice, as a method with its contract: some sorted arrangement, in place.
  method SortRecords(t: u8, a: array<PackRecord>)
    modifies a
    ensures Sorted(t, a[..]) && multiset(a[..]) == old(multiset(a[..]))
  {
    for n := 0 to a.Length
      invariant Sorted(t, a[..n]) && multiset(a[..]) == old(multiset(a[..]))
    {
      Insert(t, a, n);
    }
    assert a[..a.Length] == a[..];
  }

  // ---------- one arrangement only ----------

  // Records that sort alike are the same record.
  ghost predicate DistinctKeys(t: u8, s: seq<PackRecord>)
  {
    forall r, q :: r in s && q in s && SameKey(t, r, q) ==> r == q
  }

  lemma SameElements(a: seq<PackRecord>, b: seq<PackRecord>, r: PackRecord)
    requires multiset(a) == multiset(b)
    ensures r in a <==> r in b
  {
    assert r in multiset(a) <==> r in multiset(b);
  }

  lemma SameHeads(t: u8, a: seq<PackRecord>, b: seq<PackRecord>)
    requires Sorted(t, a) && Sorted(t, b) && multiset(a) == multiset(b) && DistinctKeys(t, a)
    requires a != [] && b != []
    ensures a[0] == b[0]
  {
    hide Less, SameKey;
    SameElements(a, b, a[0]);
    SameElements(a, b, b[0]);
    var i :| 0 <= i < |a| && a[i] == b[0];
    var j :| 0 <= j < |b| && b[j] == a[0];
    LessTotal(t, a[0], b[0]);
    assert i > 0 ==> !Less(t, a[i], a[0]);
    assert j > 0 ==> !Less(t, b[j], b[0]);
  }

  lemma SameTails<T>(a: seq<T>, b: seq<T>)
    requires multiset(a) == multiset(b) && a != [] && b != [] && a[0] == b[0]
    ensures multiset(a[1..]) == multiset(b[1..])
  {
    assert a == [a[0]] + a[1..] && b == [b[0]] + b[1..];
    assert multiset(a[1..]) == multiset(a) - multiset{a[0]};
    assert multiset(b[1..]) == multiset(b) - multiset{b[0]};
  }

  // Two sorted arrangements of the same records are equal.
  lemma {:induction false} SortedUnique(t: u8, a: seq<PackRecord>, b: seq<PackRecord>)
    requires Sorted(t, a) && Sorted(t, b) && multiset(a) == multiset(b) && DistinctKeys(t, a)
    ensures a == b
    decreases |a|
  {
    hide Less, SameKey;
    assert |a| == |multiset(a)| == |multiset(b)| == |b|;
    if a != [] {
      SameHeads(t, a, b);
      SameTails(a, b);
      SortedUnique(t, a[1..], b[1..]);
      assert a == [a[0]] + a[1..] && b == [b[0]] + b[1..];
    }
  }
}
