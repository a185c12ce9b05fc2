// What Submit makes of an event (internal/keeper/keeper.go, Submit; internal/set/canon.go):
// the records of one job. They meet the conditions under which the other modules show that
// nothing is lost between memory, store and mirrors.
module Submit {
  import opened Types
  import opened NetPrefix
  import opened SetModel
  import opened Expiry
  import opened Float64
  import opened Store
  import opened Durable
  import opened Replication
  import opened Admission
  import opened Canon
  import opened Crash
  import opened Mirroring

  // Library text functions: TrimSpace, netip's parsers and String, ParseInt then FormatInt, MD5.
  datatype Library = Library(trim: Text -> Text, parse: Text -> Parsed, show: Prefix -> Text,
                             numeric: Text -> Option<Text>, md5: Text -> Text)

  // The parts of a definition only Submit looks at.
  datatype Terms = Terms(ttl: i64, hash: bool)

  datatype Event = Event(op: Op, values: seq<Text>, origin: Text, reason: Text, ttl: i64, forever': bool, hashed: bool)

  datatype Failure = WrongType | TooLong | Forever | NoTTL

  const VALUE_MAX := 255
  const SECOND: int := 1_000_000_000
  const MILLISECOND: int := 1_000_000

  // CanonPrefix, with the codes Submit turns its errors into.
  function CanonPrefix(lib: Library, t: SetType, raw: Text): Result<(Text, Prefix), Failure>
  {
    var v := lib.trim(raw);
    if v == [] then Err(WrongType)
    else if |v| > VALUE_MAX then Err(TooLong)
    else match t
      case TypeCIDR =>
        (match CanonCIDR(lib.parse(v))
         case Some(q) => Ok((lib.show(q.0), q.1))
         case None => Err(WrongType))
      case TypeNumeric =>
        (match lib.numeric(v)
         case Some(n) => Ok((n, NO_PREFIX))
         case None => Err(WrongType))
      case TypeString => Ok((v, NO_PREFIX))
  }

  predicate Accepted(lib: Library, c: Config, raw: Text)
  {
    CanonPrefix(lib, c.typ, raw).Ok?
  }

  // The value kept for a text.
  function ValueOf(lib: Library, c: Config, terms: Terms, ev: Event, raw: Text): Text
    requires Accepted(lib, c, raw)
  {
    var v := CanonPrefix(lib, c.typ, raw).value.0;
    if terms.hash && !ev.hashed then lib.md5(v) else v
  }

  // ---------- expiry ----------

  function Wrap64(x: int): i64
  {
    (x + TWO63) % (2 * TWO63) - TWO63
  }

  function Lifetime(terms: Terms, ev: Event): i64
  {
    if ev.ttl <= 0 then terms.ttl else ev.ttl
  }

  // now.Add(time.Duration(ttl) * time.Second).UnixMilli(), now in nanoseconds.
  function ExpiryAt(now: i64, ttl: i64): i64
  {
    (now + Wrap64(ttl * SECOND)) / MILLISECOND
  }

  lemma Wraps(x: int)
    requires 0 <= x
    ensures Wrap64(x) == x <==> x < TWO63
    ensures x >= TWO63 ==> Wrap64(x) <= x - 2 * TWO63
  {
    var m := 2 * TWO63;
    var q := (x + TWO63) / m;
    assert x + TWO63 == q * m + (x + TWO63) % m;
    if x >= TWO63 {
      assert q >= 1;
      assert q * m >= m;
    }
  }

  // The expiry is ttl seconds ahead exactly when that many nanoseconds fit an int64; it is
  // then positive and a whole float64.
  lemma ExpiryExactly(now: i64, ttl: i64)
    requires now >= 0 && ttl > 0
    ensures ExpiryAt(now, ttl) == now / MILLISECOND + 1000 * ttl <==> ttl * SECOND < TWO63
    ensures ttl * SECOND < TWO63 ==> 0 < ExpiryAt(now, ttl) <= TWO53
  {
    hide Wrap64;
    var d := ttl * SECOND;
    Wraps(d);
    assert d == 1000 * ttl * MILLISECOND;
    assert (now + d) / MILLISECOND == now / MILLISECOND + 1000 * ttl;
    if d >= TWO63 {
      assert now + Wrap64(d) <= now + d - 2 * TWO63;
    }
  }

  // Past that it may even be negative, the one kind the expiry index overlooks.
  lemma HugeTTLIsNegative()
    ensures ExpiryAt(1_700_000_000 * SECOND, 9_300_000_000) < 0
  {}

  // ---------- the records ----------

  function RecordFor(lib: Library, c: Config, terms: Terms, ev: Event, now: i64, raw: Text): Record
    requires Accepted(lib, c, raw)
  {
    Record(ValueOf(lib, c, terms, ev, raw), if ev.op == Add then ExpiryAt(now, Lifetime(terms, ev)) else 0,
           ev.origin, ev.reason, CanonPrefix(lib, c.typ, raw).value.1)
  }

  ghost predicate Behind(vals: seq<Text>, from: seq<nat>, j: nat)
    requires j < |vals| && forall i :: 0 <= i < |from| ==> from[i] < |vals|
  {
    exists i :: 0 <= i < |from| && from[i] <= j && vals[from[i]] == vals[j]
  }

  // from lists, in order, the first position of every value.
  ghost predicate Firsts(vals: seq<Text>, from: seq<nat>)
  {
    && (forall i :: 0 <= i < |from| ==> from[i] < |vals|)
    && (forall i, j :: 0 <= i < j < |from| ==> from[i] < from[j] && vals[from[i]] != vals[from[j]])
    && forall j :: 0 <= j < |vals| ==> Behind(vals, from, j)
  }

  lemma FirstsNext(vals: seq<Text>, from: seq<nat>, v: Text)
    requires Firsts(vals, from)
    ensures Firsts(vals + [v], if v in vals then from else from + [|vals|])
  {
    hide Behind;
    var vals', from' := vals + [v], if v in vals then from else from + [|vals|];
    forall j | 0 <= j < |vals'|
      ensures Behind(vals', from', j)
    {
      BehindNext(vals, from, v, j);
    }
  }

  lemma BehindNext(vals: seq<Text>, from: seq<nat>, v: Text, j: nat)
    requires Firsts(vals, from) && j <= |vals|
    ensures Behind(vals + [v], if v in vals then from else from + [|vals|], j)
  {
    var vals', from' := vals + [v], if v in vals then from else from + [|vals|];
    if j < |vals| || v in vals {
      var m: nat :| m < |vals| && m <= j && vals[m] == vals'[j];
      assert Behind(vals, from, m);
      var i :| 0 <= i < |from| && from[i] <= m && vals[from[i]] == vals[m];
      assert from'[i] == from[i];
    } else {
      assert from'[|from|] == j;
    }
  }

  predicate AllAccepted(lib: Library, c: Config, ev: Event)
  {
    forall j :: 0 <= j < |ev.values| ==> Accepted(lib, c, ev.values[j])
  }

  function Values(lib: Library, c: Config, terms: Terms, ev: Event): seq<Text>
    requires AllAccepted(lib, c, ev)
  {
    seq(|ev.values|, j requires 0 <= j < |ev.values| => ValueOf(lib, c, terms, ev, ev.values[j]))
  }

  // One record for each value, in order of first appearance; from[i] is the text record i
  // was made of.
  ghost predicate MadeOf(lib: Library, c: Config, terms: Terms, ev: Event, now: i64, recs: seq<Record>, from: seq<nat>)
  {
    && AllAccepted(lib, c, ev) && Firsts(Values(lib, c, terms, ev), from)
    && |from| == |recs| && (forall i :: 0 <= i < |from| ==> from[i] < |ev.values|)
    && forall i :: 0 <= i < |recs| ==> recs[i] == RecordFor(lib, c, terms, ev, now, ev.values[from[i]])
  }

  // The first text that is no value of the set.
  predicate FirstBad(lib: Library, c: Config, values: seq<Text>, j: nat)
  {
    && j < |values| && !Accepted(lib, c, values[j])
    && forall i :: 0 <= i < j ==> Accepted(lib, c, values[i])
  }

  // Submit, from the list of values to the job's records.
  method Records(lib: Library, c: Config, terms: Terms, ev: Event, now: i64)
    returns (r: Result<seq<Record>, Failure>, ghost from: seq<nat>, ghost bad: nat)
    ensures r.Ok? ==> MadeOf(lib, c, terms, ev, now, r.value, from) && r.value != []
    ensures r.Ok? && ev.op == Add ==> !ev.forever' && Lifetime(terms, ev) > 0
    ensures r.Err? ==>
              || (ev.values == [] && r.error == WrongType)
              || (FirstBad(lib, c, ev.values, bad) && r.error == CanonPrefix(lib, c.typ, ev.values[bad]).error)
              || (AllAccepted(lib, c, ev) && ev.op == Add
                  && if ev.forever' then r.error == Forever else Lifetime(terms, ev) <= 0 && r.error == NoTTL)
  {
    hide CanonPrefix, Wrap64, ExpiryAt, Lifetime, ValueOf, RecordFor, Firsts;
    from, bad := [], 0;
    if ev.values == [] {
      return Err(WrongType), from, bad;
    }
    var recs: seq<Record>, seen: set<Text> := [], {};
    ghost var vals: seq<Text> := [];
    NoFirsts();
    for j := 0 to |ev.values|
      invariant |vals| == j && Firsts(vals, from) && forall v :: v in seen <==> v in vals
      invariant forall i :: 0 <= i < j ==>
                  Accepted(lib, c, ev.values[i]) && vals[i] == ValueOf(lib, c, terms, ev, ev.values[i])
      invariant |recs| == |from| && (j > 0 ==> from != [])
      invariant forall i :: 0 <= i < |from| ==>
                  from[i] < j && recs[i] == RecordFor(lib, c, terms, ev, now, ev.values[from[i]])
    {
      var raw := ev.values[j];
      var canon := CanonPrefix(lib, c.typ, raw);
      if canon.Err? {
        bad := j;
        return Err(canon.error), from, bad;
      }
      var v := ValueOf(lib, c, terms, ev, raw);
      FirstsNext(vals, from, v);
      if v !in seen {
        seen := seen + {v};
        recs := recs + [RecordFor(lib, c, terms, ev, now, raw)];
        from := from + [j];
      } else {
        NotFirst(vals, from);
      }
      vals := vals + [v];
    }
    assert vals == Values(lib, c, terms, ev);
    if ev.op == Add {
      if ev.forever' {
        return Err(Forever), from, bad;
      }
      if Lifetime(terms, ev) <= 0 {
        return Err(NoTTL), from, bad;
      }
    }
    r := Ok(recs);
  }

  lemma NoFirsts()
    ensures Firsts([], [])
  {}

  lemma NotFirst(vals: seq<Text>, from: seq<nat>)
    requires Firsts(vals, from) && vals != []
    ensures from != []
  {
    assert Behind(vals, from, 0);
  }

  // ---------- what the rest of the system relies on ----------

  // The set parses texts as netip does, which reads back what it shows.
  ghost predicate Linked(lib: Library, c: Config)
  {
    && (forall t :: c.parse(t) == ParsePrefix(lib.parse(t)))
    && (forall p: Prefix :: IsValid(p) ==> lib.parse(lib.show(p)) == IsPrefix(p))
    && forall t :: (lib.parse(t).IsPrefix? ==> IsValid(lib.parse(t).p)) && (lib.parse(t).IsAddr? ==> lib.parse(t).a != NoAddr)
  }

  // A digest instead of the value is kept.
  predicate Digested(terms: Terms, ev: Event)
  {
    terms.hash && !ev.hashed
  }

  // The prefix kept with the record is the one its value parses to after a restart, unless the
  // value is the digest of an address, which parses to nothing.
  lemma TextKeepsPrefix(lib: Library, c: Config, terms: Terms, ev: Event, now: i64, raw: Text)
    requires Linked(lib, c) && Accepted(lib, c, raw)
    requires forall t :: lib.parse(lib.md5(t)) == NoParse
    ensures WireOk(c, RecordFor(lib, c, terms, ev, now, raw)) <==> !(Digested(terms, ev) && c.typ == TypeCIDR)
    ensures RecordOk(c, RecordFor(lib, c, terms, ev, now, raw)) <==> !(Digested(terms, ev) && c.typ == TypeCIDR)
  {
    hide MaterialPrefix, PrefixFrom, Masked, Unmap, IsMaterial, ExpiryAt;
    if c.typ == TypeCIDR {
      ReloadKeepsMaterial(lib.parse(lib.trim(raw)), (p: Prefix) => lib.parse(lib.show(p)));
    }
  }

  // What the library writes is short: a prefix, an integer, an MD5 in hex.
  ghost predicate ShortTexts(lib: Library)
  {
    && (forall p :: |lib.show(p)| <= VALUE_MAX)
    && (forall t :: lib.numeric(t).Some? ==> |lib.numeric(t).value| <= VALUE_MAX)
    && forall t :: |lib.md5(t)| <= VALUE_MAX
  }

  lemma ValueIsShort(lib: Library, c: Config, terms: Terms, ev: Event, raw: Text)
    requires ShortTexts(lib) && Accepted(lib, c, raw)
    ensures |ValueOf(lib, c, terms, ev, raw)| <= VALUE_MAX
  {
    hide CanonCIDR;
  }

  // What the records of an accepted event say: whose they are and why; an add with a positive ttl
  // expires that many seconds ahead, one without after the set's own, as far as the
  // nanoseconds fit; a removal says nothing. Kept is the canonical text, or its digest if the
  // set is a hashed one and the client has not digested it.
  lemma RecordsSay(lib: Library, c: Config, terms: Terms, ev: Event, now: i64, recs: seq<Record>, from: seq<nat>, i: nat)
    requires MadeOf(lib, c, terms, ev, now, recs, from) && i < |recs| && now >= 0
    requires ev.op == Add ==> Lifetime(terms, ev) > 0
    ensures from[i] < |ev.values| && CanonPrefix(lib, c.typ, ev.values[from[i]]).Ok?
    ensures var r, canon := recs[i], CanonPrefix(lib, c.typ, ev.values[from[i]]).value;
            && r.origin == ev.origin && r.reason == ev.reason && r.prefix == canon.1
            && r.value == (if terms.hash && !ev.hashed then lib.md5(canon.0) else canon.0)
            && (ev.op == Remove ==> r.exp == 0)
            && (ev.op == Add && ev.ttl > 0 && ev.ttl * SECOND < TWO63 ==> r.exp == now / 1_000_000 + 1000 * ev.ttl)
            && (ev.op == Add && ev.ttl <= 0 ==> terms.ttl > 0)
            && (ev.op == Add && ev.ttl <= 0 && terms.ttl * SECOND < TWO63 ==> r.exp == now / 1_000_000 + 1000 * terms.ttl)
  {
    hide CanonPrefix, ExpiryAt, Firsts;
    if ev.op == Add {
      ExpiryExactly(now, Lifetime(terms, ev));
    }
  }

  // Which texts are values of a set, and what is kept of them.
  lemma AcceptedExactly(lib: Library, t: SetType, raw: Text)
    ensures var v, res := lib.trim(raw), CanonPrefix(lib, t, raw);
            && (|v| > 255 ==> res == Err(TooLong)) && (v == [] ==> res == Err(WrongType))
            && (0 < |v| <= 255 ==> match t
                  case TypeCIDR => (res.Ok? <==> !lib.parse(v).NoParse?) && (res.Err? ==> res.error == WrongType)
                  case TypeNumeric => res == if lib.numeric(v).Some? then Ok((lib.numeric(v).value, NO_PREFIX)) else Err(WrongType)
                  case TypeString => res == Ok((v, NO_PREFIX)))
  {}

  // Every accepted event yields a job whose requests can be planned without later loss: live,
  // reloaded and mirrored hashes agree, the store gives the records back, the expiry index
  // misses none of them, and a package can carry them.
  lemma JobPlannable(lib: Library, c: Config, terms: Terms, ev: Event, now: i64, recs: seq<Record>, from: seq<nat>, j: Job,
                     universe: set<Text>)
    requires Linked(lib, c) && ShortTexts(lib) && !(Digested(terms, ev) && c.typ == TypeCIDR)
    requires forall t :: lib.parse(lib.md5(t)) == NoParse
    requires MadeOf(lib, c, terms, ev, now, recs, from) && j.op == ev.op && j.recs == recs
    requires forall i :: 0 <= i < |recs| ==> recs[i].value in universe
    requires now >= 0 && (ev.op == Add ==> Lifetime(terms, ev) > 0 && Lifetime(terms, ev) * SECOND < TWO63)
    requires (c.typ != TypeCIDR ==> |ev.reason| < 0x1_0000) && |recs| < 0x1_0000_0000
    ensures AllRecordsOk(c, DeltasOf(j)) && NoNegativeDeltas(DeltasOf(j)) && Sendables(c, universe, DeltasOf(j))
    ensures WHY_SEP !in ev.origin ==> PlannableAll(c, DeltasOf(j))
  {
    hide CanonPrefix, ExpiryAt, ValueOf, Lifetime, Exact, WireOk, Firsts, ShortTexts, Touched;
    if ev.op == Add {
      ExpiryExactly(now, Lifetime(terms, ev));
      ScoreExactly(ExpiryAt(now, Lifetime(terms, ev)));
    }
    forall i | 0 <= i < |recs|
      ensures WireOk(c, recs[i]) && RecordOk(c, recs[i]) && TextFits(c, recs[i])
    {
      TextKeepsPrefix(lib, c, terms, ev, now, ev.values[from[i]]);
      ValueIsShort(lib, c, terms, ev, ev.values[from[i]]);
      WireIsOk(c, recs[i]);
    }
    TouchedWithin(DeltasOf(j), universe);
  }

  lemma WireIsOk(c: Config, r: Record)
    requires WireOk(c, r)
    ensures RecordOk(c, r)
  {}

  // ---------- values a mirror cannot tell apart ----------

  predicate IsAddress(lib: Library, raw: Text)
  {
    CanonPrefix(lib, TypeCIDR, raw).Ok?
  }

  // The prefix whose text is kept for an accepted address.
  function Kept(lib: Library, raw: Text): Prefix
    requires IsAddress(lib, raw)
  {
    CanonCIDR(lib.parse(lib.trim(raw))).value.0
  }

  lemma AddressKept(lib: Library, c: Config, raw: Text)
    requires Linked(lib, c) && c.typ == TypeCIDR && IsAddress(lib, raw)
    ensures var p := Kept(lib, raw);
            && IsValid(p) && Masked(p) == p && CanonPrefix(lib, TypeCIDR, raw).value.0 == lib.show(p)
            && c.parse(lib.show(p)) == Some(MaterialPrefix(p)) && IsValid(MaterialPrefix(p))
  {
    var t := lib.parse(lib.trim(raw));
    match t
    case IsPrefix(p) =>
      MaskedTwice(p);
      MaskedValid(p);
      ReloadKeepsMaterial(t, (q: Prefix) => lib.parse(lib.show(q)));
    case IsAddr(a) =>
      FullLengthMaterial(a);
      MaterialPrefixFixes(PrefixFrom(Unmap(a), BitLen(Unmap(a))));
    case NoParse =>
  }

  lemma MaskedValid(p: Prefix)
    requires IsValid(p)
    ensures IsValid(Masked(p))
  {}

  // A prefix as it is kept.
  predicate IsKept(p: Prefix)
  {
    IsValid(p) && Masked(p) == p
  }

  // Two kept prefixes have one text if and only if they are the same, and are one value on the
  // wire if and only if they are the same or one is the IPv4 form of the other.
  lemma PrefixesCollideExactly(lib: Library, c: Config, p: Prefix, q: Prefix)
    requires Linked(lib, c) && c.typ == TypeCIDR && IsKept(p) && IsKept(q)
    ensures lib.show(p) == lib.show(q) <==> p == q
    ensures WireKey(c, lib.show(p)) == WireKey(c, lib.show(q)) <==> p == q || MappedOf(p, q) || MappedOf(q, p)
    ensures MappedOf(p, q) ==> p != q
  {
    hide Masked, MaterialPrefix, PrefixMaterial;
    assert lib.parse(lib.show(p)) == IsPrefix(p) && lib.parse(lib.show(q)) == IsPrefix(q);
    MaterialCollidesExactly(p, q);
  }

  lemma AddressesCollideExactly(lib: Library, c: Config, raw: Text, raw': Text)
    requires Linked(lib, c) && c.typ == TypeCIDR && IsAddress(lib, raw) && IsAddress(lib, raw')
    ensures var p, q := Kept(lib, raw), Kept(lib, raw');
            && (lib.show(p) == lib.show(q) <==> p == q)
            && (WireKey(c, lib.show(p)) == WireKey(c, lib.show(q))
                <==> lib.show(p) == lib.show(q) || MappedOf(p, q) || MappedOf(q, p))
  {
    hide IsAddress, Kept, Masked, MaterialPrefix, MappedOf, WireKey;
    AddressKept(lib, c, raw);
    AddressKept(lib, c, raw');
    PrefixesCollideExactly(lib, c, Kept(lib, raw), Kept(lib, raw'));
  }

  function Texts(lib: Library, kept: seq<Prefix>): set<Text>
  {
    set i | 0 <= i < |kept| :: lib.show(kept[i])
  }

  // No prefix is the IPv4 form of another.
  predicate NoneMapped(kept: seq<Prefix>)
  {
    forall i, j :: 0 <= i < |kept| && 0 <= j < |kept| ==> !MappedOf(kept[i], kept[j])
  }

  lemma SeparableKept(lib: Library, c: Config, kept: seq<Prefix>)
    requires Linked(lib, c) && c.typ == TypeCIDR && forall i :: 0 <= i < |kept| ==> IsKept(kept[i])
    requires AllParse(c, Texts(lib, kept))
    ensures Separable(c, Texts(lib, kept)) <==> NoneMapped(kept)
  {
    hide Linked, IsKept, MappedOf, WireKey;
    var values := Texts(lib, kept);
    forall i, j | 0 <= i < |kept| && 0 <= j < |kept|
      ensures var v, w := lib.show(kept[i]), lib.show(kept[j]);
              && (WireKey(c, v) == WireKey(c, w) <==> v == w || MappedOf(kept[i], kept[j]) || MappedOf(kept[j], kept[i]))
              && (MappedOf(kept[i], kept[j]) ==> v != w)
    {
      PrefixesCollideExactly(lib, c, kept[i], kept[j]);
    }
    if Separable(c, values) {
      forall i, j | 0 <= i < |kept| && 0 <= j < |kept|
        ensures !MappedOf(kept[i], kept[j])
      {
        assert lib.show(kept[i]) in values && lib.show(kept[j]) in values;
      }
    }
  }

  lemma KeptParse(lib: Library, c: Config, kept: seq<Prefix>)
    requires Linked(lib, c) && c.typ == TypeCIDR && forall i :: 0 <= i < |kept| ==> IsKept(kept[i])
    ensures AllParse(c, Texts(lib, kept))
  {
    hide MaterialPrefix, Masked;
    forall v | v in Texts(lib, kept)
      ensures c.parse(v).Some? && IsValid(c.parse(v).value)
    {
      var i :| 0 <= i < |kept| && v == lib.show(kept[i]);
      assert lib.parse(v) == IsPrefix(kept[i]);
      MaterialIs(kept[i]);
    }
  }

  function AllKept(lib: Library, raws: seq<Text>): (kept: seq<Prefix>)
    requires forall i :: 0 <= i < |raws| ==> IsAddress(lib, raws[i])
    ensures |kept| == |raws|
  {
    seq(|raws|, i requires 0 <= i < |raws| => Kept(lib, raws[i]))
  }

  // Mirrors can follow a set of accepted addresses, whatever is done to it, if and only if no
  // address of it is the IPv4 form of another.
  lemma MirrorsFollowExactly(lib: Library, c: Config, raws: seq<Text>)
    requires Linked(lib, c) && c.typ == TypeCIDR && forall i :: 0 <= i < |raws| ==> IsAddress(lib, raws[i])
    ensures AlwaysFollows(c, Texts(lib, AllKept(lib, raws))) <==> NoneMapped(AllKept(lib, raws))
  {
    hide IsAddress, Kept, AlwaysFollows, NoneMapped, Masked, MaterialPrefix, Linked, Texts, AllParse, Separable;
    var kept := AllKept(lib, raws);
    forall i | 0 <= i < |raws|
      ensures IsKept(kept[i])
    {
      AddressKept(lib, c, raws[i]);
    }
    KeptParse(lib, c, kept);
    SeparableKept(lib, c, kept);
    SeparableExactly(c, Texts(lib, kept));
  }

  // Such pairs exist for every IPv4 prefix, both texts accepted: none of the mirrors holds
  // both when they expire at different times. A bare IPv4-mapped address is no such pair, as
  // it is unmapped before it is kept.
  lemma MappedCollides(lib: Library, c: Config, b: Octets4, n: nat, e: Entries, m: Mirror)
    requires Linked(lib, c) && c.typ == TypeCIDR && n <= 32 && MaskOctets(b, n) == b
    ensures var p, q: Prefix := Prefix(V6(Mapped(b)), 96 + n), Prefix(V4(b), n);
            && lib.show(p) != lib.show(q)
            && CanonCIDR(lib.parse(lib.show(p))) == Some((p, q)) && CanonCIDR(lib.parse(lib.show(q))) == Some((q, q))
            && (lib.show(p) in e && lib.show(q) in e && e[lib.show(p)].exp != e[lib.show(q)].exp ==> !Mirrors(c, e, m))
    ensures CanonCIDR(IsAddr(V6(Mapped(b)))) == CanonCIDR(IsAddr(V4(b)))
  {
    hide Masked, MaterialPrefix;
    var p, q: Prefix := Prefix(V6(Mapped(b)), 96 + n), Prefix(V4(b), n);
    assert lib.parse(lib.show(p)) == IsPrefix(p) && lib.parse(lib.show(q)) == IsPrefix(q);
    MappedForm(b, n);
    MaskedFour(b, n);
    MaterialCollidesExactly(p, q);
    MaterialIs(p);
    MaterialIs(q);
    assert Mapped(b)[..12] + Mapped(b)[12..] == Mapped(b) && Mapped(b)[12..] == b;
    assert WireKey(c, lib.show(p)) == WireKey(c, lib.show(q));
  }

  lemma MaskedFour(b: Octets4, n: nat)
    requires n <= 32 && MaskOctets(b, n) == b
    ensures Masked(Prefix(V4(b), n)) == Prefix(V4(b), n)
  {}
}
