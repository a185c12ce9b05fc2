// The text form of a set's meta in the store: strconv and hex, as internal/state/state.go uses them.
module MetaText {
  import opened Types

  function Digit(d: nat): u8
    requires d < 16
  {
    if d < 10 then 48 + d else 87 + d
  }

  function DigitValue(c: u8): Option<nat>
  {
    if 48 <= c <= 57 then Some(c - 48)
    else if 97 <= c <= 122 then Some(c - 87)
    else if 65 <= c <= 90 then Some(c - 55)
    else None
  }

  // strconv.FormatUint
  function Print(n: nat, base: nat): (t: Text)
    requires 2 <= base <= 16
    ensures t != []
  {
    if n < base then [Digit(n)] else Print(n / base, base) + [Digit(n % base)]
  }

  function Digits(t: Text, base: nat): Option<nat>
  {
    if t == [] then Some(0) else
      match (Digits(t[..|t| - 1], base), DigitValue(t[|t| - 1]))
      case (Some(hi), Some(lo)) => if lo < base then Some(hi * base + lo) else None
      case _ => None
  }

  // strconv.ParseUint(t, base, 64)
  function ParseUint(t: Text, base: nat): Option<u64>
  {
    match Digits(t, base)
    case Some(n) => if t != [] && n < 0x1_0000_0000_0000_0000 then Some(n) else None
    case None => None
  }

  // fmt's %016x
  function Hex16(n: u64): Text
  {
    var t := Print(n, 16);
    if |t| < 16 then Zeros(16 - |t|) + t else t
  }

  function Zeros(n: nat): Text
  {
    seq(n, _ => 48)
  }

  // strconv.Itoa
  function Itoa(x: i64): Text
  {
    if x < 0 then [45] + Print(0 - x as int, 10) else Print(x, 10)
  }

  function Negated(n: nat): i64
    requires n <= 0x8000_0000_0000_0000
  {
    0 - n as int
  }

  // strconv.Atoi
  function Atoi(t: Text): Option<i64>
  {
    if t == [] then None
    else if t[0] == 45 then
      match Digits(t[1..], 10)
      case Some(n) => if |t| > 1 && n <= 0x8000_0000_0000_0000 then Some(Negated(n)) else None
      case None => None
    else
      var u := if t[0] == 43 then t[1..] else t;
      match Digits(u, 10)
      case Some(n) => if u != [] && n < 0x8000_0000_0000_0000 then Some(n) else None
      case None => None
  }

  // hex.EncodeToString and hex.DecodeString
  function HexEncode(b: Bytes): Text
  {
    if b == [] then [] else [Digit(b[0] / 16), Digit(b[0] % 16)] + HexEncode(b[1..])
  }

  function HexDecode(t: Text): Option<Bytes>
  {
    if t == [] then Some([])
    else if |t| == 1 then None
    else
      match (DigitValue(t[0]), DigitValue(t[1]), HexDecode(t[2..]))
      case (Some(hi), Some(lo), Some(rest)) => if hi < 16 && lo < 16 then Some([16 * hi + lo] + rest) else None
      case _ => None
  }

  // ---------- reading back what was written ----------

  lemma DigitBack(d: nat)
    requires d < 16
    ensures DigitValue(Digit(d)) == Some(d)
  {}

  lemma DivBack(n: nat, base: nat)
    requires base == 10 || base == 16
    ensures n / base * base + n % base == n && n % base < base
  {
    if base == 10 {
      assert n / 10 * 10 + n % 10 == n;
    } else {
      assert n / 16 * 16 + n % 16 == n;
    }
  }

  lemma {:induction false} PrintBack(n: nat, base: nat)
    requires base == 10 || base == 16
    ensures Digits(Print(n, base), base) == Some(n)
  {
    hide Digit, DigitValue;
    DivBack(n, base);
    if n < base {
      DigitBack(n);
      assert Print(n, base)[..0] == [];
    } else {
      PrintBack(n / base, base);
      DigitBack(n % base);
      assert Print(n, base)[..|Print(n, base)| - 1] == Print(n / base, base);
    }
  }

  lemma {:induction false} ZerosIgnored(k: nat, t: Text, base: nat)
    requires base > 0
    ensures Digits(Zeros(k) + t, base) == Digits(t, base)
  {
    var all := Zeros(k) + t;
    if t != [] {
      assert all[..|all| - 1] == Zeros(k) + t[..|t| - 1];
      ZerosIgnored(k, t[..|t| - 1], base);
    } else if k > 0 {
      assert all[..|all| - 1] == Zeros(k - 1) + t;
      ZerosIgnored(k - 1, t, base);
    }
  }

  lemma UintBack(n: u64)
    ensures ParseUint(Print(n, 10), 10) == Some(n)
    ensures ParseUint(Hex16(n), 16) == Some(n)
  {
    hide Digits, Print;
    PrintBack(n, 10);
    PrintBack(n, 16);
    var t := Print(n, 16);
    if |t| < 16 {
      ZerosIgnored(16 - |t|, t, 16);
    }
  }

  function Sixteens(k: nat): nat
  {
    if k == 0 then 1 else 16 * Sixteens(k - 1)
  }

  predicate IsDigit(c: u8, base: nat)
  {
    48 <= c <= 57 || (base == 16 && 97 <= c <= 102)
  }

  // No digit more than needed, and none the base does not have.
  lemma {:induction false} PrintForm(n: nat, base: nat, k: nat)
    requires base == 10 || base == 16
    ensures forall c :: c in Print(n, base) ==> IsDigit(c, base)
    ensures Print(n, base)[0] == 48 ==> n == 0 && |Print(n, base)| == 1
    ensures base == 16 && k > 0 && n < Sixteens(k) ==> |Print(n, base)| <= k
  {
    if n >= base {
      PrintForm(n / base, base, if k > 0 then k - 1 else 0);
      assert base == 16 && k > 0 && n < Sixteens(k) ==> n / 16 < Sixteens(k - 1);
    }
  }

  // Sixteen lower-case hexadecimal digits, whatever the number.
  lemma Hex16Form(n: u64)
    ensures |Hex16(n)| == 16 && forall c :: c in Hex16(n) ==> IsDigit(c, 16)
  {
    hide Print;
    PrintForm(n, 16, 16);
    assert Sixteens(4) == 0x1_0000;
    assert Sixteens(8) == 0x1_0000_0000;
    assert Sixteens(12) == 0x1_0000_0000_0000;
    assert Sixteens(16) == 0x1_0000_0000_0000_0000;
  }

  lemma {:induction false} PrintStartsWithDigit(n: nat)
    ensures 48 <= Print(n, 10)[0] <= 57
  {
    if n >= 10 {
      PrintStartsWithDigit(n / 10);
    }
  }

  lemma ItoaBack(x: i64)
    ensures Atoi(Itoa(x)) == Some(x)
  {
    hide Digits, Print;
    var n: int := if x < 0 then 0 - x as int else x;
    PrintBack(n, 10);
    PrintStartsWithDigit(n);
    assert ([45] + Print(n, 10))[1..] == Print(n, 10);
  }

  lemma {:induction false} HexBack(b: Bytes)
    ensures HexDecode(HexEncode(b)) == Some(b)
  {
    if b != [] {
      HexBack(b[1..]);
      DigitBack(b[0] / 16);
      DigitBack(b[0] % 16);
      var t := HexEncode(b);
      assert t[0] == Digit(b[0] / 16) && t[1] == Digit(b[0] % 16) && t[2..] == HexEncode(b[1..]);
      assert b == [b[0]] + b[1..];
    }
  }

  // ---------- the meta hash ----------

  datatype Meta = Meta(id: Text, typ: i64, epoch: u64, key: Key, num: u64, hash: u64)

  datatype Field = FId | FType | FEpoch | FKey | FSeq | FHash

  function MetaFields(m: Meta): map<Field, Text>
  {
    map[FId := m.id, FType := Itoa(m.typ), FEpoch := Hex16(m.epoch), FKey := HexEncode(m.key),
        FSeq := Print(m.num, 10), FHash := Hex16(m.hash)]
  }

  function At(f: map<Field, Text>, k: Field): Text
  {
    if k in f then f[k] else []
  }

  // parseMeta: None is its error.
  function ParseMeta(f: map<Field, Text>): Option<Meta>
  {
    var typ, epoch := Atoi(At(f, FType)), ParseUint(At(f, FEpoch), 16);
    var key := HexDecode(At(f, FKey));
    var num, hash := ParseUint(At(f, FSeq), 10), ParseUint(At(f, FHash), 16);
    if typ.Some? && epoch.Some? && key.Some? && |key.value| == 16 && num.Some? && hash.Some? then
      Some(Meta(At(f, FId), typ.value, epoch.value, key.value, num.value, hash.value))
    else None
  }

  // What Commit rewrites of the meta: the number and the hash, nothing else.
  function CommitFields(num: u64, hash: u64): map<Field, Text>
  {
    map[FSeq := Print(num, 10), FHash := Hex16(hash)]
  }

  lemma MetaBack(m: Meta)
    ensures ParseMeta(MetaFields(m)) == Some(m)
  {
    hide Itoa, Atoi, Hex16, Print, ParseUint, HexEncode, HexDecode;
    ItoaBack(m.typ);
    UintBack(m.epoch);
    UintBack(m.num);
    UintBack(m.hash);
    HexBack(m.key);
  }

  // A committed meta reads as the old one with the new number and hash.
  lemma CommittedMeta(m: Meta, num: u64, hash: u64)
    ensures MetaFields(m) + CommitFields(num, hash) == MetaFields(m.(num := num, hash := hash))
    ensures ParseMeta(MetaFields(m) + CommitFields(num, hash)) == Some(m.(num := num, hash := hash))
  {
    hide ParseMeta;
    MetaBack(m.(num := num, hash := hash));
  }
}
