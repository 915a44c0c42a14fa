/** The binary format of the worker control channel: big-endian numbers, flags,
    length-prefixed strings, optional parts, records and short lists. Values are
    written without their shape and read back by it. */
module WireFormat {
  import opened Basics
  import opened BigEndian

  const MAX_LIST: nat := 16

  /** What the reader is told to expect. */
  datatype Shape =
    | SU8
    | SU16
    | SU32
    | SU64
    | SFlag
    | SKind
    | SText
    | SIpv4
    | SUnit
    | SPair(first: Shape, rest: Shape)
    | SOptional(inner: Shape)
    | SList(elem: Shape)

  datatype Value =
    | VU8(n8: u8)
    | VU16(n16: u16)
    | VU32(n32: u32)
    | VU64(n64: u64)
    | VFlag(flag: bool)
    | VText(text: seq<u8>)
    | VIpv4(address: seq<u8>)
    | VUnit
    | VPair(first: Value, rest: Value)
    | VNone
    | VSome(inner: Value)
    | VList(count: nat, chain: Value)

  ghost predicate Fits(v: Value, s: Shape)
    decreases s, 0
  {
    match s
    case SU8 => v.VU8?
    case SU16 => v.VU16?
    case SU32 => v.VU32?
    case SU64 => v.VU64?
    case SFlag => v.VFlag?
    case SKind => v.VU32? && v.n32 <= 1
    case SText => v.VText? && |v.text| < TWO_32
    case SIpv4 => v.VIpv4? && |v.address| == 4
    case SUnit => v.VUnit?
    case SPair(a, b) => v.VPair? && Fits(v.first, a) && Fits(v.rest, b)
    case SOptional(a) => v.VNone? || (v.VSome? && Fits(v.inner, a))
    case SList(a) => v.VList? && v.count <= MAX_LIST && ChainFits(v.chain, a, v.count)
  }

  /** A chain of n values of one shape. */
  ghost predicate ChainFits(v: Value, elem: Shape, n: nat)
    decreases elem, n + 1
  {
    if n == 0 then v.VUnit? else v.VPair? && Fits(v.first, elem) && ChainFits(v.rest, elem, n - 1)
  }

  function Encode(v: Value): seq<u8> {
    match v
    case VU8(n) => [n]
    case VU16(n) => Put16(n)
    case VU32(n) => Put32(n)
    case VU64(n) => Put64(n)
    case VFlag(b) => [if b then 1 else 0]
    case VText(t) => if |t| < TWO_32 then Put32(|t|) + t else []
    case VIpv4(a) => a
    case VUnit => []
    case VPair(a, b) => Encode(a) + Encode(b)
    case VNone => [0]
    case VSome(a) => [1] + Encode(a)
    case VList(n, chain) => if n < TWO_32 then Put32(n) + Encode(chain) else []
  }

  // ---- reading ------------------------------------------------------------------

  /** A value read, and the offset behind it. */
  datatype Taken = Taken(v: Value, end: nat)

  function TakeText(b: seq<u8>, at: nat): Option<Taken>
    requires at <= |b|
  {
    if |b| - at < 4 then None
    else
      var n := Get32(b, at);
      if |b| - (at + 4) < n then None else Some(Taken(VText(b[at + 4..at + 4 + n]), at + 4 + n))
  }

  function TakeFlag(b: seq<u8>, at: nat): Option<Taken>
    requires at <= |b|
  {
    if |b| - at < 1 || b[at] > 1 then None else Some(Taken(VFlag(b[at] == 1), at + 1))
  }

  function Decode(s: Shape, b: seq<u8>, at: nat): (r: Option<Taken>)
    requires at <= |b|
    ensures r.Some? ==> at <= r.value.end <= |b|
    decreases s, 0
  {
    match s
    case SU8 => if |b| - at < 1 then None else Some(Taken(VU8(b[at]), at + 1))
    case SU16 => if |b| - at < 2 then None else Some(Taken(VU16(Get16(b, at)), at + 2))
    case SU32 => if |b| - at < 4 then None else Some(Taken(VU32(Get32(b, at)), at + 4))
    case SU64 => if |b| - at < 8 then None else Some(Taken(VU64(Get64(b, at)), at + 8))
    case SFlag => TakeFlag(b, at)
    case SKind => if |b| - at < 4 || Get32(b, at) > 1 then None else Some(Taken(VU32(Get32(b, at)), at + 4))
    case SText => TakeText(b, at)
    case SIpv4 => if |b| - at < 4 then None else Some(Taken(VIpv4(b[at..at + 4]), at + 4))
    case SUnit => Some(Taken(VUnit, at))
    case SPair(x, y) =>
      var r := Decode(x, b, at);
      if r.None? then None
      else
        var q := Decode(y, b, r.value.end);
        if q.None? then None else Some(Taken(VPair(r.value.v, q.value.v), q.value.end))
    case SOptional(x) =>
      var f := TakeFlag(b, at);
      if f.None? then None
      else if !f.value.v.flag then Some(Taken(VNone, f.value.end))
      else
        var r := Decode(x, b, f.value.end);
        if r.None? then None else Some(Taken(VSome(r.value.v), r.value.end))
    case SList(x) =>
      if |b| - at < 4 || Get32(b, at) > MAX_LIST then None
      else
        var r := DecodeChain(x, Get32(b, at), b, at + 4);
        if r.None? then None else Some(Taken(VList(Get32(b, at), r.value.v), r.value.end))
  }

  function DecodeChain(x: Shape, n: nat, b: seq<u8>, at: nat): (r: Option<Taken>)
    requires at <= |b|
    ensures r.Some? ==> at <= r.value.end <= |b|
    decreases x, n + 1
  {
    if n == 0 then Some(Taken(VUnit, at))
    else
      var r := Decode(x, b, at);
      if r.None? then None
      else
        var q := DecodeChain(x, n - 1, b, r.value.end);
        if q.None? then None else Some(Taken(VPair(r.value.v, q.value.v), q.value.end))
  }

  // ---- the two are inverse ------------------------------------------------------------

  /** The bytes at an offset begin with e. */
  ghost predicate StartsWith(b: seq<u8>, at: nat, e: seq<u8>) {
    at + |e| <= |b| && b[at..at + |e|] == e
  }

  lemma StartsWithBoth(b: seq<u8>, at: nat, e: seq<u8>, f: seq<u8>)
    ensures StartsWith(b, at, e + f) <==> StartsWith(b, at, e) && StartsWith(b, at + |e|, f)
  {
    if at + |e| + |f| <= |b| {
      var whole := b[at..at + |e| + |f|];
      assert whole[..|e|] == b[at..at + |e|] && whole[|e|..] == b[at + |e|..at + |e| + |f|];
      assert (e + f)[..|e|] == e && (e + f)[|e|..] == f;
      assert whole == whole[..|e|] + whole[|e|..];
    }
  }

  lemma OctetRead(b: seq<u8>, at: nat, n: u8)
    ensures StartsWith(b, at, [n]) <==> at < |b| && b[at] == n
  {
  }

  lemma NumbersRead(b: seq<u8>, at: nat, n16: u16, n32: u32, n64: u64)
    ensures StartsWith(b, at, Put16(n16)) <==> at + 2 <= |b| && Get16(b, at) == n16
    ensures StartsWith(b, at, Put32(n32)) <==> at + 4 <= |b| && Get32(b, at) == n32
    ensures StartsWith(b, at, Put64(n64)) <==> at + 8 <= |b| && Get64(b, at) == n64
  {
    if at + 2 <= |b| { GetPut16(b, at, n16); }
    if at + 4 <= |b| { GetPut32(b, at, n32); }
    if at + 8 <= |b| { GetPut64(b, at, n64); }
  }

  /** Reading by shape finds a value exactly when its encoding is there: this is
      both round trips at once. */
  lemma {:induction false} DecodeIffEncoded(s: Shape, b: seq<u8>, at: nat, v: Value)
    requires at <= |b|
    ensures Fits(v, s) && StartsWith(b, at, Encode(v)) <==>
            Reads(Decode(s, b, at), at, v)
    decreases s, 2
  {
    match s
    case SPair(x, y) => PairIffEncoded(x, y, b, at, v);
    case SOptional(x) => OptionalIffEncoded(x, b, at, v);
    case SList(x) => ListIffEncoded(x, b, at, v);
    case SText => TextIffEncoded(b, at, v);
    case _ => AtomIffEncoded(s, b, at, v);
  }

  predicate Atom(s: Shape) {
    !s.SPair? && !s.SOptional? && !s.SList? && !s.SText?
  }

  lemma AtomIffEncoded(s: Shape, b: seq<u8>, at: nat, v: Value)
    requires at <= |b| && Atom(s)
    ensures Fits(v, s) && StartsWith(b, at, Encode(v)) <==> Reads(Decode(s, b, at), at, v)
  {
    if v.VU16? || v.VU32? || v.VU64? {
      NumberIffEncoded(s, b, at, v);
    } else {
      OctetIffEncoded(s, b, at, v);
    }
  }

  lemma NumberIffEncoded(s: Shape, b: seq<u8>, at: nat, v: Value)
    requires at <= |b| && Atom(s) && (v.VU16? || v.VU32? || v.VU64?)
    ensures Fits(v, s) && StartsWith(b, at, Encode(v)) <==> Reads(Decode(s, b, at), at, v)
  {
    hide Put16;
    hide Put32;
    hide Put64;
    hide Get16;
    hide Get32;
    hide Get64;
    hide StartsWith;
    match v
    case VU16(n) => NumbersRead(b, at, n, 0, 0);
    case VU32(n) => NumbersRead(b, at, 0, n, 0);
    case VU64(n) => NumbersRead(b, at, 0, 0, n);
  }

  lemma OctetIffEncoded(s: Shape, b: seq<u8>, at: nat, v: Value)
    requires at <= |b| && Atom(s) && !(v.VU16? || v.VU32? || v.VU64?)
    ensures Fits(v, s) && StartsWith(b, at, Encode(v)) <==> Reads(Decode(s, b, at), at, v)
  {
  }

  lemma TextIffEncoded(b: seq<u8>, at: nat, v: Value)
    requires at <= |b|
    ensures Fits(v, SText) && StartsWith(b, at, Encode(v)) <==> Reads(Decode(SText, b, at), at, v)
  {
    hide Put32;
    hide Get32;
    if v.VText? && |v.text| < TWO_32 {
      NumbersRead(b, at, 0, |v.text|, 0);
      StartsWithBoth(b, at, Put32(|v.text|), v.text);
    }
  }

  ghost predicate Reads(r: Option<Taken>, at: nat, v: Value) {
    r == Some(Taken(v, at + |Encode(v)|))
  }

  function Both(r: Option<Taken>, q: Option<Taken>): Option<Taken> {
    if r.Some? && q.Some? then Some(Taken(VPair(r.value.v, q.value.v), q.value.end)) else None
  }

  /** Reading two values one after the other. */
  lemma BothRead(b: seq<u8>, at: nat, r: Option<Taken>, q: Option<Taken>, v: Value, w: Value, fitsV: bool, fitsW: bool)
    requires fitsV && StartsWith(b, at, Encode(v)) <==> Reads(r, at, v)
    requires r.Some? ==> r.value.end == at + |Encode(r.value.v)|
    requires r.Some? ==> (fitsW && StartsWith(b, r.value.end, Encode(w)) <==> Reads(q, r.value.end, w))
    ensures fitsV && fitsW && StartsWith(b, at, Encode(VPair(v, w))) <==> Reads(Both(r, q), at, VPair(v, w))
  {
    hide StartsWith;
    assert Encode(VPair(v, w)) == Encode(v) + Encode(w);
    StartsWithBoth(b, at, Encode(v), Encode(w));
  }

  lemma {:induction false} PairIffEncoded(x: Shape, y: Shape, b: seq<u8>, at: nat, v: Value)
    requires at <= |b|
    ensures Fits(v, SPair(x, y)) && StartsWith(b, at, Encode(v)) <==> Reads(Decode(SPair(x, y), b, at), at, v)
    decreases SPair(x, y), 1
  {
    if v.VPair? {
      var r := Decode(x, b, at);
      DecodeIffEncoded(x, b, at, v.first);
      if r.Some? {
        DecodedLength(x, b, at);
        DecodeIffEncoded(y, b, r.value.end, v.rest);
      }
      var q := if r.Some? then Decode(y, b, r.value.end) else None;
      BothRead(b, at, r, q, v.first, v.rest, Fits(v.first, x), Fits(v.rest, y));
      assert Decode(SPair(x, y), b, at) == Both(r, q);
      assert v == VPair(v.first, v.rest);
    }
  }

  lemma PairUnfolds(x: Shape, y: Shape, b: seq<u8>, at: nat)
    requires at <= |b|
    ensures Decode(SPair(x, y), b, at) ==
            var r := Decode(x, b, at);
            if r.None? then None else Both(r, Decode(y, b, r.value.end))
    ensures Decode(SPair(x, y), b, at).Some? ==>
              var v := Decode(SPair(x, y), b, at).value.v;
              v.VPair? && Encode(v) == Encode(v.first) + Encode(v.rest)
  {
    hide Get16, Get32, Get64, Put16, Put32, Put64, TakeText, TakeFlag, DecodeChain;
  }

  lemma AtomLength(s: Shape, b: seq<u8>, at: nat)
    requires at <= |b| && Decode(s, b, at).Some? && (Atom(s) || s.SText?)
    ensures Decode(s, b, at).value.end == at + |Encode(Decode(s, b, at).value.v)|
  {
  }

  /** What is read spans its encoding. */
  lemma {:induction false} DecodedLength(s: Shape, b: seq<u8>, at: nat)
    requires at <= |b| && Decode(s, b, at).Some?
    ensures Decode(s, b, at).value.end == at + |Encode(Decode(s, b, at).value.v)|
    decreases s, 0
  {
    hide Decode;
    hide DecodeChain;
    hide Encode;
    match s
    case SPair(x, y) =>
      PairUnfolds(x, y, b, at);
      DecodedLength(x, b, at);
      DecodedLength(y, b, Decode(x, b, at).value.end);
    case SOptional(x) =>
      OptionalUnfolds(x, b, at);
      if b[at] == 1 {
        DecodedLength(x, b, at + 1);
      }
    case SList(x) =>
      ListUnfolds(x, b, at);
      ChainLength(x, Get32(b, at), b, at + 4);
    case _ => AtomLength(s, b, at);
  }

  lemma {:induction false} ChainLength(x: Shape, n: nat, b: seq<u8>, at: nat)
    requires at <= |b| && DecodeChain(x, n, b, at).Some?
    ensures DecodeChain(x, n, b, at).value.end == at + |Encode(DecodeChain(x, n, b, at).value.v)|
    decreases x, n + 1
  {
    if n > 0 {
      DecodedLength(x, b, at);
      ChainLength(x, n - 1, b, Decode(x, b, at).value.end);
    }
  }

  lemma OptionalUnfolds(x: Shape, b: seq<u8>, at: nat)
    requires at <= |b|
    ensures Decode(SOptional(x), b, at) ==
            if at == |b| || b[at] > 1 then None
            else if b[at] == 0 then Some(Taken(VNone, at + 1))
            else
              var r := Decode(x, b, at + 1);
              if r.None? then None else Some(Taken(VSome(r.value.v), r.value.end))
    ensures forall v :: Fits(v, SOptional(x)) <==> v == VNone || (v.VSome? && Fits(v.inner, x))
    ensures Encode(VNone) == [0] && forall v :: Encode(VSome(v)) == [1] + Encode(v)
  {
  }

  lemma {:induction false} OptionalIffEncoded(x: Shape, b: seq<u8>, at: nat, v: Value)
    requires at <= |b|
    ensures Fits(v, SOptional(x)) && StartsWith(b, at, Encode(v)) <==> Reads(Decode(SOptional(x), b, at), at, v)
    decreases SOptional(x), 1
  {
    hide StartsWith;
    hide Decode;
    hide Encode;
    hide Fits;
    OctetRead(b, at, 0);
    OctetRead(b, at, 1);
    OptionalUnfolds(x, b, at);
    if v.VSome? {
      StartsWithBoth(b, at, [1], Encode(v.inner));
      if at < |b| {
        DecodeIffEncoded(x, b, at + 1, v.inner);
      }
    }
  }

  lemma ListUnfolds(x: Shape, b: seq<u8>, at: nat)
    requires at <= |b|
    ensures Decode(SList(x), b, at) ==
            if |b| - at < 4 || Get32(b, at) > MAX_LIST then None
            else
              var r := DecodeChain(x, Get32(b, at), b, at + 4);
              if r.None? then None else Some(Taken(VList(Get32(b, at), r.value.v), r.value.end))
    ensures forall v :: Fits(v, SList(x)) <==> v.VList? && v.count <= MAX_LIST && ChainFits(v.chain, x, v.count)
    ensures forall n: nat, v :: n < TWO_32 ==> Encode(VList(n, v)) == Put32(n) + Encode(v)
  {
  }

  lemma {:induction false} ListIffEncoded(x: Shape, b: seq<u8>, at: nat, v: Value)
    requires at <= |b|
    ensures Fits(v, SList(x)) && StartsWith(b, at, Encode(v)) <==> Reads(Decode(SList(x), b, at), at, v)
    decreases SList(x), 1
  {
    hide Put32;
    hide Get32;
    hide StartsWith;
    hide Decode;
    hide DecodeChain;
    hide Encode;
    hide Fits;
    hide ChainFits;
    ListUnfolds(x, b, at);
    if v.VList? && v.count < TWO_32 {
      NumbersRead(b, at, 0, v.count, 0);
      StartsWithBoth(b, at, Put32(v.count), Encode(v.chain));
      if at + 4 <= |b| {
        ChainIffEncoded(x, v.count, b, at + 4, v.chain);
      }
    }
  }

  lemma {:induction false} ChainIffEncoded(x: Shape, n: nat, b: seq<u8>, at: nat, v: Value)
    requires at <= |b|
    ensures ChainFits(v, x, n) && StartsWith(b, at, Encode(v)) <==> Reads(DecodeChain(x, n, b, at), at, v)
    decreases x, n + 3
  {
    if n > 0 && v.VPair? {
      hide Encode, StartsWith, Reads, Decode, DecodeChain, Fits, ChainFits, Both;
      var r := Decode(x, b, at);
      ChainUnfolds(x, n, b, at, v);
      DecodeIffEncoded(x, b, at, v.first);
      if r.Some? {
        DecodedLength(x, b, at);
        ChainIffEncoded(x, n - 1, b, r.value.end, v.rest);
      }
      var q := if r.Some? then DecodeChain(x, n - 1, b, r.value.end) else None;
      BothRead(b, at, r, q, v.first, v.rest, Fits(v.first, x), ChainFits(v.rest, x, n - 1));
      assert v == VPair(v.first, v.rest);
    } else {
      hide Decode, Fits, Put16, Put32, Put64;
    }
  }

  lemma ChainUnfolds(x: Shape, n: nat, b: seq<u8>, at: nat, v: Value)
    requires at <= |b| && n > 0
    ensures var r := Decode(x, b, at);
            DecodeChain(x, n, b, at) == Both(r, if r.Some? then DecodeChain(x, n - 1, b, r.value.end) else None)
    ensures ChainFits(v, x, n) <==> v.VPair? && Fits(v.first, x) && ChainFits(v.rest, x, n - 1)
  {
    hide Decode, Fits;
  }

  /** No encoding of a shape is a proper prefix of another: what a reader of the
      shape takes from the front of some bytes is settled by the bytes. */
  lemma PrefixFree(s: Shape, v: Value, w: Value)
    requires Fits(v, s) && Fits(w, s) && Encode(v) <= Encode(w)
    ensures v == w
  {
    var b := Encode(w);
    assert b[0..0 + |Encode(v)|] == Encode(v);
    assert b[0..0 + |Encode(w)|] == Encode(w);
    DecodeIffEncoded(s, b, 0, v);
    DecodeIffEncoded(s, b, 0, w);
  }

  // ---- the writer and the reader -----------------------------------------------------------

  /** The string lengths that fit their 32-bit prefix. */
  predicate Writable(v: Value) {
    match v
    case VText(t) => |t| < TWO_32
    case VPair(a, b) => Writable(a) && Writable(b)
    case VSome(a) => Writable(a)
    case VList(n, chain) => n < TWO_32 && Writable(chain)
    case _ => true
  }

  function Pow256(k: nat): (p: nat)
    ensures p > 0
  {
    if k == 0 then 1 else 256 * Pow256(k - 1)
  }

  /** Octet i of a 64-bit number, the most significant first. */
  function Octet(v: u64, i: nat): u8
    requires i < 8
  {
    v / Pow256(7 - i) % 256
  }

  lemma Powers()
    ensures Pow256(0) == 1 && Pow256(1) == 0x100 && Pow256(2) == 0x1_0000 && Pow256(3) == 0x100_0000
    ensures Pow256(4) == 0x1_0000_0000 && Pow256(5) == 0x100_0000_0000
    ensures Pow256(6) == 0x1_0000_0000_0000 && Pow256(7) == 0x100_0000_0000_0000
  {
    assert Pow256(1) == 256 * Pow256(0);
    assert Pow256(2) == 256 * Pow256(1);
    assert Pow256(3) == 256 * Pow256(2);
    assert Pow256(4) == 256 * Pow256(3);
    assert Pow256(5) == 256 * Pow256(4);
    assert Pow256(6) == 256 * Pow256(5);
  }

  lemma Octets32(n: u32)
    ensures Put32(n) == [n / 0x100_0000, n / 0x1_0000 % 0x100, n / 0x100 % 0x100, n % 0x100]
  {
    var hi, lo := n / 0x1_0000, n % 0x1_0000;
    assert n / 0x100_0000 == hi / 0x100;
    assert n / 0x100 == hi * 0x100 + lo / 0x100;
    assert Put32(n) == [hi / 0x100, hi % 0x100, lo / 0x100, lo % 0x100];
  }

  lemma OctetsHigh(v: u64)
    ensures Put32(v / 0x1_0000_0000) == [Octet(v, 0), Octet(v, 1), Octet(v, 2), Octet(v, 3)]
  {
    hide Put32;
    Powers();
    var hi := v / 0x1_0000_0000;
    Octets32(hi);
    assert v / 0x100_0000_0000_0000 == hi / 0x100_0000;
    assert v / 0x1_0000_0000_0000 == hi / 0x1_0000;
    assert v / 0x100_0000_0000 == hi / 0x100;
  }

  lemma Shifted(hi: nat, lo: u32)
    ensures (hi * 0x100 + lo / 0x100_0000) % 0x100 == lo / 0x100_0000
    ensures (hi * 0x1_0000 + lo / 0x1_0000) % 0x100 == lo / 0x1_0000 % 0x100
    ensures (hi * 0x100_0000 + lo / 0x100) % 0x100 == lo / 0x100 % 0x100
    ensures (hi * 0x1_0000_0000 + lo) % 0x100 == lo % 0x100
  {
    LastOctet(hi, lo / 0x100_0000);
    LastOctet(hi * 0x100, lo / 0x1_0000);
    LastOctet(hi * 0x1_0000, lo / 0x100);
    LastOctet(hi * 0x100_0000, lo);
  }

  lemma LastOctet(k: nat, x: nat)
    ensures (k * 0x100 + x) % 0x100 == x % 0x100
  {
    assert k * 0x100 + x == (k + x / 0x100) * 0x100 + x % 0x100;
  }

  lemma OctetsLow(v: u64)
    ensures Put32(v % 0x1_0000_0000) == [Octet(v, 4), Octet(v, 5), Octet(v, 6), Octet(v, 7)]
  {
    hide Put32;
    Powers();
    var hi, lo := v / 0x1_0000_0000, v % 0x1_0000_0000;
    Octets32(lo);
    Shifted(hi, lo);
    assert v == hi * 0x1_0000_0000 + lo;
    assert v / 0x100_0000 == hi * 0x100 + lo / 0x100_0000;
    assert v / 0x1_0000 == hi * 0x1_0000 + lo / 0x1_0000;
    assert v / 0x100 == hi * 0x100_0000 + lo / 0x100;
  }

  function Octets(v: u64, n: nat): (s: seq<u8>)
    requires n <= 8
    ensures |s| == n && forall i :: 0 <= i < n ==> s[i] == Octet(v, i)
  {
    seq(n, i requires 0 <= i < n => Octet(v, i))
  }

  lemma OctetsOf(v: u64)
    ensures Octets(v, 8) == Put64(v)
  {
    OctetsHigh(v);
    OctetsLow(v);
    assert Put64(v) == Put32(v / 0x1_0000_0000) + Put32(v % 0x1_0000_0000);
  }

  class Writer {
    var bytes: seq<u8>

    constructor ()
      ensures bytes == []
    {
      bytes := [];
    }

    method PutU8(n: u8)
      modifies this
      ensures bytes == old(bytes) + [n]
    {
      bytes := bytes + [n];
    }

    method PutU16(n: u16)
      modifies this
      ensures bytes == old(bytes) + Put16(n)
    {
      bytes := bytes + [n / 0x100];
      bytes := bytes + [n % 0x100];
    }

    method PutU32(n: u32)
      modifies this
      ensures bytes == old(bytes) + Put32(n)
    {
      hide Put32;
      Octets32(n);
      bytes := bytes + [n / 0x100_0000 % 0x100];
      bytes := bytes + [n / 0x1_0000 % 0x100];
      bytes := bytes + [n / 0x100 % 0x100];
      bytes := bytes + [n % 0x100];
    }

    method PutU64(n: u64)
      modifies this
      ensures bytes == old(bytes) + Put64(n)
    {
      for i := 0 to 8
        invariant bytes == old(bytes) + Octets(n, i)
      {
        assert Octets(n, i + 1) == Octets(n, i) + [Octet(n, i)];
        bytes := bytes + [n / Pow256(7 - i) % 256];
      }
      OctetsOf(n);
    }

    method PutText(t: seq<u8>) returns (r: Result<bool>)
      modifies this
      ensures if |t| < TWO_32 then r == Ok(true) && bytes == old(bytes) + Encode(VText(t))
              else r == Err(InvalidValue) && bytes == old(bytes)
    {
      if |t| >= TWO_32 {
        return Err(InvalidValue);
      }
      PutU32(|t|);
      bytes := bytes + t;
      return Ok(true);
    }

    /** Write the fields of a message in order. */
    method Put(v: Value) returns (r: Result<bool>)
      modifies this
      ensures if Writable(v) then r == Ok(true) && bytes == old(bytes) + Encode(v) else r == Err(InvalidValue)
      decreases v
    {
      match v {
        case VU8(n) => PutU8(n);
        case VU16(n) => PutU16(n);
        case VU32(n) => PutU32(n);
        case VU64(n) => PutU64(n);
        case VFlag(b) => PutU8(if b then 1 else 0);
        case VText(t) => r := PutText(t); return;
        case VIpv4(a) => bytes := bytes + a;
        case VUnit => assert bytes == old(bytes) + [];
        case VPair(a, b) =>
          r := Put(a);
          if r.Err? {
            return;
          }
          r := Put(b);
          assert r.Ok? ==> bytes == old(bytes) + (Encode(a) + Encode(b));
          return;
        case VNone => PutU8(0);
        case VSome(a) =>
          PutU8(1);
          r := Put(a);
          assert r.Ok? ==> bytes == old(bytes) + ([1] + Encode(a));
          return;
        case VList(n, chain) =>
          if n >= TWO_32 {
            return Err(InvalidValue);
          }
          PutU32(n);
          r := Put(chain);
          assert r.Ok? ==> bytes == old(bytes) + (Put32(n) + Encode(chain));
          return;
      }
      r := Ok(true);
    }
  }

  function Value64(b: seq<u8>, at: nat, n: nat): (r: nat)
    requires at + n <= |b|
    ensures r < Pow256(n)
  {
    if n == 0 then 0 else Value64(b, at, n - 1) * 256 + b[at + n - 1]
  }

  lemma Value64Is(b: seq<u8>, at: nat)
    requires at + 8 <= |b|
    ensures Value64(b, at, 8) == Get64(b, at)
  {
    assert Value64(b, at, 0) == 0;
    assert Value64(b, at, 1) == b[at];
    assert Value64(b, at, 2) == Value64(b, at, 1) * 256 + b[at + 1] == Get16(b, at);
    assert Value64(b, at, 3) == Value64(b, at, 2) * 256 + b[at + 2];
    assert Value64(b, at, 4) == Value64(b, at, 3) * 256 + b[at + 3] == Get32(b, at);
    assert Value64(b, at, 5) == Value64(b, at, 4) * 256 + b[at + 4];
    assert Value64(b, at, 6) == Value64(b, at, 5) * 256 + b[at + 5];
    assert Value64(b, at, 7) == Value64(b, at, 6) * 256 + b[at + 6];
    assert Value64(b, at, 8) == Value64(b, at, 7) * 256 + b[at + 7];
  }

  class Reader {
    const bytes: seq<u8>
    var offset: nat

    ghost predicate Valid()
      reads this
    {
      offset <= |bytes|
    }

    constructor (b: seq<u8>)
      ensures Valid() && bytes == b && offset == 0
    {
      bytes, offset := b, 0;
    }

    /** A read succeeds exactly when the shape is there, and then moves past it. */
    ghost predicate Took(s: Shape, before: nat, r: Option<Value>)
      requires before <= |bytes|
      reads this
    {
      match Decode(s, bytes, before)
      case None => r == None
      case Some(t) => r == Some(t.v) && offset == t.end
    }

    method GetU8() returns (r: Option<Value>)
      requires Valid()
      modifies this
      ensures Valid() && Took(SU8, old(offset), r)
    {
      if |bytes| - offset < 1 {
        return None;
      }
      r := Some(VU8(bytes[offset]));
      offset := offset + 1;
    }

    method GetU16() returns (r: Option<Value>)
      requires Valid()
      modifies this
      ensures Valid() && Took(SU16, old(offset), r)
    {
      if |bytes| - offset < 2 {
        return None;
      }
      r := Some(VU16((bytes[offset] as int) * 0x100 + bytes[offset + 1]));
      offset := offset + 2;
    }

    method GetU32() returns (r: Option<Value>)
      requires Valid()
      modifies this
      ensures Valid() && Took(SU32, old(offset), r)
      ensures r.Some? ==> r.value.VU32?
    {
      if |bytes| - offset < 4 {
        return None;
      }
      var n := (bytes[offset] as int) * 0x100_0000 + (bytes[offset + 1] as int) * 0x1_0000
               + (bytes[offset + 2] as int) * 0x100 + bytes[offset + 3];
      r := Some(VU32(n));
      offset := offset + 4;
    }

    method GetU64() returns (r: Option<Value>)
      requires Valid()
      modifies this
      ensures Valid() && Took(SU64, old(offset), r)
    {
      if |bytes| - offset < 8 {
        return None;
      }
      var value: int := 0;
      for i := 0 to 8
        invariant value == Value64(bytes, offset, i)
      {
        value := value * 256 + bytes[offset + i];
      }
      Value64Is(bytes, offset);
      r := Some(VU64(value));
      offset := offset + 8;
    }

    method GetFlag() returns (r: Option<Value>)
      requires Valid()
      modifies this
      ensures Valid() && Took(SFlag, old(offset), r)
      ensures r.Some? ==> r.value.VFlag?
    {
      var n := GetU8();
      if n.None? {
        return None;
      }
      if n.value.n8 > 1 {
        return None;
      }
      return Some(VFlag(n.value.n8 != 0));
    }

    method GetText() returns (r: Option<Value>)
      requires Valid()
      modifies this
      ensures Valid() && Took(SText, old(offset), r)
    {
      var size := GetU32();
      if size.None? {
        return None;
      }
      if |bytes| - offset < size.value.n32 {
        return None;
      }
      r := Some(VText(bytes[offset..offset + size.value.n32]));
      offset := offset + size.value.n32;
    }

    method GetIpv4() returns (r: Option<Value>)
      requires Valid()
      modifies this
      ensures Valid() && Took(SIpv4, old(offset), r)
    {
      if |bytes| - offset < 4 {
        return None;
      }
      r := Some(VIpv4(bytes[offset..offset + 4]));
      offset := offset + 4;
    }

    /** Read the fields of a message in order. */
    method Get(s: Shape) returns (r: Option<Value>)
      requires Valid()
      modifies this
      ensures Valid() && Took(s, old(offset), r)
      decreases s, 0
    {
      match s {
        case SU8 => r := GetU8();
        case SU16 => r := GetU16();
        case SU32 => r := GetU32();
        case SU64 => r := GetU64();
        case SFlag => r := GetFlag();
        case SKind =>
          r := GetU32();
          if r.Some? && r.value.n32 > 1 {
            return None;
          }
        case SText => r := GetText();
        case SIpv4 => r := GetIpv4();
        case SUnit => r := Some(VUnit);
        case SPair(x, y) =>
          var a := Get(x);
          if a.None? {
            return None;
          }
          var b := Get(y);
          if b.None? {
            return None;
          }
          r := Some(VPair(a.value, b.value));
        case SOptional(x) =>
          var has := GetFlag();
          if has.None? {
            return None;
          }
          if !has.value.flag {
            return Some(VNone);
          }
          var a := Get(x);
          if a.None? {
            return None;
          }
          r := Some(VSome(a.value));
        case SList(x) =>
          var count := GetU32();
          if count.None? || count.value.n32 > MAX_LIST {
            return None;
          }
          var chain := GetChain(x, count.value.n32);
          if chain.None? {
            return None;
          }
          r := Some(VList(count.value.n32, chain.value));
      }
    }

    method GetChain(x: Shape, n: nat) returns (r: Option<Value>)
      requires Valid()
      modifies this
      ensures Valid()
      ensures match DecodeChain(x, n, bytes, old(offset))
              case None => r == None
              case Some(t) => r == Some(t.v) && offset == t.end
      decreases x, n + 1
    {
      if n == 0 {
        return Some(VUnit);
      }
      var first := Get(x);
      if first.None? {
        return None;
      }
      var rest := GetChain(x, n - 1);
      if rest.None? {
        return None;
      }
      return Some(VPair(first.value, rest.value));
    }
  }
}
