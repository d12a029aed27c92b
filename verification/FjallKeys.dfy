/** Byte keys of the Fjall partitions and their order in the tree. */
module FjallKeys {
  import opened Wrappers

  type Byte = b: int | 0 <= b < 256

  type Bytes = seq<Byte>

  type U64 = n: int | 0 <= n <= U64_MAX

  const MAX_KEY_LEN: nat := 65535
  const MAX_STREAM_ID_LEN: nat := MAX_KEY_LEN - 18
  const MAX_EVENT_ID_LEN: nat := MAX_KEY_LEN - 10

  // ----- fixed-width integers -----------------------------------------------------

  function Power(width: nat): nat {
    if width == 0 then 1 else 256 * Power(width - 1)
  }

  /** Big-endian, `width` bytes. */
  function Big(width: nat, n: nat): (s: Bytes)
    ensures |s| == width
  {
    if width == 0 then [] else Big(width - 1, n / 256) + [n % 256]
  }

  function FromBig(s: Bytes): nat {
    if s == [] then 0 else 256 * FromBig(s[..|s| - 1]) + s[|s| - 1]
  }

  /** Little-endian, `width` bytes. */
  function Little(width: nat, n: nat): (s: Bytes)
    ensures |s| == width
  {
    if width == 0 then [] else [n % 256] + Little(width - 1, n / 256)
  }

  function FromLittle(s: Bytes): nat {
    if s == [] then 0 else s[0] + 256 * FromLittle(s[1..])
  }

  lemma {:induction false} BigRoundTrip(width: nat, n: nat)
    requires n < Power(width)
    ensures FromBig(Big(width, n)) == n
  {
    if width > 0 {
      BigRoundTrip(width - 1, n / 256);
      assert Big(width, n)[..width - 1] == Big(width - 1, n / 256);
    }
  }

  lemma {:induction false} BigIsOnto(s: Bytes)
    ensures FromBig(s) < Power(|s|) && Big(|s|, FromBig(s)) == s
  {
    if s != [] {
      BigIsOnto(s[..|s| - 1]);
    }
  }

  lemma {:induction false} LittleRoundTrip(width: nat, n: nat)
    requires n < Power(width)
    ensures FromLittle(Little(width, n)) == n
  {
    if width > 0 {
      LittleRoundTrip(width - 1, n / 256);
      assert Little(width, n)[1..] == Little(width - 1, n / 256);
    }
  }

  lemma Powers()
    ensures Power(2) == 0x1_0000 && Power(8) == U64_MAX + 1
  {
  }

  // ----- the order of the tree ------------------------------------------------------

  predicate Less(a: Bytes, b: Bytes) {
    b != [] && (a == [] || a[0] < b[0] || (a[0] == b[0] && Less(a[1..], b[1..])))
  }

  lemma {:induction false} LessIsTotal(a: Bytes, b: Bytes)
    ensures a == b || Less(a, b) || Less(b, a)
    ensures !(Less(a, b) && Less(b, a)) && (Less(a, b) ==> a != b)
  {
    if a != [] && b != [] {
      LessIsTotal(a[1..], b[1..]);
      assert a == [a[0]] + a[1..] && b == [b[0]] + b[1..];
    }
  }

  lemma {:induction false} LessIsTransitive(a: Bytes, b: Bytes, c: Bytes)
    requires Less(a, b) && Less(b, c)
    ensures Less(a, c)
  {
    if a != [] && a[0] == b[0] == c[0] {
      LessIsTransitive(a[1..], b[1..], c[1..]);
    }
  }

  /** Keys that differ in fields of one width are ordered by those fields. */
  lemma {:induction false} LessByHead(a: Bytes, x: Bytes, b: Bytes, y: Bytes)
    requires |a| == |b|
    ensures Less(a + x, b + y) <==> Less(a, b) || (a == b && Less(x, y))
  {
    if a == [] {
      assert a + x == x && b + y == y;
    } else {
      assert (a + x)[1..] == a[1..] + x && (b + y)[1..] == b[1..] + y;
      LessByHead(a[1..], x, b[1..], y);
      assert a == [a[0]] + a[1..] && b == [b[0]] + b[1..];
    }
  }

  /** Big-endian keeps the order of numbers. */
  lemma {:induction false} BigOrder(width: nat, m: nat, n: nat)
    requires m < Power(width) && n < Power(width)
    ensures Less(Big(width, m), Big(width, n)) <==> m < n
    ensures Big(width, m) == Big(width, n) <==> m == n
  {
    BigRoundTrip(width, m);
    BigRoundTrip(width, n);
    if width > 0 {
      BigOrder(width - 1, m / 256, n / 256);
      LessByHead(Big(width - 1, m / 256), [m % 256], Big(width - 1, n / 256), [n % 256]);
      LessByte(m % 256, n % 256);
    }
  }

  lemma LessByte(x: Byte, y: Byte)
    ensures Less([x], [y]) <==> x < y
  {
  }

  // ----- event keys -----------------------------------------------------------------

  datatype EncodeError = IdTooLong(len: nat, max: nat)

  datatype DecodeError = InvalidSize(expected: nat, actual: nat) | ValueTooShort(min: nat, actual: nat)

  /** The layout: length of the id, the id, the version. */
  function EventKey(id: Bytes, version: nat): Bytes {
    Big(2, |id|) + id + Big(8, version)
  }

  function EncodeEventKey(id: Bytes, version: U64): (r: Result<Bytes, EncodeError>) {
    if |id| > MAX_EVENT_ID_LEN then Err(IdTooLong(|id|, MAX_EVENT_ID_LEN)) else Ok(EventKey(id, version))
  }

  function DecodeEventKey(key: Bytes): (r: Result<(Bytes, nat), DecodeError>) {
    if |key| < 2 then Err(ValueTooShort(2, |key|))
    else
      var len := FromBig(key[..2]);
      if |key| != 10 + len then Err(InvalidSize(10 + len, |key|))
      else Ok((key[2..2 + len], FromBig(key[2 + len..])))
  }

  lemma EventKeyDecodes(id: Bytes, version: U64)
    requires |id| <= MAX_KEY_LEN
    ensures DecodeEventKey(EventKey(id, version)) == Ok((id, version))
  {
    var key := EventKey(id, version);
    Powers();
    BigRoundTrip(2, |id|);
    BigRoundTrip(8, version);
    assert key[..2] == Big(2, |id|);
    assert key[2..2 + |id|] == id;
    assert key[2 + |id|..] == Big(8, version);
  }

  /** Encoding succeeds exactly within the limit, and decoding inverts it. */
  lemma EventKeyRoundTrip(id: Bytes, version: U64)
    ensures EncodeEventKey(id, version).Ok? <==> |id| <= MAX_EVENT_ID_LEN
    ensures EncodeEventKey(id, version).Ok? ==>
              && |EncodeEventKey(id, version).value| <= MAX_KEY_LEN
              && DecodeEventKey(EncodeEventKey(id, version).value) == Ok((id, version))
  {
    if |id| <= MAX_EVENT_ID_LEN {
      EventKeyDecodes(id, version);
    }
  }

  /** Every key that decodes is the one encoding of what it decodes to. */
  lemma EventKeyIsCanonical(key: Bytes)
    requires DecodeEventKey(key).Ok?
    ensures var (id, version) := DecodeEventKey(key).value; key == EventKey(id, version) && version <= U64_MAX
  {
    var len := FromBig(key[..2]);
    Powers();
    BigIsOnto(key[..2]);
    BigIsOnto(key[2 + len..]);
    assert key == key[..2] + key[2..2 + len] + key[2 + len..];
  }

  lemma LessByFields(a: Bytes, i: Bytes, x: Bytes, b: Bytes, j: Bytes, y: Bytes)
    requires |a| == |b| && (a == b ==> |i| == |j|)
    ensures Less(a + i + x, b + j + y) <==> Less(a, b) || (a == b && (Less(i, j) || (i == j && Less(x, y))))
  {
    assert a + i + x == a + (i + x) && b + j + y == b + (j + y);
    LessByHead(a, i + x, b, j + y);
    if a == b {
      LessByHead(i, x, j, y);
    }
  }

  /** Keys sort by id length, then id, then version. */
  lemma EventKeyOrder(id: Bytes, version: U64, other: Bytes, at: U64)
    requires |id| <= MAX_KEY_LEN && |other| <= MAX_KEY_LEN
    ensures Less(EventKey(id, version), EventKey(other, at)) <==>
              || |id| < |other|
              || (|id| == |other| && (Less(id, other) || (id == other && version < at)))
  {
    Powers();
    BigOrder(2, |id|, |other|);
    BigOrder(8, version, at);
    LessByFields(Big(2, |id|), id, Big(8, version), Big(2, |other|), other, Big(8, at));
  }

  lemma EventKeyIsUnique(id: Bytes, version: U64, other: Bytes, at: U64)
    requires |id| <= MAX_KEY_LEN && |other| <= MAX_KEY_LEN && EventKey(id, version) == EventKey(other, at)
    ensures id == other && version == at
  {
    EventKeyDecodes(id, version);
    EventKeyDecodes(other, at);
  }

  /** The key range of a stream holds no key of any other stream: ids that are
      prefixes of one another included. */
  lemma EventRange(id: Bytes, from: U64, other: Bytes, at: U64)
    requires |id| <= MAX_KEY_LEN && |other| <= MAX_KEY_LEN
    ensures !Less(EventKey(other, at), EventKey(id, from)) && !Less(EventKey(id, U64_MAX), EventKey(other, at)) <==>
            other == id && from <= at
  {
    EventKeyOrder(other, at, id, from);
    EventKeyOrder(id, U64_MAX, other, at);
    LessIsTotal(id, other);
  }

  // ----- `$all` keys ----------------------------------------------------------------

  function GlobalKey(position: nat, id: Bytes, version: nat): Bytes {
    Big(8, position) + EventKey(id, version)
  }

  function EncodeGlobalKey(position: U64, id: Bytes, version: U64): (r: Result<Bytes, EncodeError>) {
    if |id| > MAX_STREAM_ID_LEN then Err(IdTooLong(|id|, MAX_STREAM_ID_LEN)) else Ok(GlobalKey(position, id, version))
  }

  function DecodeGlobalKey(key: Bytes): (r: Result<(nat, Bytes, nat), DecodeError>) {
    if |key| < 18 then Err(ValueTooShort(18, |key|))
    else
      var len := FromBig(key[8..10]);
      if |key| != 18 + len then Err(InvalidSize(18 + len, |key|))
      else Ok((FromBig(key[..8]), key[10..10 + len], FromBig(key[10 + len..])))
  }

  /** A `$all` key is its position followed by the event key. */
  lemma GlobalKeySplits(key: Bytes)
    requires 18 <= |key|
    ensures DecodeGlobalKey(key).Ok? <==> DecodeEventKey(key[8..]).Ok?
    ensures DecodeGlobalKey(key).Ok? ==>
              DecodeGlobalKey(key).value ==
              (FromBig(key[..8]), DecodeEventKey(key[8..]).value.0, DecodeEventKey(key[8..]).value.1)
  {
    var tail := key[8..];
    assert tail[..2] == key[8..10];
    var len := FromBig(key[8..10]);
    if |key| == 18 + len {
      assert tail[2..2 + len] == key[10..10 + len];
      assert tail[2 + len..] == key[10 + len..];
    }
  }

  lemma GlobalKeyRoundTrip(position: U64, id: Bytes, version: U64)
    ensures EncodeGlobalKey(position, id, version).Ok? <==> |id| <= MAX_STREAM_ID_LEN
    ensures EncodeGlobalKey(position, id, version).Ok? ==>
              && |EncodeGlobalKey(position, id, version).value| <= MAX_KEY_LEN
              && DecodeGlobalKey(EncodeGlobalKey(position, id, version).value) == Ok((position, id, version))
  {
    if |id| <= MAX_STREAM_ID_LEN {
      var key := GlobalKey(position, id, version);
      Powers();
      BigRoundTrip(8, position);
      assert key[..8] == Big(8, position) && key[8..] == EventKey(id, version);
      EventKeyDecodes(id, version);
      GlobalKeySplits(key);
    }
  }

  lemma GlobalKeyIsCanonical(key: Bytes)
    requires DecodeGlobalKey(key).Ok?
    ensures var (position, id, version) := DecodeGlobalKey(key).value;
            key == GlobalKey(position, id, version) && position <= U64_MAX && version <= U64_MAX
  {
    Powers();
    GlobalKeySplits(key);
    BigIsOnto(key[..8]);
    EventKeyIsCanonical(key[8..]);
    assert key == key[..8] + key[8..];
  }

  /** Positions alone decide the order of keys with different positions. */
  lemma GlobalKeyOrder(p: U64, id: Bytes, version: U64, q: U64, other: Bytes, at: U64)
    requires p != q
    ensures Less(GlobalKey(p, id, version), GlobalKey(q, other, at)) <==> p < q
    ensures GlobalKey(p, id, version) != GlobalKey(q, other, at)
  {
    Powers();
    BigOrder(8, p, q);
    LessByHead(Big(8, p), EventKey(id, version), Big(8, q), EventKey(other, at));
    assert GlobalKey(p, id, version)[..8] == Big(8, p) && GlobalKey(q, other, at)[..8] == Big(8, q);
  }

  /** The lower bound with an empty id sorts before every key of its position. */
  lemma GlobalRange(from: U64, position: U64, id: Bytes, version: U64)
    requires |id| <= MAX_KEY_LEN
    ensures !Less(GlobalKey(position, id, version), GlobalKey(from, [], 0)) <==> from <= position
  {
    if position != from {
      GlobalKeyOrder(position, id, version, from, [], 0);
    } else {
      LessByHead(Big(8, from), EventKey(id, version), Big(8, from), EventKey([], 0));
      LessIsTotal(Big(8, from), Big(8, from));
      EventKeyOrder(id, version, [], 0);
      LessIsTotal(id, []);
    }
  }

  // ----- counters -------------------------------------------------------------------

  function EncodeStreamVersion(version: U64): Bytes {
    Little(8, version)
  }

  function DecodeStreamVersion(value: Bytes): (r: Result<nat, DecodeError>) {
    if |value| != 8 then Err(InvalidSize(8, |value|)) else Ok(FromLittle(value))
  }

  lemma StreamVersionRoundTrip(version: U64)
    ensures DecodeStreamVersion(EncodeStreamVersion(version)) == Ok(version)
  {
    Powers();
    LittleRoundTrip(8, version);
  }
}
