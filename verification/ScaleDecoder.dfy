/**
 The SCALE decoders of the chain client: compact integers, and the pool reserves inside an
 encoded `Option<DynamicInfo>`. `EncodeCompact` is the reference, from section "Length and Compact
 Encoding" under "SCALE Codec" in Appendix A of the Polkadot Protocol Specification. Shifts and
 masks are written as multiplication, division and remainder; the operands of every `|` in the
 decoder occupy disjoint bits, so it is written as a sum.
 */
module ScaleDecoder {
  import opened Prelude

  type Byte = b: int | 0 <= b < 256

  // ---------------------------------------------------------------- little-endian numbers

  function Pow256(k: nat): (p: nat)
    ensures p >= 1
  {
    if k == 0 then 1 else 256 * Pow256(k - 1)
  }

  function LittleEndian(s: seq<Byte>): nat {
    if s == [] then 0 else s[0] + 256 * LittleEndian(s[1..])
  }

  /** The `k` low bytes of `n`. */
  function LowBytes(n: nat, k: nat): (s: seq<Byte>)
    ensures |s| == k
  {
    if k == 0 then [] else [n % 256] + LowBytes(n / 256, k - 1)
  }

  lemma {:induction false} LowBytesValue(n: nat, k: nat)
    requires n < Pow256(k)
    ensures LittleEndian(LowBytes(n, k)) == n
  {
    if k > 0 {
      assert n / 256 < Pow256(k - 1);
      LowBytesValue(n / 256, k - 1);
    }
  }

  lemma {:induction false} LittleEndianGrows(s: seq<Byte>, b: Byte)
    ensures LittleEndian(s + [b]) == LittleEndian(s) + b * Pow256(|s|)
  {
    if s == [] {
      assert s + [b] == [b];
    } else {
      LittleEndianGrows(s[1..], b);
      assert (s + [b])[1..] == s[1..] + [b];
      Distribute(b, Pow256(|s| - 1));
    }
  }

  lemma Distribute(b: int, p: int)
    ensures 256 * (b * p) == b * (256 * p)
  {
  }

  // ---------------------------------------------------------------- reference encoding

  /** The least number of bytes that hold `n`. */
  function ByteCount(n: nat): (k: nat)
    ensures k >= 1
  {
    if n < 256 then 1 else 1 + ByteCount(n / 256)
  }

  lemma {:induction false} ByteCountIsLeast(n: nat, k: nat)
    ensures k >= 1 ==> (n < Pow256(k) <==> ByteCount(n) <= k)
  {
    if k > 1 && n >= 256 {
      ByteCountIsLeast(n / 256, k - 1);
      assert n / 256 < Pow256(k - 1) <==> n < 256 * Pow256(k - 1);
    } else if k > 1 {
      assert Pow256(k) == 256 * Pow256(k - 1);
    }
  }

  const MAX_BIG_BYTES := 67

  /** The big mode spends at least four bytes and can announce at most 67. */
  function BigBytes(n: nat): nat { if ByteCount(n) < 4 then 4 else ByteCount(n) }

  predicate Encodable(n: nat) { BigBytes(n) <= MAX_BIG_BYTES }

  /** The encodable numbers are those below 2^536. */
  lemma EncodableIff(n: nat, k: nat)
    requires k == MAX_BIG_BYTES
    ensures Encodable(n) <==> n < Pow256(k)
  {
    ByteCountIsLeast(n, k);
    hide Pow256, ByteCount;
  }

  function EncodeCompact(n: nat): (s: seq<Byte>)
    requires Encodable(n)
    ensures |s| >= 1
  {
    if n < 0x40 then [n * 4]
    else if n < 0x4000 then
      var v := n * 4 + 1;
      [v % 0x100, v / 0x100]
    else if n < 0x4000_0000 then
      var v := n * 4 + 2;
      [v % 0x100, v / 0x100 % 0x100, v / 0x1_0000 % 0x100, v / 0x100_0000]
    else [(BigBytes(n) - 4) * 4 + 3] + LowBytes(n, BigBytes(n))
  }

  // ---------------------------------------------------------------- the decoder

  function ByteAt(raw: seq<Byte>, i: nat): int
    requires i < |raw|
  {
    raw[i]
  }

  function DecodeCompact(raw: seq<Byte>): (r: (nat, nat))
    ensures raw == [] <==> r.1 == 0
    ensures r.1 <= |raw|
  {
    if raw == [] then (0, 0)
    else
      var first := ByteAt(raw, 0);
      var mode := first % 4;
      if mode == 0 then (first / 4, 1)
      else if mode == 1 then
        if |raw| < 2 then (0, 1) else (first / 4 + ByteAt(raw, 1) * 0x40, 2)
      else if mode == 2 then
        if |raw| < 4 then (0, 1)
        else (first / 4 + ByteAt(raw, 1) * 0x40 + ByteAt(raw, 2) * 0x4000 + ByteAt(raw, 3) * 0x40_0000, 4)
      else
        var byteLen := first / 4 + 4;
        if |raw| < 1 + byteLen then (0, 1) else (LittleEndian(raw[1..1 + byteLen]), 1 + byteLen)
  }

  method DecodeScaleCompact(raw: seq<Byte>) returns (value: nat, consumed: nat)
    ensures (value, consumed) == DecodeCompact(raw)
  {
    if raw == [] { return 0, 0; }
    var first := ByteAt(raw, 0);
    var mode := first % 4;
    if mode == 0 { return first / 4, 1; }
    if mode == 1 {
      if |raw| < 2 { return 0, 1; }
      return first / 4 + ByteAt(raw, 1) * 0x40, 2;
    }
    if mode == 2 {
      if |raw| < 4 { return 0, 1; }
      return first / 4 + ByteAt(raw, 1) * 0x40 + ByteAt(raw, 2) * 0x4000 + ByteAt(raw, 3) * 0x40_0000, 4;
    }
    var byteLen := first / 4 + 4;
    if |raw| < 1 + byteLen { return 0, 1; }
    value := 0;
    var i: nat, place: nat := 0, 1;
    while i < byteLen
      invariant 0 <= i <= byteLen && place == Pow256(i)
      invariant value == LittleEndian(raw[1..1 + i])
    {
      LittleEndianGrows(raw[1..1 + i], raw[1 + i]);
      assert raw[1..1 + i] + [raw[1 + i]] == raw[1..2 + i];
      value := value + ByteAt(raw, 1 + i) * place;
      i, place := i + 1, 256 * place;
    }
    return value, 1 + byteLen;
  }

  lemma TwoByteMode(n: nat, rest: seq<Byte>)
    requires 0x40 <= n < 0x4000 && Encodable(n)
    ensures DecodeCompact(EncodeCompact(n) + rest) == (n, 2)
  {
  }

  lemma FourByteMode(n: nat, rest: seq<Byte>)
    requires 0x4000 <= n < 0x4000_0000 && Encodable(n)
    ensures DecodeCompact(EncodeCompact(n) + rest) == (n, 4)
  {
    hide Encodable;
    var v := n * 4 + 2;
    var raw := EncodeCompact(n) + rest;
    assert ByteAt(raw, 0) == v % 0x100 && ByteAt(raw, 1) == v / 0x100 % 0x100;
    assert ByteAt(raw, 2) == v / 0x1_0000 % 0x100 && ByteAt(raw, 3) == v / 0x100_0000;
    FourBytes(v);
  }

  lemma FourBytes(v: nat)
    ensures v % 0x100 / 4 + v / 0x100 % 0x100 * 0x40 + v / 0x1_0000 % 0x100 * 0x4000 + v / 0x100_0000 * 0x40_0000 ==
            v / 4
    ensures v % 0x100 % 4 == v % 4
  {
    var b0, b1, b2, b3 := v % 0x100, v / 0x100 % 0x100, v / 0x1_0000 % 0x100, v / 0x100_0000;
    BaseDigits(v);
    QuarterOf(b0, b1 * 0x40 + b2 * 0x4000 + b3 * 0x40_0000);
  }

  lemma BaseDigits(v: nat)
    ensures v == v % 0x100 + v / 0x100 % 0x100 * 0x100 + v / 0x1_0000 % 0x100 * 0x1_0000 + v / 0x100_0000 * 0x100_0000
  {
    Requotient(v, 0x100);
    Requotient(v, 0x1_0000);
  }

  lemma Requotient(v: nat, d: nat)
    requires d == 0x100 || d == 0x1_0000
    ensures v / d == v / d % 0x100 + v / (d * 0x100) * 0x100
  {
  }

  lemma QuarterOf(b: nat, k: nat)
    ensures (b + 4 * k) / 4 == b / 4 + k && (b + 4 * k) % 4 == b % 4
  {
  }

  lemma BigMode(n: nat, rest: seq<Byte>)
    requires n >= 0x4000_0000 && Encodable(n)
    ensures DecodeCompact(EncodeCompact(n) + rest) == (n, |EncodeCompact(n)|)
  {
    var m := BigBytes(n);
    var s := LowBytes(n, m);
    var raw := EncodeCompact(n) + rest;
    assert ByteAt(raw, 0) == (m - 4) * 4 + 3;
    assert raw[1..1 + m] == s;
    ByteCountIsLeast(n, m);
    LowBytesValue(n, m);
  }

  /** Round trip: the decoder reads back every encodable number and consumes exactly its encoding,
      whatever follows. */
  lemma CompactRoundTrip(n: nat, rest: seq<Byte>)
    requires Encodable(n)
    ensures DecodeCompact(EncodeCompact(n) + rest) == (n, |EncodeCompact(n)|)
  {
    hide Encodable;
    if n < 0x40 {
      assert ByteAt(EncodeCompact(n) + rest, 0) == n * 4;
    } else if n < 0x4000 {
      TwoByteMode(n, rest);
    } else if n < 0x4000_0000 {
      FourByteMode(n, rest);
    } else {
      BigMode(n, rest);
    }
  }

  /** A cut encoding is not reported: it reads as zero and consumes one byte. */
  lemma CutEncodingReadsZero(n: nat, k: nat)
    requires Encodable(n) && 0 < k < |EncodeCompact(n)|
    ensures DecodeCompact(EncodeCompact(n)[..k]) == (0, 1)
  {
  }

  // ---------------------------------------------------------------- Option<DynamicInfo>

  /** `compact_at`: None is the ValueError at the end of the data. */
  function CompactAt(data: seq<Byte>, offset: nat): (r: Option<(nat, nat)>)
    ensures r.Some? <==> offset < |data|
    ensures r.Some? ==> offset < r.value.1 <= |data|
  {
    if offset >= |data| then None
    else
      var d := DecodeCompact(data[offset..]);
      Some((d.0, offset + d.1))
  }

  function CompactItems(data: seq<Byte>, offset: nat, count: nat): (r: Option<(seq<nat>, nat)>)
    ensures r.Some? ==> |r.value.0| == count && offset + count <= r.value.1
    ensures r.Some? && offset <= |data| ==> r.value.1 <= |data|
    decreases if offset < |data| then |data| - offset else 0
  {
    if count == 0 then Some(([], offset))
    else
      var head := CompactAt(data, offset);
      if head.None? then None
      else
        var tail := CompactItems(data, head.value.1, count - 1);
        if tail.None? then None else Some(([head.value.0] + tail.value.0, tail.value.1))
  }

  function CompactVecAt(data: seq<Byte>, offset: nat): (r: Option<(seq<nat>, nat)>)
    ensures r.Some? ==> offset < r.value.1 <= |data|
  {
    var length := CompactAt(data, offset);
    if length.None? then None else CompactItems(data, length.value.1, length.value.0)
  }

  /** Items already read, put in front of what the rest gives. */
  function After(values: seq<nat>, rest: Option<(seq<nat>, nat)>): Option<(seq<nat>, nat)> {
    if rest.None? then None else Some((values + rest.value.0, rest.value.1))
  }

  lemma NoItems(data: seq<Byte>, at: nat)
    ensures CompactItems(data, at, 0) == Some(([], at))
  {
  }

  lemma AfterOneMore(data: seq<Byte>, at: nat, count: nat, values: seq<nat>)
    requires count > 0
    ensures
      var item := CompactAt(data, at);
      After(values, CompactItems(data, at, count)) ==
      if item.None? then None else After(values + [item.value.0], CompactItems(data, item.value.1, count - 1))
  {
    hide CompactAt;
    var item := CompactAt(data, at);
    if item.Some? {
      var rest := CompactItems(data, item.value.1, count - 1);
      if rest.Some? {
        assert values + ([item.value.0] + rest.value.0) == values + [item.value.0] + rest.value.0;
      }
    }
  }

  /** The vector loop runs no longer than the data, whatever length the data claims. */
  method ReadCompactVec(data: seq<Byte>, offset: nat) returns (r: Option<(seq<nat>, nat)>, rounds: nat)
    ensures r == CompactVecAt(data, offset)
    ensures offset <= |data| ==> rounds <= |data| - offset
  {
    hide CompactItems, CompactAt;
    rounds := 0;
    var length := CompactAt(data, offset);
    if length.None? { return None, 0; }
    var count, at := length.value.0, length.value.1;
    var values: seq<nat> := [];
    var all := CompactItems(data, at, count);
    assert all.Some? ==> [] + all.value.0 == all.value.0;
    var i := 0;
    while i < count
      invariant 0 <= i <= count && rounds == i == |values|
      invariant offset + 1 + i <= at <= |data|
      invariant CompactVecAt(data, offset) == After(values, CompactItems(data, at, count - i))
      decreases |data| - at
    {
      var item := CompactAt(data, at);
      AfterOneMore(data, at, count - i, values);
      if item.None? { return None, i + 1; }
      values := values + [item.value.0];
      at := item.value.1;
      i, rounds := i + 1, rounds + 1;
    }
    assert CompactItems(data, at, 0) == Some(([], at)) by { NoItems(data, at); }
    assert values + [] == values;
    return Some((values, at)), rounds;
  }

  datatype Pool = Pool(netuid: nat, name: seq<nat>, symbol: seq<nat>, taoIn: nat, alphaIn: nat, alphaOut: nat)

  /** `Raises` is the ValueError of `bytes(...)` on a name element above 255, outside the handler. */
  datatype PoolResult = Decoded(pool: Pool) | Nothing | Raises

  predicate AllBytes(s: seq<nat>) { forall i :: 0 <= i < |s| ==> s[i] < 256 }

  function PoolFrom(netuid: nat, name: seq<nat>, symbol: seq<nat>, reserves: seq<nat>): PoolResult
    requires |reserves| == 3
  {
    var p := Pool(netuid, name, symbol, reserves[2], reserves[0], reserves[1]);
    if p.taoIn == 0 then Nothing
    else if !AllBytes(name) || !AllBytes(symbol) then Raises
    else Decoded(p)
  }

  function DecodeDynamicInfoPool(data: seq<Byte>): PoolResult
  {
    if data == [] || data[0] != 1 then Nothing
    else
      var netuid := CompactAt(data, 1);
      if netuid.None? then Nothing
      else
        var offset := netuid.value.1 + 64;
        if offset > |data| then Nothing
        else
          var name := CompactVecAt(data, offset);
          if name.None? then Nothing
          else
            var symbol := CompactVecAt(data, name.value.1);
            if symbol.None? then Nothing
            else
              // tempo, last step, blocks since, emission, then the reserves
              var rest := CompactItems(data, symbol.value.1, 7);
              if rest.None? then Nothing
              else PoolFrom(netuid.value.0, name.value.0, symbol.value.0, rest.value.0[4..])
  }

  // ---------------------------------------------------------------- reference encoding of the info

  predicate Fits(s: seq<nat>) { forall i :: 0 <= i < |s| ==> Encodable(s[i]) }

  function EncodeItems(s: seq<nat>): seq<Byte>
    requires Fits(s)
  {
    if s == [] then [] else EncodeCompact(s[0]) + EncodeItems(s[1..])
  }

  function EncodeVec(s: seq<nat>): seq<Byte>
    requires Fits(s) && Encodable(|s|)
  {
    EncodeCompact(|s|) + EncodeItems(s)
  }

  datatype DynamicInfo = DynamicInfo(
    netuid: nat, accounts: seq<Byte>, name: seq<nat>, symbol: seq<nat>, counters: seq<nat>,
    alphaIn: nat, alphaOut: nat, taoIn: nat)

  predicate WellFormed(d: DynamicInfo) {
    && Encodable(d.netuid) && |d.accounts| == 64
    && Fits(d.name) && Encodable(|d.name|) && Fits(d.symbol) && Encodable(|d.symbol|)
    && |d.counters| == 4 && Fits(d.counters + [d.alphaIn, d.alphaOut, d.taoIn])
  }

  function EncodeSome(d: DynamicInfo): seq<Byte>
    requires WellFormed(d)
  {
    [1] + EncodeCompact(d.netuid) + d.accounts + EncodeVec(d.name) + EncodeVec(d.symbol) +
    EncodeItems(d.counters + [d.alphaIn, d.alphaOut, d.taoIn])
  }

  /** The bytes from `offset` on are `a` and then `rest`. */
  ghost predicate Holds(data: seq<Byte>, offset: nat, a: seq<Byte>, rest: seq<Byte>) {
    offset <= |data| && data[offset..] == a + rest
  }

  lemma HoldsInTurn(data: seq<Byte>, offset: nat, a: seq<Byte>, b: seq<Byte>, rest: seq<Byte>)
    requires Holds(data, offset, a + b, rest)
    ensures Holds(data, offset, a, b + rest) && Holds(data, offset + |a|, b, rest)
  {
  }

  lemma CompactAtEncoded(data: seq<Byte>, offset: nat, n: nat, rest: seq<Byte>)
    requires Encodable(n) && Holds(data, offset, EncodeCompact(n), rest)
    ensures CompactAt(data, offset) == Some((n, offset + |EncodeCompact(n)|))
  {
    hide EncodeCompact;
    CompactRoundTrip(n, rest);
  }

  lemma OneMoreItem(data: seq<Byte>, offset: nat, n: nat, next: nat, s: seq<nat>, end: nat)
    requires CompactAt(data, offset) == Some((n, next)) && CompactItems(data, next, |s|) == Some((s, end))
    ensures CompactItems(data, offset, |s| + 1) == Some(([n] + s, end))
  {
  }

  lemma {:induction false} ItemsEncoded(data: seq<Byte>, offset: nat, s: seq<nat>, rest: seq<Byte>)
    requires Fits(s) && Holds(data, offset, EncodeItems(s), rest)
    ensures CompactItems(data, offset, |s|) == Some((s, offset + |EncodeItems(s)|))
    decreases |s|
  {
    hide EncodeCompact, CompactAt, Encodable, Holds;
    if s != [] {
      hide CompactItems;
      var n, tail := s[0], s[1..];
      assert [n] + tail == s && Encodable(n) && Fits(tail);
      var head, more := EncodeCompact(n), EncodeItems(tail);
      assert EncodeItems(s) == head + more;
      hide EncodeItems;
      HoldsInTurn(data, offset, head, more, rest);
      CompactAtEncoded(data, offset, n, more + rest);
      ItemsEncoded(data, offset + |head|, tail, rest);
      OneMoreItem(data, offset, n, offset + |head|, tail, offset + |head| + |more|);
    }
  }

  lemma VecEncoded(data: seq<Byte>, offset: nat, s: seq<nat>, rest: seq<Byte>)
    requires Fits(s) && Encodable(|s|) && Holds(data, offset, EncodeVec(s), rest)
    ensures CompactVecAt(data, offset) == Some((s, offset + |EncodeVec(s)|))
  {
    hide EncodeCompact, CompactAt, Encodable, EncodeItems, CompactItems, Holds;
    HoldsInTurn(data, offset, EncodeCompact(|s|), EncodeItems(s), rest);
    CompactAtEncoded(data, offset, |s|, EncodeItems(s) + rest);
    ItemsEncoded(data, offset + |EncodeCompact(|s|)|, s, rest);
  }

  /** Decoding an encoded `Some(info)`, whatever follows it: the raw reserves come back, an empty
      TAO side reads as no pool, and a name element that is not a byte raises. */
  lemma PoolRoundTrip(d: DynamicInfo, tail: seq<Byte>)
    requires WellFormed(d)
    ensures DecodeDynamicInfoPool(EncodeSome(d) + tail) ==
            if d.taoIn == 0 then Nothing
            else if AllBytes(d.name) && AllBytes(d.symbol)
            then Decoded(Pool(d.netuid, d.name, d.symbol, d.taoIn, d.alphaIn, d.alphaOut))
            else Raises
  {
    hide EncodeCompact, EncodeVec, EncodeItems, CompactVecAt, CompactItems, CompactAt, Encodable, DecodeCompact;
    var data := EncodeSome(d) + tail;
    var items := d.counters + [d.alphaIn, d.alphaOut, d.taoIn];
    var netuid, name := EncodeCompact(d.netuid), EncodeVec(d.name);
    var symbol, last := EncodeVec(d.symbol), EncodeItems(items);
    assert Holds(data, 0, [1] + netuid + d.accounts + name + symbol + last, tail);
    HoldsInTurn(data, 0, [1] + netuid + d.accounts + name + symbol, last, tail);
    HoldsInTurn(data, 0, [1] + netuid + d.accounts + name, symbol, last + tail);
    HoldsInTurn(data, 0, [1] + netuid + d.accounts, name, symbol + (last + tail));
    HoldsInTurn(data, 0, [1] + netuid, d.accounts, name + (symbol + (last + tail)));
    HoldsInTurn(data, 0, [1], netuid, d.accounts + (name + (symbol + (last + tail))));
    CompactAtEncoded(data, 1, d.netuid, d.accounts + (name + (symbol + (last + tail))));
    VecEncoded(data, 1 + |netuid| + 64, d.name, symbol + (last + tail));
    var afterName := 1 + |netuid| + 64 + |name|;
    VecEncoded(data, afterName, d.symbol, last + tail);
    ItemsEncoded(data, afterName + |symbol|, items, tail);
    assert items[4..] == [d.alphaIn, d.alphaOut, d.taoIn];
  }

  /** On any input the vectors that were read fit the input they were read from. */
  lemma VectorsFitTheData(data: seq<Byte>, offset: nat)
    requires CompactVecAt(data, offset).Some?
    ensures
      var r := CompactVecAt(data, offset).value;
      |r.0| < |data| - offset && offset + |r.0| < r.1 <= |data|
  {
  }

  /** A pool comes only out of an encoded `Some` with a TAO side and names that are bytes. */
  lemma DecodedIsPool(data: seq<Byte>)
    ensures DecodeDynamicInfoPool(data).Decoded? ==>
              var p := DecodeDynamicInfoPool(data).pool;
              && |data| > 65 && data[0] == 1 && p.taoIn > 0 && AllBytes(p.name) && AllBytes(p.symbol)
    ensures data == [] || data[0] != 1 ==> DecodeDynamicInfoPool(data) == Nothing
  {
    hide CompactItems, DecodeCompact;
  }
}
