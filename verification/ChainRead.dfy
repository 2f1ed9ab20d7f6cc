/** A pinned read of the chain's registered subnets, and the parser that admits one. */
module ChainReads {
  import opened Prelude

  datatype ChainRead = ChainRead(blockHash: string, netuids: seq<int>, rpc: Option<string>)

  /** Untrusted input; a netuid that is not an int is None, a field of the wrong type is None. */
  datatype Raw = NotADict | Fields(blockHash: Option<string>, netuids: Option<seq<Option<int>>>, rpc: Option<string>)

  const MAX_NETUID := 65535

  predicate HexDigit(c: char) { '0' <= c <= '9' || 'a' <= c <= 'f' }

  predicate LoosePin(h: string) {
    |h| >= 3 && h[..2] == "0x" && forall i :: 2 <= i < |h| ==> HexDigit(h[i])
  }

  predicate FullPin(h: string) { LoosePin(h) && |h| == 66 }

  predicate RpcLabel(s: string) {
    && 1 <= |s| <= 32 && 'a' <= s[0] <= 'z'
    && forall i :: 1 <= i < |s| ==> 'a' <= s[i] <= 'z' || '0' <= s[i] <= '9' || s[i] == '_' || s[i] == '-'
  }

  predicate InRange(n: int) { 0 < n <= MAX_NETUID }

  /** The check the parser makes on neighbours. */
  predicate NeighboursAscend(s: seq<int>) {
    forall i :: 0 < i < |s| ==> s[i - 1] < s[i]
  }

  function Ints(s: seq<Option<int>>): (r: Option<seq<int>>)
    ensures r.Some? <==> forall i :: 0 <= i < |s| ==> s[i].Some?
    ensures r.Some? ==> |r.value| == |s| && forall i :: 0 <= i < |s| ==> s[i] == Some(r.value[i])
  {
    if s == [] then Some([])
    else
      var rest := Ints(s[1..]);
      if s[0].None? || rest.None? then None else Some([s[0].value] + rest.value)
  }

  function Parse(raw: Raw, pinned: bool): Option<ChainRead>
  {
    if raw.NotADict? || raw.blockHash.None? then None
    else if !(if pinned then FullPin(raw.blockHash.value) else LoosePin(raw.blockHash.value)) then None
    else if raw.netuids.None? || raw.netuids.value == [] then None
    else
      var netuids := Ints(raw.netuids.value);
      if netuids.None? || exists i :: 0 <= i < |netuids.value| && !InRange(netuids.value[i]) then None
      else if !NeighboursAscend(netuids.value) then None
      else
        var rpc := if raw.rpc.Some? && RpcLabel(raw.rpc.value) then raw.rpc else None;
        Some(ChainRead(raw.blockHash.value, netuids.value, rpc))
  }

  function ToDict(c: ChainRead): Raw
  {
    Fields(Some(c.blockHash), Some(seq(|c.netuids|, i requires 0 <= i < |c.netuids| => Some(c.netuids[i]))), c.rpc)
  }

  /** What a pinned read promises: a full block hash, netuids in order and in range, a label that
      can carry no secret. */
  ghost predicate Admissible(c: ChainRead) {
    && FullPin(c.blockHash)
    && c.netuids != [] && StrictlyAscending(c.netuids)
    && (forall i :: 0 <= i < |c.netuids| ==> InRange(c.netuids[i]))
    && (c.rpc.Some? ==> RpcLabel(c.rpc.value))
  }

  lemma {:induction false} NeighboursSuffice(s: seq<int>, i: nat, j: nat)
    requires NeighboursAscend(s) && i < j < |s|
    ensures s[i] < s[j]
  {
    if i + 1 < j { NeighboursSuffice(s, i, j - 1); }
    assert s[j - 1] < s[j];
  }

  /** The strict parser admits nothing that is not a full pin with ordered netuids in range. */
  lemma ParsedIsAdmissible(raw: Raw)
    ensures Parse(raw, true).Some? ==> Admissible(Parse(raw, true).value)
  {
    if Parse(raw, true).Some? {
      var c := Parse(raw, true).value;
      forall i, j | 0 <= i < j < |c.netuids| ensures c.netuids[i] < c.netuids[j] {
        NeighboursSuffice(c.netuids, i, j);
      }
    }
  }

  /** What the strict parser takes, and what it makes of it: a label out of shape is dropped and does
      not cost the read. */
  lemma ParsedIff(raw: Raw)
    ensures Parse(raw, true).Some? <==>
            && raw.Fields? && raw.blockHash.Some? && FullPin(raw.blockHash.value)
            && raw.netuids.Some? && raw.netuids.value != []
            && (forall i :: 0 <= i < |raw.netuids.value| ==>
                  raw.netuids.value[i].Some? && 1 <= raw.netuids.value[i].value <= 65535)
            && (forall i, j :: 0 <= i < j < |raw.netuids.value| ==>
                  raw.netuids.value[i].Some? && raw.netuids.value[j].Some? &&
                  raw.netuids.value[i].value < raw.netuids.value[j].value)
    ensures Parse(raw, true).Some? ==>
              var c := Parse(raw, true).value;
              && raw.blockHash == Some(c.blockHash) && |c.netuids| == |raw.netuids.value|
              && (forall i :: 0 <= i < |c.netuids| ==> raw.netuids.value[i] == Some(c.netuids[i]))
              && c.rpc == if raw.rpc.Some? && RpcLabel(raw.rpc.value) then raw.rpc else None
  {
    ParsedIsAdmissible(raw);
  }

  /** A read survives being written and parsed again exactly when it is admissible. */
  lemma ParseRoundTripIff(c: ChainRead)
    ensures Parse(ToDict(c), true) == Some(c) <==> Admissible(c)
  {
    ParsedIsAdmissible(ToDict(c));
    if Admissible(c) {
      var raw := ToDict(c);
      assert Ints(raw.netuids.value).value == c.netuids;
    }
  }
}
