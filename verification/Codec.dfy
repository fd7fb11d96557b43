/**
 The binary codec: a reader that advances over a buffer, a writer that appends, and
 type-length-value lists. The functions say what is written and what is read; each
 read undoes the write of the same name and accepts nothing else.
 */
module Codec {
  import opened Bytes
  import opened Wrappers

  /** A value read from the front of a byte string, and what is left. */
  type Taken<T> = Option<(T, seq<byte>)>

  // -------------------------------------------------------------- what is written

  function Var8(b: seq<byte>): (r: seq<byte>)
    requires |b| <= 255
  {
    [|b| as byte] + b
  }

  function Var16(b: seq<byte>): (r: seq<byte>)
    requires |b| <= 65535
  {
    U16(|b|) + b
  }

  // ----------------------------------------------------------------- what is read

  function Take(s: seq<byte>, n: nat): (r: Taken<seq<byte>>) {
    if |s| < n then None else Some((s[..n], s[n..]))
  }

  function TakeByte(s: seq<byte>): (r: Taken<byte>) {
    if |s| < 1 then None else Some((s[0], s[1..]))
  }

  function TakeU16(s: seq<byte>): (r: Taken<uint16>) {
    if |s| < 2 then None else Some((FromU16(s[..2]), s[2..]))
  }

  function TakeU64(s: seq<byte>): (r: Taken<uint64>) {
    if |s| < 8 then None else Some((FromU64(s[..8]), s[8..]))
  }

  function TakeVar8(s: seq<byte>): (r: Taken<seq<byte>>) {
    var (n, rest) :- TakeByte(s);
    Take(rest, n)
  }

  function TakeVar16(s: seq<byte>): (r: Taken<seq<byte>>) {
    var (n, rest) :- TakeU16(s);
    Take(rest, n)
  }

  // ------------------------------------------------------------- read after write

  lemma TakeWritten(b: seq<byte>, rest: seq<byte>)
    ensures Take(b + rest, |b|) == Some((b, rest))
  {
  }

  lemma TakeU16Written(v: uint16, rest: seq<byte>)
    ensures TakeU16(U16(v) + rest) == Some((v, rest))
  {
    assert (U16(v) + rest)[..2] == U16(v);
    U16RoundTrip(v);
  }

  lemma TakeU64Written(v: uint64, rest: seq<byte>)
    ensures TakeU64(U64(v) + rest) == Some((v, rest))
  {
    assert (U64(v) + rest)[..8] == U64(v);
    U64RoundTrip(v);
  }

  lemma TakeVar8Written(b: seq<byte>, rest: seq<byte>)
    requires |b| <= 255
    ensures TakeVar8(Var8(b) + rest) == Some((b, rest))
  {
    assert (Var8(b) + rest)[1..] == b + rest;
  }

  lemma TakeVar16Written(b: seq<byte>, rest: seq<byte>)
    requires |b| <= 65535
    ensures TakeVar16(Var16(b) + rest) == Some((b, rest))
  {
    assert Var16(b) + rest == U16(|b|) + (b + rest);
    TakeU16Written(|b|, b + rest);
  }

  // ------------------------------------------------------------- write after read

  lemma TakenU16(s: seq<byte>)
    requires |s| >= 2
    ensures s == U16(FromU16(s[..2])) + s[2..]
  {
    FromU16RoundTrip(s[..2]);
  }

  lemma TakenU64(s: seq<byte>)
    requires |s| >= 8
    ensures s == U64(FromU64(s[..8])) + s[8..]
  {
    FromU64RoundTrip(s[..8]);
  }

  lemma TakenVar8(s: seq<byte>)
    requires TakeVar8(s).Some?
    ensures var (b, rest) := TakeVar8(s).value; |b| <= 255 && s == Var8(b) + rest
  {
  }

  lemma TakenVar16(s: seq<byte>)
    requires TakeVar16(s).Some?
    ensures var (b, rest) := TakeVar16(s).value; |b| <= 65535 && s == Var16(b) + rest
  {
    TakenU16(s);
  }

  // ---------------------------------------------------------------- reader, writer

  class BinaryReader {
    const buf: seq<byte>
    var pos: nat

    ghost predicate Valid()
      reads this
    {
      pos <= |buf|
    }

    ghost function Rest(): (r: seq<byte>)
      requires Valid()
      reads this
    {
      buf[pos..]
    }

    constructor (buf: seq<byte>)
      ensures Valid() && Rest() == buf && this.buf == buf && pos == 0
    {
      this.buf, pos := buf, 0;
    }

    function Remaining(): (n: nat)
      requires Valid()
      reads this
      ensures n == |Rest()|
    {
      |buf| - pos
    }

    method ReadByte() returns (r: Option<byte>)
      requires Valid()
      modifies this
      ensures Valid()
      ensures if r.Some? then TakeByte(old(Rest())) == Some((r.value, Rest()))
              else TakeByte(old(Rest())) == None
    {
      if Remaining() < 1 {
        return None;
      }
      r := Some(buf[pos]);
      pos := pos + 1;
    }

    method ReadUint16() returns (r: Option<uint16>)
      requires Valid()
      modifies this
      ensures Valid()
      ensures if r.Some? then TakeU16(old(Rest())) == Some((r.value, Rest()))
              else TakeU16(old(Rest())) == None
    {
      if Remaining() < 2 {
        return None;
      }
      assert Rest()[..2] == buf[pos..pos + 2];
      r := Some(FromU16(buf[pos..pos + 2]));
      pos := pos + 2;
    }

    method ReadUint64() returns (r: Option<uint64>)
      requires Valid()
      modifies this
      ensures Valid()
      ensures if r.Some? then TakeU64(old(Rest())) == Some((r.value, Rest()))
              else TakeU64(old(Rest())) == None
    {
      if Remaining() < 8 {
        return None;
      }
      assert Rest()[..8] == buf[pos..pos + 8];
      r := Some(FromU64(buf[pos..pos + 8]));
      pos := pos + 8;
    }

    method ReadFixed(n: nat) returns (r: Option<seq<byte>>)
      requires Valid()
      modifies this
      ensures Valid()
      ensures if r.Some? then Take(old(Rest()), n) == Some((r.value, Rest()))
              else Take(old(Rest()), n) == None
    {
      if Remaining() < n {
        return None;
      }
      assert Rest()[..n] == buf[pos..pos + n] && Rest()[n..] == buf[pos + n..];
      r := Some(buf[pos..pos + n]);
      pos := pos + n;
    }

    method ReadVar8() returns (r: Option<seq<byte>>)
      requires Valid()
      modifies this
      ensures Valid()
      ensures if r.Some? then TakeVar8(old(Rest())) == Some((r.value, Rest()))
              else TakeVar8(old(Rest())) == None
    {
      var n := ReadByte();
      if n.None? {
        return None;
      }
      r := ReadFixed(n.value);
    }

    method ReadVar16() returns (r: Option<seq<byte>>)
      requires Valid()
      modifies this
      ensures Valid()
      ensures if r.Some? then TakeVar16(old(Rest())) == Some((r.value, Rest()))
              else TakeVar16(old(Rest())) == None
    {
      var n := ReadUint16();
      if n.None? {
        return None;
      }
      r := ReadFixed(n.value);
    }
  }

  // ------------------------------------------------------------------------- TLVs

  datatype TLV = TLV(typ: uint16, value: seq<byte>)

  function TlvSize(tlvs: seq<TLV>): (n: nat)
    ensures forall i :: 0 <= i < |tlvs| ==> |tlvs[i].value| <= n
  {
    if tlvs == [] then 0 else 4 + |tlvs[0].value| + TlvSize(tlvs[1..])
  }

  /** Every value fits its length prefix. */
  predicate Prefixable(tlvs: seq<TLV>) {
    forall i :: 0 <= i < |tlvs| ==> |tlvs[i].value| <= 65535
  }

  function TlvBytes(tlvs: seq<TLV>): (r: seq<byte>)
    requires Prefixable(tlvs)
    ensures |r| == TlvSize(tlvs)
  {
    if tlvs == [] then [] else U16(tlvs[0].typ) + (Var16(tlvs[0].value) + TlvBytes(tlvs[1..]))
  }

  function ParseTlvs(raw: seq<byte>): (r: Option<seq<TLV>>)
    decreases |raw|
  {
    if raw == [] then Some([])
    else
      var (typ, s1) :- TakeU16(raw);
      var (value, s2) :- TakeVar16(s1);
      var rest :- ParseTlvs(s2);
      Some([TLV(typ, value)] + rest)
  }

  /** Every list that can be written is read back. */
  lemma {:induction false} TlvRoundTrip(tlvs: seq<TLV>)
    requires Prefixable(tlvs)
    ensures ParseTlvs(TlvBytes(tlvs)) == Some(tlvs)
  {
    if tlvs != [] {
      var rest := TlvBytes(tlvs[1..]);
      TakeU16Written(tlvs[0].typ, Var16(tlvs[0].value) + rest);
      TakeVar16Written(tlvs[0].value, rest);
      TlvRoundTrip(tlvs[1..]);
      assert tlvs == [TLV(tlvs[0].typ, tlvs[0].value)] + tlvs[1..];
    }
  }

  /** Every accepted byte string, of any length, is the written form of what it is read as. */
  lemma {:induction false} TlvCanonical(raw: seq<byte>)
    requires ParseTlvs(raw).Some?
    ensures var tlvs := ParseTlvs(raw).value; Prefixable(tlvs) && TlvSize(tlvs) == |raw| && TlvBytes(tlvs) == raw
    decreases |raw|
  {
    if raw != [] {
      var (typ, s1) := TakeU16(raw).value;
      var (value, s2) := TakeVar16(s1).value;
      TakenU16(raw);
      TakenVar16(s1);
      TlvCanonical(s2);
      assert ParseTlvs(raw).value[1..] == ParseTlvs(s2).value;
    }
  }

  /** What the encoder makes of a list: nothing if it takes more than 65535 bytes. */
  function Encoded(tlvs: seq<TLV>): (r: Option<seq<byte>>) {
    if TlvSize(tlvs) <= 65535 then Some(TlvBytes(tlvs)) else None
  }

  /** Encoding what was decoded gives the bytes back if and only if there are at most 65535
      of them: the decoder reads longer strings, which the encoder refuses to write. */
  lemma TlvReencodedIff(raw: seq<byte>)
    requires ParseTlvs(raw).Some?
    ensures Encoded(ParseTlvs(raw).value) == Some(raw) <==> |raw| <= 65535
    ensures |raw| > 65535 ==> Encoded(ParseTlvs(raw).value) == None
  {
    TlvCanonical(raw);
  }

  /** Two values of 40000 zero bytes: read, but not written again. */
  lemma LongListNotReencoded()
    ensures var zeros := seq(40000, _ => 0 as byte);
            var tlvs := [TLV(0, zeros), TLV(0, zeros)];
            ParseTlvs(TlvBytes(tlvs)) == Some(tlvs) && Encoded(tlvs) == None
  {
    var zeros := seq(40000, _ => 0 as byte);
    var tlvs := [TLV(0, zeros), TLV(0, zeros)];
    TlvRoundTrip(tlvs);
    assert tlvs[1..] == [TLV(0, zeros)];
    assert TlvSize(tlvs) >= 80000;
  }

  method WriteTLVs(tlvs: seq<TLV>) returns (buf: seq<byte>)
    requires Prefixable(tlvs)
    ensures buf == TlvBytes(tlvs)
  {
    hide U16;
    buf := [];
    for i := 0 to |tlvs|
      invariant buf + TlvBytes(tlvs[i..]) == TlvBytes(tlvs)
    {
      var before := buf;
      buf := buf + U16(tlvs[i].typ);
      buf := buf + U16(|tlvs[i].value|);
      buf := buf + tlvs[i].value;
      Regroup(before, tlvs[i], TlvBytes(tlvs[i + 1..]));
      assert tlvs[i..][1..] == tlvs[i + 1..];
    }
    assert buf == buf + TlvBytes(tlvs[|tlvs|..]);
  }

  /** Writes a list iff its encoding fits in 65535 bytes. */
  method EncodeTLVs(tlvs: seq<TLV>) returns (r: Option<seq<byte>>)
    ensures r == Encoded(tlvs)
  {
    var total := 0;
    for i := 0 to |tlvs|
      invariant total + TlvSize(tlvs[i..]) == TlvSize(tlvs) && total <= 65535
    {
      if |tlvs[i].value| > 65535 {
        return None;
      }
      total := total + 4 + |tlvs[i].value|;
      if total > 65535 {
        return None;
      }
    }
    var buf := WriteTLVs(tlvs);
    return Some(buf);
  }

  lemma Regroup(before: seq<byte>, t: TLV, rest: seq<byte>)
    requires |t.value| <= 65535
    ensures before + U16(t.typ) + U16(|t.value|) + t.value + rest == before + (U16(t.typ) + (Var16(t.value) + rest))
  {
  }

  method DecodeTLVs(raw: seq<byte>) returns (r: Option<seq<TLV>>)
    ensures r == ParseTlvs(raw)
  {
    var reader := new BinaryReader(raw);
    var out: seq<TLV> := [];
    hide ParseTlvs, TakeU16, TakeVar16, Prepend;
    PrependNone(ParseTlvs(raw));
    ParseEmpty();
    while reader.Remaining() > 0
      invariant reader.Valid() && fresh(reader)
      invariant ParseTlvs(raw) == Prepend(out, ParseTlvs(reader.Rest()))
      decreases |reader.Rest()|
    {
      ParseUnfold(out, reader.Rest());
      var typ := reader.ReadUint16();
      if typ.None? {
        return None;
      }
      var value := reader.ReadVar16();
      if value.None? {
        return None;
      }
      out := out + [TLV(typ.value, value.value)];
    }
    PrependDone(out);
    return Some(out);
  }

  ghost function Prepend(out: seq<TLV>, r: Option<seq<TLV>>): Option<seq<TLV>> {
    if r.None? then None else Some(out + r.value)
  }

  lemma PrependOne(out: seq<TLV>, t: TLV, r: Option<seq<TLV>>)
    ensures Prepend(out + [t], r) == Prepend(out, if r.None? then None else Some([t] + r.value))
  {
    if r.Some? {
      assert out + [t] + r.value == out + ([t] + r.value);
    }
  }

  /** One step of the loop. */
  lemma ParseUnfold(out: seq<TLV>, raw: seq<byte>)
    requires raw != []
    ensures TakeU16(raw).None? ==> Prepend(out, ParseTlvs(raw)) == None
    ensures TakeU16(raw).Some? ==>
              var (typ, s1) := TakeU16(raw).value;
              && (TakeVar16(s1).None? ==> Prepend(out, ParseTlvs(raw)) == None)
              && (TakeVar16(s1).Some? ==>
                    var (value, s2) := TakeVar16(s1).value;
                    |s2| < |raw| && Prepend(out, ParseTlvs(raw)) == Prepend(out + [TLV(typ, value)], ParseTlvs(s2)))
  {
    if TakeU16(raw).Some? {
      var (typ, s1) := TakeU16(raw).value;
      if TakeVar16(s1).Some? {
        var (value, s2) := TakeVar16(s1).value;
        PrependOne(out, TLV(typ, value), ParseTlvs(s2));
      }
    }
  }

  lemma ParseEmpty()
    ensures ParseTlvs([]) == Some([])
  {
  }

  lemma PrependDone(out: seq<TLV>)
    ensures Prepend(out, Some([])) == Some(out)
  {
    assert out + [] == out;
  }

  lemma PrependNone(r: Option<seq<TLV>>)
    ensures Prepend([], r) == r
  {
    if r.Some? {
      assert [] + r.value == r.value;
    }
  }
}
