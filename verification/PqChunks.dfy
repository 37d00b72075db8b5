/** Carrying long post-quantum keys and signatures in several BOLT 11 tagged fields. */
module PqChunks {

  type Byte = x: nat | x < 256
  type Fe32 = x: nat | x < 32

  const MAX_FIELD_BYTES: nat := 639

  /** A tagged field: one with a known meaning, or the base32 values of one that is carried opaquely: a tag, two length
      values and the data. */
  datatype RawTaggedField = KnownSemantics(kind: nat) | UnknownSemantics(content: seq<Fe32>)

  function Pow2(w: nat): nat {
    if w == 0 then 1 else 2 * Pow2(w - 1)
  }

  /** Bits of a value, most significant first. */
  function ToBits(v: nat, w: nat): (r: seq<bool>)
    ensures |r| == w
  {
    if w == 0 then [] else ToBits(v / 2, w - 1) + [v % 2 == 1]
  }

  function FromBits(bits: seq<bool>): (r: nat)
    ensures r < Pow2(|bits|)
  {
    if bits == [] then 0 else 2 * FromBits(bits[..|bits| - 1]) + if bits[|bits| - 1] then 1 else 0
  }

  lemma {:induction false} BitsOfValue(v: nat, w: nat)
    requires v < Pow2(w)
    ensures FromBits(ToBits(v, w)) == v
    decreases w
  {
    if w > 0 {
      BitsOfValue(v / 2, w - 1);
      assert ToBits(v, w)[..w - 1] == ToBits(v / 2, w - 1);
    }
  }

  lemma {:induction false} ValueOfBits(bits: seq<bool>)
    ensures ToBits(FromBits(bits), |bits|) == bits
    decreases |bits|
  {
    if bits != [] {
      ValueOfBits(bits[..|bits| - 1]);
    }
  }

  function BytesBits(bytes: seq<Byte>): (r: seq<bool>)
    ensures |r| == 8 * |bytes|
  {
    if bytes == [] then [] else ToBits(bytes[0], 8) + BytesBits(bytes[1..])
  }

  function FesBits(fes: seq<Fe32>): (r: seq<bool>)
    ensures |r| == 5 * |fes|
  {
    if fes == [] then [] else ToBits(fes[0], 5) + FesBits(fes[1..])
  }

  function Zeros(n: nat): (r: seq<bool>)
    ensures |r| == n
  {
    seq(n, _ => false)
  }

  function Group5(bits: seq<bool>): Fe32
    requires |bits| == 5
  {
    assert Pow2(5) == 32 by { assert Pow2(3) == 8; }
    FromBits(bits)
  }

  function Group8(bits: seq<bool>): Byte
    requires |bits| == 8
  {
    assert Pow2(8) == 256 by { assert Pow2(3) == 8; assert Pow2(6) == 64; }
    FromBits(bits)
  }

  /** Regroups into 5-bit values, padding the last with zeros. */
  function BitsToFes(bits: seq<bool>): (r: seq<Fe32>)
    ensures |r| == (|bits| + 4) / 5
    decreases |bits|
  {
    if bits == [] then []
    else if |bits| < 5 then [Group5(bits + Zeros(5 - |bits|))]
    else [Group5(bits[..5])] + BitsToFes(bits[5..])
  }

  /** Regroups into bytes, dropping an incomplete rest. */
  function BitsToBytes(bits: seq<bool>): (r: seq<Byte>)
    ensures |r| == |bits| / 8
    decreases |bits|
  {
    if |bits| < 8 then [] else [Group8(bits[..8])] + BitsToBytes(bits[8..])
  }

  function BytesToFes(bytes: seq<Byte>): seq<Fe32> {
    BitsToFes(BytesBits(bytes))
  }

  function FesToBytes(fes: seq<Fe32>): seq<Byte> {
    BitsToBytes(FesBits(fes))
  }

  /** Bits count from the most significant one: a sequence of bits is worth what its front is worth, shifted, plus the
      rest. */
  lemma {:induction false} FromBitsConcat(a: seq<bool>, b: seq<bool>)
    ensures FromBits(a + b) == FromBits(a) * Pow2(|b|) + FromBits(b)
    ensures FromBits([true]) == 1 && FromBits([false]) == 0
    decreases |b|
  {
    assert [true][..0] == [] && [false][..0] == [];
    if b == [] {
      assert a + b == a;
    } else {
      FromBitsConcat(a, b[..|b| - 1]);
      assert (a + b)[..|a + b| - 1] == a + b[..|b| - 1];
      Distributes(FromBits(a), Pow2(|b| - 1));
    }
  }

  lemma Distributes(x: nat, p: nat)
    ensures 2 * (x * p) == x * (2 * p)
  {
  }

  /** The bits of a byte string are those of its bytes in order, and those of base32 values likewise. */
  lemma {:induction false} ByteAt(bytes: seq<Byte>, i: nat)
    requires i < |bytes|
    ensures BytesBits(bytes)[8 * i..8 * i + 8] == ToBits(bytes[i], 8)
    decreases |bytes|
  {
    if i > 0 {
      ByteAt(bytes[1..], i - 1);
      assert BytesBits(bytes)[8 * i..8 * i + 8] == BytesBits(bytes[1..])[8 * (i - 1)..8 * (i - 1) + 8];
    }
  }

  lemma {:induction false} FeAt(fes: seq<Fe32>, i: nat)
    requires i < |fes|
    ensures FesBits(fes)[5 * i..5 * i + 5] == ToBits(fes[i], 5)
    decreases |fes|
  {
    if i > 0 {
      FeAt(fes[1..], i - 1);
      assert FesBits(fes)[5 * i..5 * i + 5] == FesBits(fes[1..])[5 * (i - 1)..5 * (i - 1) + 5];
    }
  }

  /** The base32 values of a byte string carry its bits followed by fewer than five zeros. */
  lemma PaddedWithZeros(bytes: seq<Byte>) returns (pad: seq<bool>)
    ensures FesBits(BytesToFes(bytes)) == BytesBits(bytes) + pad
    ensures |pad| < 5 && forall i | 0 <= i < |pad| :: !pad[i]
  {
    FesCarryBits(BytesBits(bytes));
    pad := Zeros(5 * |BytesToFes(bytes)| - 8 * |bytes|);
  }

  lemma {:induction false} FesCarryBits(bits: seq<bool>)
    ensures FesBits(BitsToFes(bits)) == bits + Zeros(5 * |BitsToFes(bits)| - |bits|)
    decreases |bits|
  {
    if |bits| >= 5 {
      FesCarryBits(bits[5..]);
      ValueOfBits(bits[..5]);
      assert BitsToFes(bits)[1..] == BitsToFes(bits[5..]);
      assert bits == bits[..5] + bits[5..];
    } else if bits != [] {
      ValueOfBits(bits + Zeros(5 - |bits|));
      assert BitsToFes(bits)[1..] == [];
    }
  }

  lemma {:induction false} BytesSurvivePadding(bytes: seq<Byte>, pad: seq<bool>)
    requires |pad| < 8
    ensures BitsToBytes(BytesBits(bytes) + pad) == bytes
    decreases |bytes|
  {
    var bits := BytesBits(bytes) + pad;
    if bytes != [] {
      assert Pow2(8) == 256 by { assert Pow2(3) == 8; assert Pow2(6) == 64; }
      BitsOfValue(bytes[0], 8);
      assert bits[..8] == ToBits(bytes[0], 8);
      assert bits[8..] == BytesBits(bytes[1..]) + pad;
      BytesSurvivePadding(bytes[1..], pad);
    }
  }

  /** Regrouping to base32 and back is the identity on every byte string. */
  lemma RegroupRoundTrip(bytes: seq<Byte>)
    ensures FesToBytes(BytesToFes(bytes)) == bytes
    ensures |BytesToFes(bytes)| == (8 * |bytes| + 4) / 5
  {
    var bits := BytesBits(bytes);
    FesCarryBits(bits);
    BytesSurvivePadding(bytes, Zeros(5 * |BitsToFes(bits)| - |bits|));
  }

  /** The two length values give the number of data values, which fits ten bits. */
  predicate WellSized(f: RawTaggedField) {
    && f.UnknownSemantics? && |f.content| >= 3
    && (f.content[1] as nat) * 32 + (f.content[2] as nat) == |f.content| - 3 <= 1023
  }

  /** No more data values would fit. */
  predicate Full(f: RawTaggedField) {
    f.UnknownSemantics? && |f.content| == 3 + 1023
  }

  /** The tagged field for one chunk. 639 bytes are the most whose length fits ten bits. */
  function Field(tag: Fe32, chunk: seq<Byte>): (r: RawTaggedField)
    requires |chunk| <= MAX_FIELD_BYTES
    ensures WellSized(r) && r.content[0] == tag
    ensures r.content[3..] == BytesToFes(chunk)
  {
    var fes := BytesToFes(chunk);
    var len := |fes|;
    UnknownSemantics([tag, len / 32, len % 32] + fes)
  }

  /** No longer chunk would fit. */
  lemma FieldBoundTight(chunk: seq<Byte>)
    ensures |chunk| <= MAX_FIELD_BYTES <==> |BytesToFes(chunk)| <= 1023
  {
  }

  function Least(a: nat, b: nat): nat {
    if a <= b then a else b
  }

  function Append(fields: seq<RawTaggedField>, tag: Fe32, data: seq<Byte>): seq<RawTaggedField>
    decreases |data|
  {
    if data == [] then fields else
    var k := Least(|data|, MAX_FIELD_BYTES);
    Append(fields + [Field(tag, data[..k])], tag, data[k..])
  }

  predicate HasTag(field: RawTaggedField, tag: nat) {
    match field
    case UnknownSemantics(content) => tag < 32 && content != [] && content[0] == tag
    case KnownSemantics(_) => false
  }

  /** What one field contributes when reading a tag. */
  function Chunk(field: RawTaggedField, tag: nat): seq<Byte> {
    if HasTag(field, tag) && |field.content| >= 3 then FesToBytes(field.content[3..]) else []
  }

  function Read(fields: seq<RawTaggedField>, tag: nat): seq<Byte> {
    if fields == [] then [] else Read(fields[..|fields| - 1], tag) + Chunk(fields[|fields| - 1], tag)
  }

  lemma ReadSnoc(fields: seq<RawTaggedField>, f: RawTaggedField, tag: nat)
    ensures Read(fields + [f], tag) == Read(fields, tag) + Chunk(f, tag)
  {
    assert (fields + [f])[..|fields|] == fields;
  }

  lemma ChunkOfField(tag: Fe32, chunk: seq<Byte>, other: nat)
    requires |chunk| <= MAX_FIELD_BYTES
    ensures Chunk(Field(tag, chunk), tag) == chunk
    ensures other != tag ==> Chunk(Field(tag, chunk), other) == []
  {
    RegroupRoundTrip(chunk);
  }

  lemma Rejoin(before: seq<Byte>, data: seq<Byte>, k: nat)
    requires k <= |data|
    ensures before + data[..k] + data[k..] == before + data
    ensures before + [] == before
  {
  }

  /** Appending then reading the tag gives what was there before followed by the data; other tags are unaffected. */
  lemma {:induction false} ReadAfterAppend(fields: seq<RawTaggedField>, tag: Fe32, data: seq<Byte>, other: nat)
    ensures Read(Append(fields, tag, data), tag) == Read(fields, tag) + data
    ensures other != tag ==> Read(Append(fields, tag, data), other) == Read(fields, other)
    decreases |data|
  {
    if data == [] {
      Rejoin(Read(fields, tag), data, 0);
      Rejoin(Read(fields, other), data, 0);
    } else {
      var k := Least(|data|, MAX_FIELD_BYTES);
      var f := Field(tag, data[..k]);
      ReadAfterAppend(fields + [f], tag, data[k..], other);
      ReadSnoc(fields, f, tag);
      ReadSnoc(fields, f, other);
      Rejoin(Read(fields, other), data, k);
      ChunkOfField(tag, data[..k], other);
      Rejoin(Read(fields, tag), data, k);
    }
  }

  /** Fields already there stay, one field is added per started 639 bytes, all but the last are full, and each new
      field's two length values give its true length. */
  lemma {:induction false} AppendShape(fields: seq<RawTaggedField>, tag: Fe32, data: seq<Byte>)
    ensures |Append(fields, tag, data)| == |fields| + (|data| + MAX_FIELD_BYTES - 1) / MAX_FIELD_BYTES
    ensures Append(fields, tag, data)[..|fields|] == fields
    ensures forall i | |fields| <= i < |Append(fields, tag, data)| :: WellSized(Append(fields, tag, data)[i])
    ensures forall i | |fields| <= i < |Append(fields, tag, data)| - 1 :: Full(Append(fields, tag, data)[i])
    decreases |data|
  {
    if data != [] {
      var k := Least(|data|, MAX_FIELD_BYTES);
      var f := Field(tag, data[..k]);
      AppendShape(fields + [f], tag, data[k..]);
      var all := Append(fields, tag, data);
      assert all[..|fields| + 1] == fields + [f];
      assert all[|fields|] == f;
    }
  }

  /** Splits `data` into fields under `tag`, which has to fit five bits. */
  method AppendChunks(fields: seq<RawTaggedField>, tag: nat, data: seq<Byte>) returns (r: seq<RawTaggedField>)
    requires tag < 32
    ensures r == Append(fields, tag, data)
  {
    r := fields;
    var rest := data;
    while rest != []
      invariant Append(r, tag, rest) == Append(fields, tag, data)
      decreases |rest|
    {
      var chunk := rest[..Least(|rest|, MAX_FIELD_BYTES)];
      var fes := BytesToFes(chunk);
      var len := |fes|;
      var field: seq<Fe32> := [tag];
      field := field + [len / 32];
      field := field + [len % 32];
      field := field + fes;
      assert UnknownSemantics(field) == Field(tag, chunk);
      r := r + [UnknownSemantics(field)];
      rest := rest[|chunk|..];
    }
  }

  lemma ReadNext(fields: seq<RawTaggedField>, i: nat, tag: nat)
    requires i < |fields|
    ensures Read(fields[..i + 1], tag) == Read(fields[..i], tag) + Chunk(fields[i], tag)
  {
    assert fields[..i + 1][..i] == fields[..i];
  }

  /** Reassembles the bytes carried under `tag`; a tag that does not fit five bits has none. */
  method ReadChunks(fields: seq<RawTaggedField>, tag: nat) returns (out: seq<Byte>)
    ensures out == Read(fields, tag)
    ensures tag >= 32 ==> out == []
  {
    out := [];
    var i := 0;
    while i < |fields|
      invariant 0 <= i <= |fields|
      invariant out == Read(fields[..i], tag)
      invariant tag >= 32 ==> out == []
    {
      ReadNext(fields, i, tag);
      if HasTag(fields[i], tag) {
        var content := fields[i].content;
        if |content| >= 3 {
          out := out + FesToBytes(content[3..]);
        }
      }
      i := i + 1;
    }
    assert fields[..i] == fields;
  }
}
