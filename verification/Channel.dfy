/**
  The field readers and writers of the IPC channel over an in-memory byte
  stream, and what each reader gets back of what its writer put.
 */
module Channel {
  import opened Wrappers
  import opened Sequences
  import opened Division

  /** The outcome of a write; OverflowError is what `to_bytes` raises for an integer that does not fit. */
  datatype Status = Done | OverflowError {
    predicate IsFailure() {
      OverflowError?
    }

    function PropagateFailure(): Status
      requires IsFailure()
    {
      this
    }
  }

  // ------------------------------------------------------ big-endian integers

  ghost function Pow256(n: nat): nat {
    if n == 0 then 1 else 256 * Pow256(n - 1)
  }

  predicate Fits(v: int, width: nat) {
    0 <= v && Magnitude(v, width)
  }

  /** v < 256^width, without the power. */
  predicate Magnitude(v: nat, width: nat) {
    if width == 0 then v == 0 else Magnitude(v / 256, width - 1)
  }

  /** `int.to_bytes(width, "big")`. */
  function BigEndian(v: nat, width: nat): (bs: Bytes)
    ensures |bs| == width
  {
    if width == 0 then [] else BigEndian(v / 256, width - 1) + [v % 256]
  }

  /** `int.from_bytes(bs, "big")`, of however many bytes there are. */
  function FromBytes(bs: Bytes): nat {
    if bs == [] then 0 else 256 * FromBytes(bs[..|bs| - 1]) + bs[|bs| - 1]
  }

  lemma {:induction false} BigEndianRoundTrip(v: nat, width: nat)
    requires Magnitude(v, width)
    ensures FromBytes(BigEndian(v, width)) == v
  {
    if width > 0 {
      BigEndianRoundTrip(v / 256, width - 1);
      var bs := BigEndian(v, width);
      assert bs[..|bs| - 1] == BigEndian(v / 256, width - 1);
    }
  }

  lemma Pow256Positive(n: nat)
    ensures Pow256(n) > 0
  {
  }

  /** Most significant byte first: the k-th byte is the digit of v at its place, to base 256. */
  lemma {:induction false} BytesAreDigits(v: nat, width: nat, k: nat)
    requires k < width
    ensures Pow256(width - 1 - k) > 0
    ensures BigEndian(v, width)[k] as int == v / Pow256(width - 1 - k) % 256
  {
    Pow256Positive(width - 1 - k);
    if k < width - 1 {
      BytesAreDigits(v / 256, width - 1, k);
      Pow256Positive(width - 2 - k);
      DivDiv(v, Pow256(width - 2 - k));
    }
  }

  lemma {:induction false} FitsMeans(v: int, width: nat)
    ensures Fits(v, width) <==> 0 <= v < Pow256(width)
  {
    if v >= 0 && width > 0 {
      FitsMeans(v / 256, width - 1);
    }
  }

  // ----------------------------------------------------------- field formats

  /** A C float, by its bytes. */
  type Float4 = bs: Bytes | |bs| == 4 witness [0, 0, 0, 0]

  /** A Python float, by the bytes of its C double. */
  type Float8 = bs: Bytes | |bs| == 8 witness [0, 0, 0, 0, 0, 0, 0, 0]

  /** `struct.pack("f", x)`, None when it raises because x is too large, and `struct.unpack("f", bs)`. */
  datatype Floats = Floats(pack: Float8 -> Option<Float4>, unpack: Float4 -> Float8)

  /** What is left of a float after it was packed: the nearest single-precision value. */
  function Rounded(fl: Floats, x: Float8): Float8 {
    if fl.pack(x).Some? then fl.unpack(fl.pack(x).value) else x
  }

  function PutNat(v: nat, width: nat, k: Bytes): Bytes {
    BigEndian(v, width) + k
  }

  function PutBytes(s: Bytes, k: Bytes): Bytes {
    PutNat(|s|, 4, s + k)
  }

  function PutBool(v: bool, k: Bytes): Bytes {
    PutNat(if v then 1 else 0, 1, k)
  }

  function PutFloat(fl: Floats, x: Float8, k: Bytes): Bytes {
    if fl.pack(x).Some? then fl.pack(x).value + k else k
  }

  /** A length-prefixed field: its length in four bytes, most significant first, then the bytes themselves. */
  function Field(s: Bytes): (f: Bytes)
    ensures |f| == 4 + |s| && f[4..] == s
  {
    BigEndian(|s|, 4) + s
  }

  /** Where the fields stand: each in front of what follows. */
  lemma FieldsStand(s: Bytes, v: nat, width: nat, b: bool, k: Bytes)
    ensures PutBytes(s, k) == Field(s) + k
    ensures PutNat(v, width, k) == BigEndian(v, width) + k
    ensures PutBool(b, k) == [if b then 1 else 0] + k
  {
    Assoc(BigEndian(|s|, 4), s, k);
    assert BigEndian(0, 1) == [0] && BigEndian(1, 1) == [1];
  }

  /** `BytesIO.read(n)`: at most what is left. */
  function Take(bs: Bytes, n: nat): Bytes {
    if n <= |bs| then bs[..n] else bs
  }

  function Drop(bs: Bytes, n: nat): Bytes {
    if n <= |bs| then bs[n..] else []
  }

  function GetNat(bs: Bytes, width: nat): (nat, Bytes) {
    (FromBytes(Take(bs, width)), Drop(bs, width))
  }

  function GetBytes(bs: Bytes): (Bytes, Bytes) {
    var (n, rest) := GetNat(bs, 4);
    (Take(rest, n), Drop(rest, n))
  }

  function GetBool(bs: Bytes): (bool, Bytes) {
    var (n, rest) := GetNat(bs, 1);
    (n != 0, rest)
  }

  lemma TakeDrop(a: Bytes, k: Bytes)
    ensures Take(a + k, |a|) == a && Drop(a + k, |a|) == k
  {
  }

  lemma GetPutNat(v: nat, width: nat, k: Bytes)
    requires Magnitude(v, width)
    ensures GetNat(PutNat(v, width, k), width) == (v, k)
  {
    BigEndianRoundTrip(v, width);
    TakeDrop(BigEndian(v, width), k);
  }

  lemma GetPutBytes(s: Bytes, k: Bytes)
    requires Magnitude(|s|, 4)
    ensures GetBytes(PutBytes(s, k)) == (s, k)
  {
    GetPutNat(|s|, 4, s + k);
    TakeDrop(s, k);
  }

  lemma GetPutBool(v: bool, k: Bytes)
    ensures GetBool(PutBool(v, k)) == (v, k)
  {
    GetPutNat(if v then 1 else 0, 1, k);
  }

  // --------------------------------------------------------- the byte stream

  /** `io.BytesIO`: writes go over what is at the cursor, reads stop at the end. */
  class BytesIO {
    var data: Bytes
    var pos: nat

    ghost predicate Valid()
      reads this
    {
      pos <= |data|
    }

    /** What reading from here on would see. */
    ghost function Rest(): Bytes
      requires Valid()
      reads this
    {
      data[pos..]
    }

    /** The cursor is where a writer leaves it. */
    ghost predicate AtEnd()
      reads this
    {
      pos == |data|
    }

    constructor (data: Bytes)
      ensures Valid() && this.data == data && pos == 0 && Rest() == data
      ensures data == [] ==> AtEnd()
    {
      this.data, pos := data, 0;
    }

    method Write(bs: Bytes)
      requires Valid()
      modifies this
      ensures Valid() && pos == old(pos) + |bs|
      ensures data == old(data)[..old(pos)] + bs + Drop(old(data), pos)
      ensures old(AtEnd()) ==> AtEnd() && data == old(data) + bs
    {
      data := data[..pos] + bs + (if pos + |bs| <= |data| then data[pos + |bs|..] else []);
      pos := pos + |bs|;
    }

    method Read(n: nat) returns (bs: Bytes)
      requires Valid()
      modifies this`pos
      ensures Valid() && data == old(data)
      ensures bs == Take(old(Rest()), n) && Rest() == Drop(old(Rest()), n)
    {
      var end := if pos + n <= |data| then pos + n else |data|;
      bs := data[pos..end];
      pos := end;
    }

    // The writers take, for the proof, the bytes k still to come after the field.

    method WriteNat(v: int, width: nat, ghost k: Bytes) returns (status: Status)
      requires Valid() && AtEnd()
      modifies this
      ensures Valid() && AtEnd()
      ensures status == if Fits(v, width) then Done else OverflowError
      ensures status.Done? ==> old(data) + PutNat(v, width, k) == data + k
    {
      if !Fits(v, width) {
        return OverflowError;
      }
      Write(BigEndian(v, width));
      Assoc(old(data), BigEndian(v, width), k);
      return Done;
    }

    /** `write_int`. */
    method WriteInt(v: int, ghost k: Bytes) returns (status: Status)
      requires Valid() && AtEnd()
      modifies this
      ensures Valid() && AtEnd()
      ensures status == if Fits(v, 4) then Done else OverflowError
      ensures status.Done? ==> old(data) + PutNat(v, 4, k) == data + k
    {
      status := WriteNat(v, 4, k);
    }

    /** `write_long`. */
    method WriteLong(v: int, ghost k: Bytes) returns (status: Status)
      requires Valid() && AtEnd()
      modifies this
      ensures Valid() && AtEnd()
      ensures status == if Fits(v, 8) then Done else OverflowError
      ensures status.Done? ==> old(data) + PutNat(v, 8, k) == data + k
    {
      status := WriteNat(v, 8, k);
    }

    /** `write_bytes`, and `write_string` of the encoded string. */
    method WriteBytes(s: Bytes, ghost k: Bytes) returns (status: Status)
      requires Valid() && AtEnd()
      modifies this
      ensures Valid() && AtEnd()
      ensures status == if Fits(|s|, 4) then Done else OverflowError
      ensures status.Done? ==> old(data) + PutBytes(s, k) == data + k
    {
      status := WriteNat(|s|, 4, s + k);
      if status.Done? {
        Assoc(data, s, k);
        Write(s);
      }
    }

    /** `write_bool`. */
    method WriteBool(v: bool, ghost k: Bytes)
      requires Valid() && AtEnd()
      modifies this
      ensures Valid() && AtEnd()
      ensures old(data) + PutBool(v, k) == data + k
    {
      var status := WriteNat(if v then 1 else 0, 1, k);
      assert status.Done?;
    }

    /** `write_float`. */
    method WriteFloat(fl: Floats, x: Float8, ghost k: Bytes) returns (status: Status)
      requires Valid() && AtEnd()
      modifies this
      ensures Valid() && AtEnd()
      ensures status == if fl.pack(x).Some? then Done else OverflowError
      ensures status.Done? ==> old(data) + PutFloat(fl, x, k) == data + k
    {
      var packed := fl.pack(x);
      if packed.None? {
        return OverflowError;
      }
      Write(packed.value);
      Assoc(old(data), packed.value, k);
      return Done;
    }

    /** `read_int` and `read_long`. */
    method ReadNat(width: nat) returns (v: nat)
      requires Valid()
      modifies this`pos
      ensures Valid() && (v, Rest()) == GetNat(old(Rest()), width)
    {
      var bs := Read(width);
      v := FromBytes(bs);
    }

    /** `read_bytes`, and `read_string` before decoding. */
    method ReadBytes() returns (s: Bytes)
      requires Valid()
      modifies this`pos
      ensures Valid() && (s, Rest()) == GetBytes(old(Rest()))
    {
      var n := ReadNat(4);
      s := Read(n);
    }

    /** `read_bool`. */
    method ReadBool() returns (v: bool)
      requires Valid()
      modifies this`pos
      ensures Valid() && (v, Rest()) == GetBool(old(Rest()))
    {
      var n := ReadNat(1);
      v := n != 0;
    }

    /** `read_float`: None when `unpack` raises for want of bytes. */
    method ReadFloat(fl: Floats) returns (x: Option<Float8>)
      requires Valid()
      modifies this`pos
      ensures Valid() && Rest() == Drop(old(Rest()), 4)
      ensures x == if |old(Rest())| >= 4 then Some(fl.unpack(old(Rest())[..4])) else None
    {
      var bs := Read(4);
      x := if |bs| == 4 then Some(fl.unpack(bs)) else None;
    }
  }
}
