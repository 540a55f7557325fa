/**
 * The `Hash` value: a byte array plus a hash algorithm, compared by content.
 *
 * `equals` first short-cuts on reference identity, then rejects null and objects
 * of another class, then compares the bytes element by element and the types.
 * `hashCode` combines the JVM's array content hash with the type's hash in 32-bit
 * wrapping arithmetic. References are explicit here (`Obj.ref`), so that the
 * identity short-cut can be modelled and shown harmless on a consistent heap.
 */
module HashEntity {
  import opened Results

  /** A JVM `Byte`: signed, eight bits. */
  newtype Int8 = x: int | -0x80 <= x < 0x80

  /** A JVM `Int`: signed, 32 bits. */
  newtype Int32 = x: int | -0x8000_0000 <= x < 0x8000_0000

  const TwoTo32: int := 0x1_0000_0000

  /** A constant of the hash algorithm enumeration, known by its name. */
  datatype HashType = HashType(name: string)

  datatype Hash = Hash(data: seq<Int8>, hashType: HashType)

  /** A reference on the JVM heap: its identity and the object it points to. */
  datatype Obj = Obj(ref: nat, value: Value)

  datatype Value =
    | HashValue(hash: Hash)
    | OtherValue(className: string)

  /** Reduction of an unbounded integer to the `Int` it wraps around to. */
  function Wrap32(x: int): (r: Int32)
    ensures (x - r as int) % TwoTo32 == 0
    ensures -0x8000_0000 <= x < 0x8000_0000 ==> r as int == x
  {
    (((x + 0x8000_0000) % TwoTo32) - 0x8000_0000) as Int32
  }

  /** Integers congruent modulo 2^32 wrap to the same `Int`. */
  lemma WrapCongruent(a: int, b: int)
    requires (a - b) % TwoTo32 == 0
    ensures Wrap32(a) == Wrap32(b)
  {
    var k := (a - b) / TwoTo32;
    assert a + 0x8000_0000 == (b + 0x8000_0000) + k * TwoTo32;
    ModShift(b + 0x8000_0000, k);
  }

  lemma ModShift(x: int, k: int)
    ensures (x + k * TwoTo32) % TwoTo32 == x % TwoTo32
  {
    var q := x / TwoTo32;
    var r := x % TwoTo32;
    assert x + k * TwoTo32 == (q + k) * TwoTo32 + r;
  }

  /** A multiple of 2^32 times any integer is still a multiple of 2^32. */
  lemma ScaleMultiple(d: int, c: int)
    requires d % TwoTo32 == 0
    ensures (c * d) % TwoTo32 == 0
  {
    var k := d / TwoTo32;
    assert d == k * TwoTo32;
    assert c * d == (c * k) * TwoTo32;
    ModShift(0, c * k);
  }

  /** One step of the content hash is insensitive to wrapping the accumulator first. */
  lemma WrapStep(acc: int, b: int)
    ensures Wrap32(31 * Wrap32(acc) as int + b) == Wrap32(31 * acc + b)
  {
    var w := Wrap32(acc) as int;
    ScaleMultiple(acc - w, 31);
    assert (31 * acc + b) - (31 * w + b) == 31 * (acc - w);
    WrapCongruent(31 * w + b, 31 * acc + b);
  }

  /** The exact (unbounded) polynomial the array content hash approximates: 31^n + Σ b_i·31^(n-1-i). */
  function ContentPolynomial(data: seq<Int8>): int
  {
    if data == [] then 1
    else 31 * ContentPolynomial(data[..|data| - 1]) + data[|data| - 1] as int
  }

  /**
   * The JVM's content hash of a byte array: start from 1 and fold each byte in as
   * `31 * result + byte`, wrapping to an `Int` at every step.
   */
  function ContentHashCode(data: seq<Int8>): (r: Int32)
    ensures r == Wrap32(ContentPolynomial(data))
  {
    if data == [] then 1
    else
      var prefix := data[..|data| - 1];
      var r := Wrap32(31 * ContentHashCode(prefix) as int + data[|data| - 1] as int);
      WrapStep(ContentPolynomial(prefix), data[|data| - 1] as int);
      r
  }

  /** `31 * contentHashCode(data) + type.hashCode()`, wrapped; the enumeration's hash is a parameter. */
  function HashCode(h: Hash, typeHash: HashType -> Int32): (r: Int32)
    ensures r == Wrap32(31 * ContentPolynomial(h.data) + typeHash(h.hashType) as int)
  {
    WrapStep(ContentPolynomial(h.data), typeHash(h.hashType) as int);
    Wrap32(31 * ContentHashCode(h.data) as int + typeHash(h.hashType) as int)
  }

  /**
   * `equals` of the `Hash` at reference `selfRef` against a nullable reference:
   * identity first, then the class check, then contents and type.
   */
  function Equals(self: Hash, selfRef: nat, other: Option<Obj>): (r: bool)
    ensures other.None? ==> !r
    ensures other.Some? && other.value.ref == selfRef ==> r
    ensures other.Some? && other.value.ref != selfRef ==> (r <==> other.value.value == HashValue(self))
  {
    if other.Some? && other.value.ref == selfRef then true
    else if other.None? || !other.value.value.HashValue? then false
    else
      var that := other.value.value.hash;
      if self.data != that.data then false
      else if self.hashType != that.hashType then false
      else true
  }

  /** A heap is consistent when one reference never points to two different objects. */
  predicate ConsistentRef(self: Hash, selfRef: nat, other: Obj)
  {
    other.ref == selfRef ==> other.value == HashValue(self)
  }

  /** On a consistent heap, `equals` is exactly equality of contents and type. */
  lemma EqualsIsContentEquality(self: Hash, selfRef: nat, other: Obj)
    requires ConsistentRef(self, selfRef, other)
    ensures Equals(self, selfRef, Some(other)) <==>
      other.value.HashValue? && other.value.hash.data == self.data && other.value.hash.hashType == self.hashType
  {
  }

  /** A value is equal to itself (the identity short-cut). */
  lemma EqualsReflexive(self: Hash, selfRef: nat)
    ensures Equals(self, selfRef, Some(Obj(selfRef, HashValue(self))))
  {
  }

  /** Null and objects of another class are never equal to a `Hash`. */
  lemma EqualsRejectsOthers(self: Hash, selfRef: nat, other: Option<Obj>)
    requires other.None? || (other.value.ref != selfRef && other.value.value.OtherValue?)
    ensures !Equals(self, selfRef, other)
  {
  }

  /** Equality is symmetric between two `Hash` objects of a consistent heap. */
  lemma EqualsSymmetric(a: Hash, aRef: nat, b: Hash, bRef: nat)
    requires aRef == bRef ==> a == b
    ensures Equals(a, aRef, Some(Obj(bRef, HashValue(b)))) == Equals(b, bRef, Some(Obj(aRef, HashValue(a))))
  {
  }

  /** Equal objects have equal hash codes, whatever the enumeration's hash is. */
  lemma EqualsImpliesEqualHashCode(self: Hash, selfRef: nat, other: Obj, typeHash: HashType -> Int32)
    requires ConsistentRef(self, selfRef, other)
    requires Equals(self, selfRef, Some(other))
    ensures other.value.HashValue? && HashCode(other.value.hash, typeHash) == HashCode(self, typeHash)
  {
    EqualsIsContentEquality(self, selfRef, other);
    assert other.value.hash == self;
  }
}
