/** Byte strings: a Go string is a sequence of bytes, here the first 256 characters. */
module Bytes {
  type Byte = c: char | c < '\U{100}'
  type Bytes = seq<Byte>

  datatype Option<+T> = None | Some(value: T)

  /** Go's int64 and int32. */
  type Long = n: int | -0x8000_0000_0000_0000 <= n < 0x8000_0000_0000_0000
  type Int32 = n: int | -0x8000_0000 <= n < 0x8000_0000

  const ZERO: Byte := '\0'
  const WORD: nat := 0x1_0000_0000

  function ByteOf(n: nat): Byte {
    (n % 256) as char
  }

  /** Four little-endian bytes of an int32 conversion of n (the conversion keeps the low 32 bits). */
  function PutUint32(n: nat): (b: Bytes)
    ensures |b| == 4
  {
    [ByteOf(n), ByteOf(n / 0x100), ByteOf(n / 0x1_0000), ByteOf(n / 0x100_0000)]
  }

  function Uint32(b: Bytes): (n: nat)
    requires |b| == 4
    ensures n < WORD
  {
    b[0] as int + 0x100 * (b[1] as int) + 0x1_0000 * (b[2] as int) + 0x100_0000 * (b[3] as int)
  }

  /** A length below 2^32 survives the int32 write and the uint32 read. */
  lemma Uint32PutUint32(n: nat)
    requires n < WORD
    ensures Uint32(PutUint32(n)) == n
  {
    assert n / 0x1_0000 == n / 0x100 / 0x100;
    assert n / 0x100_0000 == n / 0x1_0000 / 0x100;
  }

  /** The contents of a freshly made byte slice. */
  function Zeros(n: nat): (z: Bytes)
    ensures |z| == n
  {
    seq(n, _ => ZERO)
  }

  /** ASCII upper-casing of one byte and of a word. */
  function Upper(c: Byte): Byte {
    if 'a' <= c <= 'z' then ((c as int) - 32) as char else c
  }

  function ToUpper(s: Bytes): (u: Bytes)
    ensures |u| == |s|
  {
    seq(|s|, i requires 0 <= i < |s| => Upper(s[i]))
  }

  /** The word is the given one up to the case of its letters. */
  predicate Spells(word: Bytes, name: Bytes) {
    |word| == |name| &&
    forall i :: 0 <= i < |name| ==> word[i] == name[i] || word[i] as int == name[i] as int + 32
  }

  lemma SpellsIff(word: Bytes, name: Bytes)
    requires forall i :: 0 <= i < |name| ==> 'A' <= name[i] <= 'Z'
    ensures Spells(word, name) <==> ToUpper(word) == name
  {
    assert forall i :: 0 <= i < |word| ==> ToUpper(word)[i] == Upper(word[i]);
    if Spells(word, name) {
      assert forall i :: 0 <= i < |name| ==> ToUpper(word)[i] == name[i];
    }
  }

  /** The low 32 bits in the order of the file: lowest byte first. */
  lemma LowestByteFirst(a: Byte, b: Byte, c: Byte, d: Byte)
    ensures PutUint32(a as int + 0x100 * (b as int) + 0x1_0000 * (c as int) + 0x100_0000 * (d as int)) == [a, b, c, d]
  {
    var n := a as int + 0x100 * (b as int) + 0x1_0000 * (c as int) + 0x100_0000 * (d as int);
    assert n / 0x100 == b as int + 0x100 * (c as int) + 0x1_0000 * (d as int);
    assert n / 0x1_0000 == c as int + 0x100 * (d as int);
    assert n / 0x100_0000 == d as int;
    assert n % 256 == a as int && (n / 0x100) % 256 == b as int && (n / 0x1_0000) % 256 == c as int;
  }
}
