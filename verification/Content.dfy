/** Object bytes and their addresses.  Merkle roots and SHA-256 digests are ideal hashes:
    constructors over the bytes, hence injective, and a proof-verified download of a root
    can only yield `root.content`. */
module Content {
  newtype Byte = x: int | 0 <= x < 256

  type Bytes = seq<Byte>

  datatype Root = Root(content: Bytes)

  datatype Sha = Sha(content: Bytes)

  /** A root written out as a store key.  Which spelling it is plays no part, only that no two
      roots share one. */
  function RootKey(r: Root): string {
    seq(|r.content|, i requires 0 <= i < |r.content| => r.content[i] as char)
  }

  lemma RootKeyInjective(a: Root, b: Root)
    requires RootKey(a) == RootKey(b)
    ensures a == b
  {
    assert |a.content| == |RootKey(a)| == |b.content|;
    forall i | 0 <= i < |a.content|
      ensures a.content[i] == b.content[i]
    {
      assert a.content[i] as char == RootKey(a)[i] == b.content[i] as char;
    }
  }
}
