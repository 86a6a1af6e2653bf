/**
 * The byte seeds from which a market's accounts are derived: a domain tag
 * ("market", "vault", "outcome_a", "outcome_b") followed by the 4-byte
 * little-endian encoding of the u32 market id. The hash that turns a seed
 * into an address is not part of this model.
 */
module Seeds {

  type Byte = b: int | 0 <= b < 256

  /** The program's `u32` market id. */
  type U32 = x: int | 0 <= x < 0x1_0000_0000

  /** The four domain tags a market's accounts are derived under. */
  datatype Tag = MarketTag | VaultTag | OutcomeATag | OutcomeBTag

  function Pow256(n: nat): (r: nat)
    ensures r > 0
  {
    if n == 0 then 1 else 256 * Pow256(n - 1)
  }

  /** The `n`-byte little-endian encoding of `x` (Rust's `to_le_bytes`). */
  function LeBytes(n: nat, x: nat): (r: seq<Byte>)
    ensures |r| == n
  {
    if n == 0 then [] else [x % 256] + LeBytes(n - 1, x / 256)
  }

  /** Reads a little-endian byte string back as a number. */
  function FromLeBytes(b: seq<Byte>): (x: nat)
    ensures x < Pow256(|b|)
  {
    if b == [] then 0 else b[0] + 256 * FromLeBytes(b[1..])
  }

  /** Decoding undoes encoding for every value that fits in `n` bytes. */
  lemma {:induction false} FromLeBytesOfLeBytes(n: nat, x: nat)
    requires x < Pow256(n)
    ensures FromLeBytes(LeBytes(n, x)) == x
  {
    if n > 0 {
      FromLeBytesOfLeBytes(n - 1, x / 256);
      assert LeBytes(n, x)[1..] == LeBytes(n - 1, x / 256);
    }
  }

  /** Encoding undoes decoding: every byte string is the encoding of its value. */
  lemma {:induction false} LeBytesOfFromLeBytes(b: seq<Byte>)
    ensures LeBytes(|b|, FromLeBytes(b)) == b
  {
    if b != [] {
      LeBytesOfFromLeBytes(b[1..]);
      var x := FromLeBytes(b);
      assert x % 256 == b[0] && x / 256 == FromLeBytes(b[1..]);
    }
  }

  /** `market_id.to_le_bytes()` for the u32 id. */
  function IdBytes(id: U32): (r: seq<Byte>)
    ensures |r| == 4 && FromLeBytes(r) == id
  {
    FromLeBytesOfLeBytes(4, id);
    LeBytes(4, id)
  }

  /** Different ids never share their 4-byte encoding. */
  lemma IdBytesInjective(id1: U32, id2: U32)
    ensures IdBytes(id1) == IdBytes(id2) ==> id1 == id2
  {
  }

  function Ascii(s: string): (r: seq<Byte>)
    requires forall i :: 0 <= i < |s| ==> s[i] as int < 256
    ensures |r| == |s|
    ensures forall i :: 0 <= i < |s| ==> r[i] == s[i] as int
  {
    if s == [] then [] else [s[0] as int] + Ascii(s[1..])
  }

  /** The ASCII bytes of each domain tag. */
  function TagBytes(t: Tag): (r: seq<Byte>)
    ensures 5 <= |r| <= 9
  {
    match t
    case MarketTag => Ascii("market")
    case VaultTag => Ascii("vault")
    case OutcomeATag => Ascii("outcome_a")
    case OutcomeBTag => Ascii("outcome_b")
  }

  /** The seed list passed to address derivation: `[tag, id_le]`. */
  function SeedList(t: Tag, id: U32): (r: seq<seq<Byte>>)
    ensures |r| == 2 && r[0] == TagBytes(t) && |r[1]| == 4 && FromLeBytes(r[1]) == id
  {
    [TagBytes(t), IdBytes(id)]
  }

  /** The byte string the derivation hashes: the seeds of `SeedList` one after the other. */
  function SeedBytes(t: Tag, id: U32): (r: seq<Byte>)
    ensures |r| == |TagBytes(t)| + 4
    ensures r[..|TagBytes(t)|] == TagBytes(t) && r[|TagBytes(t)|..] == IdBytes(id)
  {
    TagBytes(t) + IdBytes(id)
  }

  /**
   * The signer seeds with which the market account signs token-program calls:
   * `[b"market", id_le, [bump]]`.
   */
  function SignerSeeds(id: U32, bump: Byte): (r: seq<seq<Byte>>)
    ensures r == SeedList(MarketTag, id) + [[bump]]
  {
    [Ascii("market"), IdBytes(id), [bump]]
  }

  /** No two tags have the same bytes. */
  lemma TagBytesInjective(t1: Tag, t2: Tag)
    ensures t1 != t2 ==> TagBytes(t1) != TagBytes(t2)
  {
    var b1, b2 := TagBytes(t1), TagBytes(t2);
    if t1 != t2 && |b1| == |b2| {
      // only the two outcome tags share a length; they differ in their last byte
      assert b1[8] == "outcome_a"[8] as int || b1[8] == "outcome_b"[8] as int;
      assert b1[8] != b2[8];
    }
  }

  /**
   * The hashed seed bytes are collision-free: two (tag, id) pairs with the same
   * seed bytes are the same pair, so distinct markets and distinct accounts of
   * one market never derive from the same seed.
   */
  lemma SeedBytesInjective(t1: Tag, id1: U32, t2: Tag, id2: U32)
    ensures SeedBytes(t1, id1) == SeedBytes(t2, id2) ==> t1 == t2 && id1 == id2
  {
    var s1, s2 := SeedBytes(t1, id1), SeedBytes(t2, id2);
    if s1 == s2 {
      var n := |TagBytes(t1)|;
      assert |TagBytes(t2)| == n;
      assert TagBytes(t1) == s1[..n] == TagBytes(t2);
      TagBytesInjective(t1, t2);
      assert IdBytes(id1) == s1[n..] == IdBytes(id2);
    }
  }
}
