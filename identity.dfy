/**
 * Content identity: a show's id is the hash of its feed URL and an episode's id the
 * hash of the feed URL followed directly by the episode title. The hash is the first
 * 32 characters of the lowercase hexadecimal rendering (Go's `%x`) of a SHA-1 digest.
 * SHA-1 itself is not modelled: it is a function supplied by the caller that maps a
 * string to 20 bytes.
 */
module Identity {

  newtype byte = x: int | 0 <= x < 256

  /** A SHA-1 digest: 20 bytes. */
  type Digest = d: seq<byte> | |d| == 20 witness seq(20, _ => 0)

  predicate IsLowerHex(c: char) { '0' <= c <= '9' || 'a' <= c <= 'f' }

  /** The hexadecimal digit for a nibble, as `%x` writes it. */
  function HexDigit(n: nat): (c: char)
    requires n < 16
    ensures IsLowerHex(c)
  {
    if n < 10 then ('0' as int + n) as char else ('a' as int + n - 10) as char
  }

  /** The nibble a lowercase hexadecimal digit stands for. */
  function HexValue(c: char): (n: nat)
    requires IsLowerHex(c)
    ensures n < 16 && HexDigit(n) == c
  {
    if c <= '9' then c as int - '0' as int else c as int - 'a' as int + 10
  }

  /** The `%x` rendering of a byte string: two lowercase digits per byte, high nibble first. */
  function HexEncode(bs: seq<byte>): (s: string)
    ensures |s| == 2 * |bs|
    ensures forall i | 0 <= i < |s| :: IsLowerHex(s[i])
  {
    if bs == [] then ""
    else [HexDigit(bs[0] as int / 16), HexDigit(bs[0] as int % 16)] + HexEncode(bs[1..])
  }

  /** The inverse of HexEncode. */
  function HexDecode(s: string): seq<byte>
    requires |s| % 2 == 0
    requires forall i | 0 <= i < |s| :: IsLowerHex(s[i])
  {
    if s == [] then []
    else [(16 * HexValue(s[0]) + HexValue(s[1])) as byte] + HexDecode(s[2..])
  }

  lemma {:induction false} HexDecodeEncode(bs: seq<byte>)
    ensures HexDecode(HexEncode(bs)) == bs
  {
    if bs != [] {
      var s := HexEncode(bs);
      assert s[2..] == HexEncode(bs[1..]);
      HexDecodeEncode(bs[1..]);
      var b := bs[0] as int;
      assert HexValue(s[0]) == b / 16 && HexValue(s[1]) == b % 16;
      assert bs == [bs[0]] + bs[1..];
    }
  }

  lemma {:induction false} HexEncodeAppend(a: seq<byte>, b: seq<byte>)
    ensures HexEncode(a + b) == HexEncode(a) + HexEncode(b)
  {
    if a != [] {
      assert (a + b)[1..] == a[1..] + b;
      HexEncodeAppend(a[1..], b);
    } else {
      assert a + b == b;
    }
  }

  /**
   * `Hash`: exactly 32 lowercase hexadecimal characters, which are the hex rendering of
   * the first 16 of the digest's 20 bytes (the first 32 of its 40 hex characters).
   */
  function Hash(sha1: string -> Digest, input: string): (h: string)
    ensures |h| == 32
    ensures forall i | 0 <= i < |h| :: IsLowerHex(h[i])
    ensures h == HexEncode(sha1(input)[..16])
  {
    var d := sha1(input);
    HexEncodeAppend(d[..16], d[16..]);
    assert d == d[..16] + d[16..];
    HexEncode(d)[..32]
  }

  /** Two inputs get the same identifier exactly when their digests agree on the first 16
      bytes: truncation is the only source of collisions beyond SHA-1's own. */
  lemma HashCollisionIff(sha1: string -> Digest, x: string, y: string)
    ensures Hash(sha1, x) == Hash(sha1, y) <==> sha1(x)[..16] == sha1(y)[..16]
  {
    if Hash(sha1, x) == Hash(sha1, y) {
      HexDecodeEncode(sha1(x)[..16]);
      HexDecodeEncode(sha1(y)[..16]);
    }
  }

  /** The id of a show: the hash of its feed URL. */
  function ShowId(sha1: string -> Digest, rssLink: string): (id: string)
    ensures |id| == 32 && id == HexEncode(sha1(rssLink)[..16])
  {
    Hash(sha1, rssLink)
  }

  /** The id of an episode: the hash of the feed URL and the title, with no separator. */
  function EpisodeId(sha1: string -> Digest, rssLink: string, title: string): (id: string)
    ensures |id| == 32 && id == HexEncode(sha1(rssLink + title)[..16])
  {
    Hash(sha1, rssLink + title)
  }

  /** Ids depend only on the concatenation, so an episode with an empty title has its
      show's id, and a link/title pair can collide with another pair. */
  lemma EpisodeIdOfConcatenation(sha1: string -> Digest, link1: string, title1: string, link2: string, title2: string)
    requires link1 + title1 == link2 + title2
    ensures EpisodeId(sha1, link1, title1) == EpisodeId(sha1, link2, title2)
  {
  }

  lemma EmptyTitleHasShowId(sha1: string -> Digest, rssLink: string)
    ensures EpisodeId(sha1, rssLink, "") == ShowId(sha1, rssLink)
  {
    assert rssLink + "" == rssLink;
  }
}
