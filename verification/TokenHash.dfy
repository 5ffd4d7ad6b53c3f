/** The keyed hash of a token (backup/obfuscate.go): HMAC-SHA-256 is a
    parameter, the extension to any length and the base32-hex rendering are
    modelled. Go strings are byte strings, so a token is a string whose
    characters stand for bytes. */
module TokenHash {
  import opened Text
  import opened Archive

  const MIN_TOKEN_CHARS := 16

  type Digest = s: seq<byte> | |s| == 32 witness seq(32, i => 0)

  /** HMAC-SHA-256 under the secret of one key file. */
  type Mac = seq<byte> -> Digest

  function BytesOf(s: string): seq<byte> {
    seq(|s|, i requires 0 <= i < |s| => s[i] as int % 256)
  }

  /** A block number as four big-endian bytes. */
  function Counter(block: nat): seq<byte> {
    [block / 0x100_0000 % 256, block / 0x1_0000 % 256, block / 0x100 % 256, block % 256]
  }

  function Sum(mac: Mac, data: seq<byte>): (r: seq<byte>)
    ensures |r| == 32
  {
    mac(data)
  }

  /** The block after `out`: keyed over the previous block, the token and a counter. */
  function Block(mac: Mac, tok: string, out: seq<byte>, block: nat): (r: seq<byte>)
    requires |out| >= 32
    ensures |r| == 32
  {
    Sum(mac, out[|out| - 32..] + BytesOf(tok) + Counter(block))
  }

  /** Blocks appended until `need` bytes are there. */
  function Grow(mac: Mac, tok: string, out: seq<byte>, block: nat, need: nat): (r: seq<byte>)
    requires |out| >= 32
    ensures |r| >= need && out <= r
    decreases need - |out|
  {
    if |out| >= need then out
    else Grow(mac, tok, out + Block(mac, tok, out, block), block + 1, need)
  }

  /** Bit j of a byte string, most significant first; zero past the end. */
  function Bit(bs: seq<byte>, j: nat): (b: nat)
    ensures b <= 1
  {
    if j / 8 >= |bs| then 0 else bs[j / 8] / Power2(7 - j % 8) % 2
  }

  function Power2(n: nat): (p: nat)
    ensures p > 0
  {
    if n == 0 then 1 else 2 * Power2(n - 1)
  }

  /** A five-bit value in base32-hex, lower case. */
  function DigitChar(v: nat): (c: char)
    requires v < 32
    ensures IsDigit(c)
  {
    if v < 10 then ('0' as int + v) as char else ('a' as int + v - 10) as char
  }

  function Digit(bs: seq<byte>, i: nat): (c: char)
    ensures IsDigit(c)
  {
    DigitChar(16 * Bit(bs, 5 * i) + 8 * Bit(bs, 5 * i + 1) + 4 * Bit(bs, 5 * i + 2) + 2 * Bit(bs, 5 * i + 3) + Bit(bs, 5 * i + 4))
  }

  /** base32-hex without padding. */
  function Encode32(bs: seq<byte>): (r: string)
    ensures |r| == (8 * |bs| + 4) / 5
  {
    seq((8 * |bs| + 4) / 5, i requires 0 <= i => Digit(bs, i))
  }

  function Chars(tok: string): nat {
    if |tok| > MIN_TOKEN_CHARS then |tok| else MIN_TOKEN_CHARS
  }

  function Need(tok: string): nat {
    (Chars(tok) * 5 + 7) / 8
  }

  function HashOf(mac: Mac, tok: string): (r: string)
  {
    Encode32(Grow(mac, tok, Sum(mac, BytesOf(tok)), 1, Need(tok))[..Need(tok)])[..Chars(tok)]
  }

  predicate IsDigit(c: char) {
    '0' <= c <= '9' || 'a' <= c <= 'v'
  }

  predicate HashLike(h: string) {
    |h| >= MIN_TOKEN_CHARS && forall i :: 0 <= i < |h| ==> IsDigit(h[i])
  }

  /** A hash is as long as its original with a floor of 16, in an alphabet that
      has no separator, wildcard or path character. */
  lemma HashShape(mac: Mac, tok: string)
    ensures |HashOf(mac, tok)| == Chars(tok) && HashLike(HashOf(mac, tok)) && Free(HashOf(mac, tok), '.')
  {
  }

  lemma EnoughDigits(tok: string)
    ensures (8 * Need(tok) + 4) / 5 >= Chars(tok)
  {
  }

  method Hash(mac: Mac, tok: string) returns (r: string)
    ensures r == HashOf(mac, tok)
  {
    hide Block; hide Sum; hide Encode32; hide BytesOf;
    EnoughDigits(tok);
    var chars := if MIN_TOKEN_CHARS > |tok| then MIN_TOKEN_CHARS else |tok|;
    var need := (chars * 5 + 7) / 8;
    var out := Sum(mac, BytesOf(tok));
    var block := 1;
    while |out| < need
      invariant |out| >= 32
      invariant Grow(mac, tok, out, block, need) == Grow(mac, tok, Sum(mac, BytesOf(tok)), 1, need)
      decreases need - |out|
    {
      out := out + Block(mac, tok, out, block);
      block := block + 1;
    }
    r := Encode32(out[..need])[..chars];
  }

  /** Every token hashes to a value of its own length, 16 at least, in digits. */
  ghost predicate Shaped(hash: string -> string) {
    forall t :: |hash(t)| == Chars(t) && HashLike(hash(t)) && Free(hash(t), '.')
  }

  /** The hash under one secret. */
  function KeyedHash(mac: Mac): (hash: string -> string)
    ensures forall t :: hash(t) == HashOf(mac, t)
  {
    t => HashOf(mac, t)
  }

  lemma KeyedHashShaped(mac: Mac)
    ensures Shaped(KeyedHash(mac))
  {
    forall t ensures |KeyedHash(mac)(t)| == Chars(t) && HashLike(KeyedHash(mac)(t)) && Free(KeyedHash(mac)(t), '.') {
      HashShape(mac, t);
    }
  }

  /* ---------- The chain of blocks ---------- */

  function Concat(blocks: seq<seq<byte>>): seq<byte> {
    if blocks == [] then [] else Concat(blocks[..|blocks| - 1]) + blocks[|blocks| - 1]
  }

  /** The first block is the keyed hash of the token, and each later one that of the
      block before it, the token and the number of the block, in four bytes with the
      most significant first. */
  ghost predicate Chained(mac: Mac, tok: string, blocks: seq<seq<byte>>) {
    && |blocks| > 0 && (forall i :: 0 <= i < |blocks| ==> |blocks[i]| == 32)
    && blocks[0] == mac(BytesOf(tok))
    && forall i :: 0 < i < |blocks| ==> Linked(mac, tok, blocks[i - 1], blocks[i], i)
  }

  ghost predicate Linked(mac: Mac, tok: string, previous: seq<byte>, next: seq<byte>, i: nat) {
    exists number :: Numbers(number, i) && next == mac(previous + BytesOf(tok) + number)
  }

  predicate Numbers(number: seq<byte>, n: nat) {
    |number| == 4 && number[0] as int * 0x100_0000 + number[1] as int * 0x1_0000 + number[2] as int * 0x100 + number[3] as int == n % 0x1_0000_0000
  }

  /** Four digits of a number to the base 256. */
  lemma FourDigits(n: nat, a: nat, b: nat, c: nat)
    requires a == n / 0x100 && b == a / 0x100 && c == b / 0x100
    ensures c % 0x100 * 0x100_0000 + b % 0x100 * 0x1_0000 + a % 0x100 * 0x100 + n % 0x100 == n % 0x1_0000_0000
    ensures b == n / 0x1_0000 && c == n / 0x100_0000
  {
    var d := c / 0x100;
    assert n == 0x100 * a + n % 0x100 && a == 0x100 * b + a % 0x100 && b == 0x100 * c + b % 0x100 && c == 0x100 * d + c % 0x100;
    var low := c % 0x100 * 0x100_0000 + b % 0x100 * 0x1_0000 + a % 0x100 * 0x100 + n % 0x100;
    assert n == d * 0x1_0000_0000 + low && 0 <= low < 0x1_0000_0000;
  }

  lemma CounterNumbers(n: nat)
    ensures Numbers(Counter(n), n)
  {
    FourDigits(n, n / 0x100, n / 0x100 / 0x100, n / 0x100 / 0x100 / 0x100);
  }

  lemma ConcatLast(blocks: seq<seq<byte>>, next: seq<byte>)
    requires |blocks| > 0 && |blocks[|blocks| - 1]| == 32
    ensures |Concat(blocks)| >= 32 && Concat(blocks)[|Concat(blocks)| - 32..] == blocks[|blocks| - 1]
    ensures Concat(blocks + [next]) == Concat(blocks) + next
  {
    assert (blocks + [next])[..|blocks|] == blocks;
  }

  lemma ChainedMore(mac: Mac, tok: string, blocks: seq<seq<byte>>)
    requires Chained(mac, tok, blocks)
    ensures |Concat(blocks)| >= 32
    ensures var next := Block(mac, tok, Concat(blocks), |blocks|);
            Chained(mac, tok, blocks + [next]) && Concat(blocks + [next]) == Concat(blocks) + next
  {
    hide Counter; hide BytesOf; hide Numbers; hide Concat;
    var n := |blocks|;
    ConcatLast(blocks, []);
    var next := Block(mac, tok, Concat(blocks), n);
    ConcatLast(blocks, next);
    CounterNumbers(n);
    assert next == mac(blocks[n - 1] + BytesOf(tok) + Counter(n));
    LinkMore(mac, tok, blocks, next);
  }

  lemma LinkMore(mac: Mac, tok: string, blocks: seq<seq<byte>>, next: seq<byte>)
    requires Chained(mac, tok, blocks) && |next| == 32 && Linked(mac, tok, blocks[|blocks| - 1], next, |blocks|)
    ensures Chained(mac, tok, blocks + [next])
  {
    hide BytesOf; hide Linked;
    var n, all := |blocks|, blocks + [next];
    assert forall i :: 0 <= i < n ==> all[i] == blocks[i];
    forall i | 0 < i < |all| ensures Linked(mac, tok, all[i - 1], all[i], i) {
      if i < n {
        assert all[i] == blocks[i] && all[i - 1] == blocks[i - 1];
      }
    }
  }

  lemma {:induction false} GrowChains(mac: Mac, tok: string, blocks: seq<seq<byte>>, need: nat) returns (all: seq<seq<byte>>)
    requires Chained(mac, tok, blocks)
    ensures |Concat(blocks)| >= 32
    ensures Chained(mac, tok, all) && Concat(all) == Grow(mac, tok, Concat(blocks), |blocks|, need)
    decreases need - |Concat(blocks)|
  {
    hide Block; hide Chained;
    ChainedMore(mac, tok, blocks);
    if |Concat(blocks)| >= need {
      all := blocks;
    } else {
      all := GrowChains(mac, tok, blocks + [Block(mac, tok, Concat(blocks), |blocks|)], need);
    }
  }

  /** The hash of a token is the start of the base32-hex rendering of such a chain. */
  lemma HashIsChained(mac: Mac, tok: string) returns (blocks: seq<seq<byte>>)
    ensures Chained(mac, tok, blocks) && Need(tok) <= |Concat(blocks)|
    ensures HashOf(mac, tok) == Encode32(Concat(blocks)[..Need(tok)])[..Chars(tok)]
  {
    hide Encode32; hide BytesOf;
    var first := [mac(BytesOf(tok))];
    assert first[..0] == [] && Concat(first) == [] + first[0] == first[0];
    EnoughDigits(tok);
    blocks := GrowChains(mac, tok, first, Need(tok));
  }
}
