/**
 * Facts about sequences that the rendering proofs use: prefixes and suffixes of
 * concatenations, and sequences assembled from blocks. They are stated for any element
 * type, so that the strings the report is made of are never unfolded while they are used.
 */
module Seqs {
  predicate StartsWith<T(==)>(s: seq<T>, prefix: seq<T>)
  {
    |prefix| <= |s| && s[..|prefix|] == prefix
  }

  predicate EndsWith<T(==)>(s: seq<T>, suffix: seq<T>)
  {
    |suffix| <= |s| && s[|s| - |suffix|..] == suffix
  }

  /** The blocks of `blocks`, one after the other. */
  function Flatten<T>(blocks: seq<seq<T>>): seq<T>
  {
    if blocks == [] then [] else Flatten(blocks[..|blocks| - 1]) + blocks[|blocks| - 1]
  }

  /** `f` applied to each element of `xs`. */
  function Map<A, B>(f: A -> B, xs: seq<A>): (r: seq<B>)
    ensures |r| == |xs|
    ensures forall k :: 0 <= k < |xs| ==> r[k] == f(xs[k])
  {
    seq(|xs|, k requires 0 <= k < |xs| => f(xs[k]))
  }

  /** `f` applied to each element of `xs` together with its position counted from 1. */
  function Numbered<A, B>(f: (nat, A) -> B, xs: seq<A>): (r: seq<B>)
    ensures |r| == |xs|
    ensures forall k :: 0 <= k < |xs| ==> r[k] == f(k + 1, xs[k])
  {
    seq(|xs|, k requires 0 <= k < |xs| => f(k + 1, xs[k]))
  }

  lemma FlattenSnoc<T>(blocks: seq<seq<T>>, b: seq<T>)
    ensures Flatten(blocks + [b]) == Flatten(blocks) + b
  {
    assert (blocks + [b])[..|blocks|] == blocks;
  }

  /** Flattening the first `k` blocks gives a prefix of flattening all of them. */
  lemma {:induction false} FlattenPrefix<T>(blocks: seq<seq<T>>, k: nat)
    requires k <= |blocks|
    ensures |Flatten(blocks[..k])| <= |Flatten(blocks)|
    ensures Flatten(blocks)[..|Flatten(blocks[..k])|] == Flatten(blocks[..k])
  {
    if k < |blocks| {
      var init := blocks[..|blocks| - 1];
      assert init[..k] == blocks[..k];
      FlattenPrefix(init, k);
    } else {
      assert blocks[..k] == blocks;
    }
  }

  /** Block `k` sits in the flattened sequence right after the blocks before it. */
  lemma FlattenBlockAt<T>(blocks: seq<seq<T>>, k: nat)
    requires k < |blocks|
    ensures var off := |Flatten(blocks[..k])|;
      off + |blocks[k]| <= |Flatten(blocks)| && Flatten(blocks)[off..off + |blocks[k]|] == blocks[k]
  {
    FlattenPrefix(blocks, k + 1);
    assert blocks[..k + 1] == blocks[..k] + [blocks[k]];
    FlattenSnoc(blocks[..k], blocks[k]);
    SliceAfterPrefix(Flatten(blocks), Flatten(blocks[..k]), blocks[k]);
  }

  /** Flattening numbered blocks: block `n` follows the blocks numbered before it. */
  lemma NumberedBlockAt<A, T>(f: (nat, A) -> seq<T>, xs: seq<A>, n: nat)
    requires 1 <= n <= |xs|
    ensures var out := Flatten(Numbered(f, xs));
      var off := |Flatten(Numbered(f, xs[..n - 1]))|;
      off + |f(n, xs[n - 1])| <= |out| && out[off..off + |f(n, xs[n - 1])|] == f(n, xs[n - 1])
  {
    FlattenBlockAt(Numbered(f, xs), n - 1);
    NumberedPrefix(f, xs, n - 1);
  }

  lemma MapSnoc<A, B>(f: A -> B, xs: seq<A>, i: nat)
    requires i < |xs|
    ensures Map(f, xs[..i + 1]) == Map(f, xs[..i]) + [f(xs[i])]
  {
  }

  lemma NumberedSnoc<A, B>(f: (nat, A) -> B, xs: seq<A>, i: nat)
    requires i < |xs|
    ensures Numbered(f, xs[..i + 1]) == Numbered(f, xs[..i]) + [f(i + 1, xs[i])]
  {
  }

  lemma NumberedPrefix<A, B>(f: (nat, A) -> B, xs: seq<A>, k: nat)
    requires k <= |xs|
    ensures Numbered(f, xs[..k]) == Numbered(f, xs)[..k]
  {
  }

  lemma ConcatAssoc3<T>(a: seq<T>, b: seq<T>, c: seq<T>)
    ensures a + b + c == a + (b + c)
  {
  }

  lemma ConcatAssoc4<T>(a: seq<T>, b: seq<T>, c: seq<T>, d: seq<T>)
    ensures a + b + c + d == a + (b + c + d)
  {
  }

  lemma ConcatAssoc5<T>(a: seq<T>, b: seq<T>, c: seq<T>, d: seq<T>, e: seq<T>)
    ensures a + b + c + d + e == a + (b + c + d + e)
  {
  }

  lemma StartsWithConcat<T>(a: seq<T>, b: seq<T>)
    ensures StartsWith(a + b, a)
  {
  }

  lemma EndsWithConcat<T>(a: seq<T>, b: seq<T>)
    ensures EndsWith(a + b, b)
  {
  }

  lemma SuffixOfConcat<T>(a: seq<T>, b: seq<T>)
    ensures (a + b)[|a|..] == b
  {
  }

  lemma StartsWithShorter<T>(s: seq<T>, p: seq<T>, q: seq<T>)
    requires StartsWith(s, p + q)
    ensures StartsWith(s, p)
  {
    assert s[..|p|] == (p + q)[..|p|];
  }

  lemma EndsWithShorter<T>(s: seq<T>, p: seq<T>, q: seq<T>)
    requires EndsWith(s, p + q)
    ensures EndsWith(s, q)
  {
    assert s[|s| - |q|..] == (p + q)[|p|..];
  }

  /** A sequence starting with `q` does not start with a `p` that differs from `q` at `i`. */
  lemma NotStartsWith<T>(s: seq<T>, p: seq<T>, q: seq<T>, i: nat)
    requires StartsWith(s, q) && i < |p| && i < |q| && p[i] != q[i]
    ensures !StartsWith(s, p)
  {
    assert s[i] == q[i];
  }

  /** A sequence ending with `q` does not end with a `p` that differs from `q` at `i` from the end. */
  lemma NotEndsWith<T>(s: seq<T>, p: seq<T>, q: seq<T>, i: nat)
    requires EndsWith(s, q) && i < |p| && i < |q| && p[|p| - 1 - i] != q[|q| - 1 - i]
    ensures !EndsWith(s, p)
  {
    assert s[|s| - 1 - i] == q[|q| - 1 - i];
  }

  lemma CancelAround<T>(a: seq<T>, x: seq<T>, y: seq<T>, e: seq<T>)
    requires a + x + e == a + y + e
    ensures x == y
  {
    assert |x| == |y|;
    assert x == (a + x + e)[|a|..|a| + |x|];
    assert y == (a + y + e)[|a|..|a| + |y|];
  }

  lemma CancelPrefix<T>(a: seq<T>, x: seq<T>, y: seq<T>)
    requires a + x == a + y
    ensures x == y
  {
    assert x == (a + x)[|a|..];
    assert y == (a + y)[|a|..];
  }

  /** A sequence made of `head` and `rest` starts with `head`, and `rest` follows it. */
  lemma AfterPrefix<T>(s: seq<T>, head: seq<T>, rest: seq<T>)
    requires s == head + rest
    ensures StartsWith(s, head) && s[|head|..] == rest
  {
  }

  /** Dropping `a` elements, then `b` more, drops `a + b`. */
  lemma DropTwice<T>(s: seq<T>, a: nat, b: nat)
    requires a + b <= |s|
    ensures s[a..][b..] == s[a + b..]
  {
  }

  /** What follows a prefix `before` of `out` that continues with `piece`. */
  lemma SliceAfterPrefix<T>(out: seq<T>, before: seq<T>, piece: seq<T>)
    requires |before + piece| <= |out| && out[..|before + piece|] == before + piece
    ensures |before| + |piece| <= |out| && out[|before|..|before| + |piece|] == piece
  {
    assert out[|before|..|before| + |piece|] == (before + piece)[|before|..];
  }

  /** Where `piece` sits in `out`, so does each of its prefixes. */
  lemma SliceOfSlice<T>(out: seq<T>, off: nat, piece: seq<T>, k: nat)
    requires off + |piece| <= |out| && out[off..off + |piece|] == piece && k <= |piece|
    ensures out[off..off + k] == piece[..k]
  {
    assert out[off..off + k] == out[off..off + |piece|][..k];
  }

  /** Where `p + q` sits in `out`, `p` sits at the same place. */
  lemma PrefixInSlice<T>(out: seq<T>, off: nat, p: seq<T>, q: seq<T>)
    requires off + |p + q| <= |out| && out[off..off + |p + q|] == p + q
    ensures off + |p| <= |out| && out[off..off + |p|] == p
  {
    SliceOfSlice(out, off, p + q, |p|);
  }

  lemma PrefixOfFive<T>(a: seq<T>, b: seq<T>, c: seq<T>, d: seq<T>, e: seq<T>)
    requires c != []
    ensures StartsWith(a + b + c + d + e, a + b)
    ensures |a + b| < |a + b + c + d + e| && (a + b + c + d + e)[|a + b|] == c[0]
  {
    ConcatAssoc4(a + b, c, d, e);
  }

  /** Flattening blocks of 7 lines puts block `k` at lines `7 * k` to `7 * k + 6`. */
  lemma FlattenLayout<T>(blocks: seq<seq<T>>)
    requires forall k :: 0 <= k < |blocks| ==> |blocks[k]| == 7
    ensures |Flatten(blocks)| == 7 * |blocks|
    ensures forall k :: 0 <= k < |blocks| ==> Flatten(blocks)[7 * k..7 * k + 7] == blocks[k]
  {
    FlattenLength(blocks);
    forall k | 0 <= k < |blocks| ensures Flatten(blocks)[7 * k..7 * k + 7] == blocks[k] {
      FlattenLength(blocks[..k]);
      FlattenBlockAt(blocks, k);
    }
  }

  /** Blocks of 7 flatten to 7 elements per block. */
  lemma {:induction false} FlattenLength<T>(blocks: seq<seq<T>>)
    requires forall k :: 0 <= k < |blocks| ==> |blocks[k]| == 7
    ensures |Flatten(blocks)| == 7 * |blocks|
  {
    if blocks != [] {
      FlattenLength(blocks[..|blocks| - 1]);
    }
  }

  /** The blocks of `body` keep their places, shifted by the 8 header lines, between header and close. */
  lemma Framed<T>(header: seq<T>, body: seq<T>, close: T, n: nat)
    requires |header| == 8 && |body| == 7 * n
    ensures var t := header + body + [close];
      && |t| == 8 + 7 * n + 1 && t[..8] == header && t[8 + 7 * n] == close
      && forall k :: 0 <= k < n ==> t[8 + 7 * k..8 + 7 * k + 7] == body[7 * k..7 * k + 7]
  {
    var t := header + body + [close];
    forall k | 0 <= k < n ensures t[8 + 7 * k..8 + 7 * k + 7] == body[7 * k..7 * k + 7] {
      assert 7 * k + 7 <= 7 * n;
    }
  }
}
