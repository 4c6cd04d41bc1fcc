/** The datagram framing shared by `UDPHandler.handle` in
  * `simpleland/server.py` and `receive_data` in `landia/client.py`: a
  * payload is cut into chunks of a configured size, each sent after a
  * header `(chunk_num, chunks)`, and the receiver concatenates bodies until
  * a datagram whose `chunk_num` equals `chunks`. */
module Framing {
  import opened Base

  /** One datagram: the two header fields and the bytes after the header. */
  datatype Datagram = Datagram(chunkNum: int, chunks: int, body: seq<Byte>)

  /** `math.ceil(n / size)`: the least count of `size`-byte chunks that
    * holds `n` bytes. */
  function Chunks(n: nat, size: nat): (c: nat)
    requires size > 0
    ensures c * size >= n
    ensures c > 0 ==> (c - 1) * size < n
  {
    CeilDiv(n, size);
    (n + size - 1) / size
  }

  lemma CeilDiv(n: nat, size: nat)
    requires size > 0
    ensures ((n + size - 1) / size) * size >= n
    ensures (n + size - 1) / size > 0 ==> ((n + size - 1) / size - 1) * size < n
  {
    var q, r := (n + size - 1) / size, (n + size - 1) % size;
    assert q * size + r == n + size - 1;
  }

  /** Python's `p[a:b]` for `0 <= a <= b`: both ends clamped to the length. */
  function Slice(p: seq<Byte>, a: nat, b: nat): (s: seq<Byte>)
    requires a <= b
    ensures |s| <= b - a
  {
    var lo := if a < |p| then a else |p|;
    var hi := if b < |p| then b else |p|;
    p[lo..hi]
  }

  /** `ds` are the datagrams `handle` sends for payload `p`: `chunks + 1` of
    * them, the `i`-th headed `(i + 1, chunks)` and carrying bytes
    * `[i * size, (i + 1) * size)` of `p`. */
  ghost predicate FramedAs(ds: seq<Datagram>, p: seq<Byte>, size: nat)
    requires size > 0
  {
    && |ds| == Chunks(|p|, size) + 1
    && forall i :: 0 <= i < |ds| ==>
         ds[i] == Datagram(i + 1, Chunks(|p|, size), Slice(p, i * size, (i + 1) * size))
  }

  /** The bodies of `ds`, in order. */
  function Bodies(ds: seq<Datagram>): seq<Byte>
  {
    if ds == [] then [] else Bodies(ds[..|ds| - 1]) + ds[|ds| - 1].body
  }

  lemma BodiesSnoc(ds: seq<Datagram>, d: Datagram)
    ensures Bodies(ds + [d]) == Bodies(ds) + d.body
  {
    assert (ds + [d])[..|ds|] == ds;
  }

  /** The datagram that ends a transfer. */
  predicate Terminal(d: Datagram)
  {
    d.chunkNum == d.chunks
  }

  /** A transfer read from `ds` ends with the `n`-th datagram: it is the
    * first terminal one. */
  ghost predicate EndsAt(ds: seq<Datagram>, n: nat)
  {
    1 <= n <= |ds| && Terminal(ds[n - 1]) && forall j :: 0 <= j < n - 1 ==> !Terminal(ds[j])
  }

  /** A transfer ends in one place only. */
  lemma EndsAtUnique(ds: seq<Datagram>, n: nat, m: nat)
    requires EndsAt(ds, n) && EndsAt(ds, m)
    ensures n == m
  {
  }

  /** The first `k` framed datagrams carry the first `k * size` bytes. */
  lemma {:induction false} FramedPrefix(ds: seq<Datagram>, p: seq<Byte>, size: nat, k: nat)
    requires size > 0 && FramedAs(ds, p, size) && k <= |ds|
    ensures Bodies(ds[..k]) == p[..if k * size < |p| then k * size else |p|]
  {
    if k > 0 {
      FramedPrefix(ds, p, size, k - 1);
      var lo := (k - 1) * size;
      var hi := k * size;
      StepMul(k, size);
      assert ds[k - 1].body == Slice(p, lo, hi);
      var a := if lo < |p| then lo else |p|;
      var b := if hi < |p| then hi else |p|;
      assert ds[..k] == ds[..k - 1] + [ds[k - 1]];
      BodiesSnoc(ds[..k - 1], ds[k - 1]);
      assert p[..a] + p[a..b] == p[..b];
    }
  }

  lemma StepMul(k: nat, size: nat)
    requires k > 0
    ensures (k - 1) * size + size == k * size
  {
  }

  /** The framed bodies concatenate to the payload and the extra last
    * datagram is empty. */
  lemma FramedPayload(ds: seq<Datagram>, p: seq<Byte>, size: nat)
    requires size > 0 && FramedAs(ds, p, size)
    ensures Bodies(ds) == p
    ensures ds[|ds| - 1].body == []
  {
    var c := Chunks(|p|, size);
    FramedPrefix(ds, p, size, |ds|);
    assert ds[..|ds|] == ds;
    assert c * size >= |p|;
  }

  /** Fed the datagrams of a non-empty payload in order, the receiver stops
    * after `chunks` of them, holding exactly the payload; the extra empty
    * datagram is left unread. */
  lemma FramedEnds(ds: seq<Datagram>, p: seq<Byte>, size: nat)
    requires size > 0 && FramedAs(ds, p, size) && |p| > 0
    ensures EndsAt(ds, Chunks(|p|, size))
    ensures Bodies(ds[..Chunks(|p|, size)]) == p
  {
    var c := Chunks(|p|, size);
    FramedPrefix(ds, p, size, c);
    assert c * size >= |p|;
    assert Terminal(ds[c - 1]);
    forall j | 0 <= j < c - 1 ensures !Terminal(ds[j]) {
      assert ds[j].chunkNum == j + 1;
    }
  }

  /** An empty payload is framed as a single datagram headed `(1, 0)`,
    * which is never terminal: the receiver would wait for more. */
  lemma EmptyPayloadNeverEnds(ds: seq<Datagram>, size: nat)
    requires size > 0 && FramedAs(ds, [], size)
    ensures |ds| == 1 && forall j :: 0 <= j < |ds| ==> !Terminal(ds[j])
  {
    assert ds[0].chunkNum == 1 && ds[0].chunks == 0;
  }
}
