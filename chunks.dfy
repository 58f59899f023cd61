/** Slicing data into the fixed-width buffers of the RED Brick protocol. */
module Chunks {
  import opened Errors

  function Min(a: int, b: int): int { if a <= b then a else b }

  function Zeros(n: nat): (z: seq<byte>)
    ensures |z| == n && forall i :: 0 <= i < n ==> z[i] == 0
  {
    seq(n, _ => 0)
  }

  /** _get_zero_padded_chunk: the slice data[start:start+maxLength], padded with zero
      bytes to exactly maxLength, together with the length of the unpadded slice. */
  function ZeroPaddedChunk(data: seq<byte>, maxLength: nat, start: nat): (r: (seq<byte>, nat))
    ensures |r.0| == maxLength
    ensures r.1 == Min(maxLength, if start < |data| then |data| - start else 0)
    ensures start + r.1 <= |data| || r.1 == 0
    ensures forall i :: 0 <= i < r.1 ==> r.0[i] == data[start + i]
    ensures forall i :: r.1 <= i < maxLength ==> r.0[i] == 0
  {
    var chunk := if start < |data| then data[start..Min(|data|, start + maxLength)] else [];
    (chunk + Zeros(maxLength - |chunk|), |chunk|)
  }

  /** The unpadded part of a padded chunk. */
  lemma ChunkPrefix(data: seq<byte>, maxLength: nat, start: nat)
    requires start <= |data|
    ensures var (chunk, n) := ZeroPaddedChunk(data, maxLength, start);
            start + n <= |data| && chunk[..n] == data[start..start + n]
  {
  }

  /** One protocol call's worth of data, with the offset at which it starts. */
  datatype Piece = Piece(offset: nat, bytes: seq<byte>)

  /** The consecutive pieces of at most m bytes that data splits into, the first
      one starting at offset. */
  function Pieces(data: seq<byte>, m: nat, offset: nat): seq<Piece>
    requires m > 0
    decreases |data|
  {
    if |data| == 0 then []
    else
      var n := Min(m, |data|);
      [Piece(offset, data[..n])] + Pieces(data[n..], m, offset + n)
  }

  /** Concatenation of the pieces' bytes, in order. */
  function Join(ps: seq<Piece>): seq<byte>
  {
    if ps == [] then [] else ps[0].bytes + Join(ps[1..])
  }

  lemma {:induction false} JoinAppend(ps: seq<Piece>, qs: seq<Piece>)
    ensures Join(ps + qs) == Join(ps) + Join(qs)
  {
    if ps != [] {
      assert (ps + qs)[1..] == ps[1..] + qs;
      JoinAppend(ps[1..], qs);
    } else {
      assert ps + qs == qs;
    }
  }

  /** Round trip: joining the pieces gives back the data. */
  lemma {:induction false} PiecesJoin(data: seq<byte>, m: nat, offset: nat)
    requires m > 0
    ensures Join(Pieces(data, m, offset)) == data
    decreases |data|
  {
    if |data| > 0 {
      var n := Min(m, |data|);
      var ps := Pieces(data, m, offset);
      var rest := Pieces(data[n..], m, offset + n);
      PiecesJoin(data[n..], m, offset + n);
      assert ps == [Piece(offset, data[..n])] + rest;
      assert ps[1..] == rest;
      assert Join(ps) == data[..n] + Join(rest);
      assert data == data[..n] + data[n..];
    }
  }

  /** Every piece is non-empty and at most m bytes long, every piece but the last is
      exactly m bytes long, and each piece starts where the bytes before it end. */
  lemma {:induction false} PiecesShape(data: seq<byte>, m: nat, offset: nat, i: nat)
    requires m > 0
    requires i < |Pieces(data, m, offset)|
    ensures var ps := Pieces(data, m, offset);
            0 < |ps[i].bytes| <= m &&
            (i < |ps| - 1 ==> |ps[i].bytes| == m) &&
            ps[i].offset == offset + |Join(ps[..i])|
    decreases |data|
  {
    var ps := Pieces(data, m, offset);
    var n := Min(m, |data|);
    var rest := Pieces(data[n..], m, offset + n);
    assert ps == [Piece(offset, data[..n])] + rest;
    if i == 0 {
      assert ps[..0] == [];
      if |ps| > 1 {
        assert |data[n..]| > 0;
      }
    } else {
      PiecesShape(data[n..], m, offset + n, i - 1);
      assert ps[..i] == [ps[0]] + rest[..i - 1];
      JoinAppend([ps[0]], rest[..i - 1]);
      assert Join([ps[0]]) == data[..n];
    }
  }

  /** The number of pieces is the length divided by m, rounded up: that many pieces
      of m bytes hold the data, one fewer do not. */
  lemma {:induction false} PiecesCount(data: seq<byte>, m: nat, offset: nat)
    requires m > 0
    ensures var k := |Pieces(data, m, offset)|;
            |data| <= k * m && (k == 0 || (k - 1) * m < |data|)
    decreases |data|
  {
    if |data| > 0 {
      var n := Min(m, |data|);
      PiecesCount(data[n..], m, offset + n);
      var k := |Pieces(data[n..], m, offset + n)|;
      assert |Pieces(data, m, offset)| == k + 1;
      assert (k + 1) * m == k * m + m;
    }
  }
}
