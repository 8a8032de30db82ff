/**
 * `CsvChunker`: the stream transform that packs the pieces a read stream
 * delivers into numbered chunk files of at most `CHUNK_SIZE` bytes, greedily
 * and without ever splitting a piece.
 */
module CsvChunker {
  import opened Http
  import opened Chunking

  /** The number of bytes a group of pieces holds. */
  function Size(g: seq<Bytes>): nat
  {
    if g == [] then 0 else Size(g[..|g| - 1]) + |g[|g| - 1]|
  }

  /** The pieces of all groups, in order. */
  function Flatten(groups: seq<seq<Bytes>>): seq<Bytes>
  {
    if groups == [] then [] else Flatten(groups[..|groups| - 1]) + groups[|groups| - 1]
  }

  /**
   * The transform's state: the groups written so far, each one chunk file, the
   * last being the file still open; and `currentSize`, the bytes written to it.
   */
  datatype Chunker = Chunker(groups: seq<seq<Bytes>>, currentSize: nat)

  /** A fresh transform: no write stream yet. */
  const Start: Chunker := Chunker([], 0)

  /** `_transform` opens a new file for `piece`: the piece does not fit, or no file is open yet. */
  predicate StartsGroup(c: Chunker, piece: Bytes)
  {
    c.currentSize + |piece| > ChunkSize || |c.groups| == 0
  }

  /**
   * `_transform`: the piece goes to a new file when it starts one, and is
   * appended to the open file otherwise; either way it is written whole.
   */
  function Transform(c: Chunker, piece: Bytes): (r: Chunker)
    ensures Flatten(r.groups) == Flatten(c.groups) + [piece]
    ensures |r.groups| == |c.groups| + (if StartsGroup(c, piece) then 1 else 0)
    ensures r.currentSize == (if StartsGroup(c, piece) then 0 else c.currentSize) + |piece|
  {
    if StartsGroup(c, piece) then
      var r := Chunker(c.groups + [[piece]], |piece|);
      assert r.groups[..|r.groups| - 1] == c.groups;
      r
    else
      var init, last := c.groups[..|c.groups| - 1], c.groups[|c.groups| - 1];
      var r := Chunker(init + [last + [piece]], c.currentSize + |piece|);
      assert r.groups[..|r.groups| - 1] == init;
      assert c.groups == init + [last];
      assert Flatten(c.groups) == Flatten(init) + last by {
        assert c.groups[..|c.groups| - 1] == init;
      }
      r
  }

  /** The whole stream through the transform; `_final` only closes the open file. */
  function Pack(pieces: seq<Bytes>): (c: Chunker)
    ensures Flatten(c.groups) == pieces
  {
    if pieces == [] then Start else Transform(Pack(pieces[..|pieces| - 1]), pieces[|pieces| - 1])
  }

  /**
   * What a greedy packing of `pieces` is, independently of the transform: the
   * groups spell the pieces in order, none is empty, a group of two or more
   * pieces fits in `CHUNK_SIZE`, and each group but the last could not take the
   * first piece of the next.
   */
  ghost predicate Greedy(pieces: seq<Bytes>, groups: seq<seq<Bytes>>)
  {
    && Flatten(groups) == pieces
    && (forall k :: 0 <= k < |groups| ==> |groups[k]| > 0)
    && (forall k :: 0 <= k < |groups| ==> Size(groups[k]) <= ChunkSize || |groups[k]| == 1)
    && (forall k :: 0 <= k < |groups| - 1 ==> Size(groups[k]) + |groups[k + 1][0]| > ChunkSize)
  }

  /** `currentSize` is the size of the open file. */
  ghost predicate Tracks(c: Chunker)
  {
    c.currentSize == if c.groups == [] then 0 else Size(c.groups[|c.groups| - 1])
  }

  /** The transform packs greedily, and its `currentSize` tracks the open file. */
  lemma {:induction false} PackGreedy(pieces: seq<Bytes>)
    ensures Greedy(pieces, Pack(pieces).groups)
    ensures Tracks(Pack(pieces))
    decreases |pieces|
  {
    if pieces != [] {
      var prefix, p := pieces[..|pieces| - 1], pieces[|pieces| - 1];
      assert prefix + [p] == pieces;
      PackGreedy(prefix);
      GreedyStep(prefix, Pack(prefix), p);
    }
  }

  /** One `_transform` call keeps the packing greedy and `currentSize` in step. */
  lemma GreedyStep(prefix: seq<Bytes>, c: Chunker, p: Bytes)
    requires Greedy(prefix, c.groups) && Tracks(c)
    ensures Greedy(prefix + [p], Transform(c, p).groups) && Tracks(Transform(c, p))
  {
    if StartsGroup(c, p) {
      OpenNewFile(prefix, c, p);
    } else {
      AppendToOpenFile(prefix, c, p);
    }
  }

  lemma OpenNewFile(prefix: seq<Bytes>, c: Chunker, p: Bytes)
    requires Greedy(prefix, c.groups) && Tracks(c) && StartsGroup(c, p)
    ensures Greedy(prefix + [p], Transform(c, p).groups) && Tracks(Transform(c, p))
  {
    var r := Transform(c, p);
    var gs := c.groups;
    assert r.groups == gs + [[p]];
    assert Size([p]) == |p| by {
      assert [p][..0] == [];
    }
    assert r.groups[|r.groups| - 1] == [p];
    forall k | 0 <= k < |r.groups| - 1
      ensures Size(r.groups[k]) + |r.groups[k + 1][0]| > ChunkSize
    {
      if k < |gs| - 1 {
        assert r.groups[k] == gs[k] && r.groups[k + 1] == gs[k + 1];
      } else {
        assert r.groups[k] == gs[|gs| - 1] && r.groups[k + 1][0] == p;
      }
    }
  }

  lemma AppendToOpenFile(prefix: seq<Bytes>, c: Chunker, p: Bytes)
    requires Greedy(prefix, c.groups) && Tracks(c) && !StartsGroup(c, p)
    ensures Greedy(prefix + [p], Transform(c, p).groups) && Tracks(Transform(c, p))
  {
    var r := Transform(c, p);
    var gs := c.groups;
    var init, last := gs[..|gs| - 1], gs[|gs| - 1];
    assert r.groups == init + [last + [p]];
    assert (last + [p])[..|last + [p]| - 1] == last;
    assert Size(last + [p]) == Size(last) + |p|;
    assert r.groups[|r.groups| - 1] == last + [p];
    forall k | 0 <= k < |r.groups|
      ensures |r.groups[k]| > 0
      ensures Size(r.groups[k]) <= ChunkSize || |r.groups[k]| == 1
    {
      if k < |gs| - 1 {
        assert r.groups[k] == gs[k];
      }
    }
    forall k | 0 <= k < |r.groups| - 1
      ensures Size(r.groups[k]) + |r.groups[k + 1][0]| > ChunkSize
    {
      assert r.groups[k] == gs[k];
      if k + 1 < |gs| - 1 {
        assert r.groups[k + 1] == gs[k + 1];
      } else {
        assert r.groups[k + 1][0] == last[0];
      }
    }
  }

  /**
   * The greedy packing is unique: any grouping that meets `Greedy` is the one
   * the transform produces.
   */
  lemma {:induction false} GreedyUnique(pieces: seq<Bytes>, groups: seq<seq<Bytes>>)
    requires Greedy(pieces, groups)
    ensures groups == Pack(pieces).groups
    decreases |pieces|
  {
    if groups == [] {
      assert pieces == [];
    } else {
      var n := |groups|;
      var init, last := groups[..n - 1], groups[n - 1];
      assert groups == init + [last];
      assert Flatten(groups) == Flatten(init) + last;
      var p := last[|last| - 1];
      assert pieces[|pieces| - 1] == p;
      var prefix := pieces[..|pieces| - 1];
      assert prefix + [p] == pieces;
      if |last| == 1 {
        assert last == [p];
        assert Flatten(init) == prefix;
        InitGreedy(init, groups);
        GreedyUnique(prefix, init);
        OpenNewFileUnique(prefix, p, init);
      } else {
        var shorter := last[..|last| - 1];
        assert last == shorter + [p];
        var g := init + [shorter];
        assert g[..|g| - 1] == init;
        assert Flatten(g) == Flatten(init) + shorter;
        assert Flatten(g) == prefix;
        ShorterGreedy(init, shorter, p, groups);
        GreedyUnique(prefix, g);
        AppendUnique(prefix, p, init, shorter);
      }
    }
  }

  /** A greedy grouping whose last group is the last piece alone is the transform's. */
  lemma OpenNewFileUnique(prefix: seq<Bytes>, p: Bytes, init: seq<seq<Bytes>>)
    requires Greedy(prefix + [p], init + [[p]]) && init == Pack(prefix).groups
    ensures init + [[p]] == Pack(prefix + [p]).groups
  {
    var groups := init + [[p]];
    PackGreedy(prefix);
    assert (prefix + [p])[..|prefix|] == prefix;
    if init != [] {
      assert Size(init[|init| - 1]) + |p| > ChunkSize by {
        assert init[|init| - 1] == groups[|groups| - 2] && groups[|groups| - 1][0] == p;
      }
    }
  }

  /** A greedy grouping whose last group holds two or more pieces is the transform's. */
  lemma AppendUnique(prefix: seq<Bytes>, p: Bytes, init: seq<seq<Bytes>>, shorter: seq<Bytes>)
    requires |shorter| > 0
    requires Greedy(prefix + [p], init + [shorter + [p]]) && init + [shorter] == Pack(prefix).groups
    ensures init + [shorter + [p]] == Pack(prefix + [p]).groups
  {
    var groups := init + [shorter + [p]];
    PackGreedy(prefix);
    assert (prefix + [p])[..|prefix|] == prefix;
    assert (shorter + [p])[..|shorter|] == shorter;
    assert Size(shorter + [p]) == Size(shorter) + |p|;
    assert Size(groups[|groups| - 1]) <= ChunkSize;
    var c := Pack(prefix);
    assert c.groups[..|c.groups| - 1] == init;
  }

  /** Dropping the last group of a greedy grouping leaves a greedy grouping of what it spells. */
  lemma InitGreedy(init: seq<seq<Bytes>>, groups: seq<seq<Bytes>>)
    requires |groups| > 0 && init == groups[..|groups| - 1]
    requires Greedy(Flatten(groups), groups)
    ensures Greedy(Flatten(init), init)
  {
    forall k | 0 <= k < |init| - 1
      ensures Size(init[k]) + |init[k + 1][0]| > ChunkSize
    {
      assert init[k] == groups[k] && init[k + 1] == groups[k + 1];
    }
  }

  /** Dropping the last piece of a last group of two or more pieces keeps the grouping greedy. */
  lemma ShorterGreedy(init: seq<seq<Bytes>>, shorter: seq<Bytes>, p: Bytes, groups: seq<seq<Bytes>>)
    requires groups == init + [shorter + [p]] && |shorter| > 0
    requires Greedy(Flatten(groups), groups)
    ensures Greedy(Flatten(init + [shorter]), init + [shorter])
  {
    var g := init + [shorter];
    var n := |groups|;
    assert (shorter + [p])[..|shorter|] == shorter;
    assert Size(shorter + [p]) == Size(shorter) + |p|;
    assert Size(groups[n - 1]) <= ChunkSize;
    forall k | 0 <= k < |g|
      ensures |g[k]| > 0
      ensures Size(g[k]) <= ChunkSize || |g[k]| == 1
    {
      if k < n - 1 {
        assert g[k] == groups[k];
      }
    }
    forall k | 0 <= k < |g| - 1
      ensures Size(g[k]) + |g[k + 1][0]| > ChunkSize
    {
      assert g[k] == groups[k];
      if k + 1 < n - 1 {
        assert g[k + 1] == groups[k + 1];
      } else {
        assert g[k + 1][0] == groups[k + 1][0];
      }
    }
  }

  /** The bytes of chunk file `k` (0-based within one run of the transform). */
  function FileBytes(groups: seq<seq<Bytes>>, k: nat): Bytes
    requires k < |groups|
  {
    Concat(groups[k])
  }

  /** The bytes of every chunk file of one run, in file order. */
  function Files(groups: seq<seq<Bytes>>): (files: seq<Bytes>)
    ensures |files| == |groups|
    ensures forall k :: 0 <= k < |groups| ==> files[k] == FileBytes(groups, k)
  {
    seq(|groups|, k requires 0 <= k < |groups| => FileBytes(groups, k))
  }

  /** The chunk files, read back in order, spell the pieces the groups hold. */
  lemma {:induction false} FilesSpellPieces(groups: seq<seq<Bytes>>)
    ensures Concat(Files(groups)) == Concat(Flatten(groups))
    decreases |groups|
  {
    if groups != [] {
      var init, last := groups[..|groups| - 1], groups[|groups| - 1];
      FilesSpellPieces(init);
      assert Files(groups)[..|groups| - 1] == Files(init);
      ConcatAppend(Flatten(init), last);
    }
  }

  /** The chunk files of a stream, read back in order, are the stream. */
  lemma FilesSpellStream(pieces: seq<Bytes>)
    ensures Concat(Files(Pack(pieces).groups)) == Concat(pieces)
  {
    PackGreedy(pieces);
    FilesSpellPieces(Pack(pieces).groups);
  }

  /** There are no more files than pieces; an empty stream opens no file, a non-empty one at least one. */
  lemma {:induction false} PackCount(pieces: seq<Bytes>)
    ensures |Pack(pieces).groups| <= |pieces|
    ensures |Pack(pieces).groups| == 0 <==> |pieces| == 0
    decreases |pieces|
  {
    if pieces != [] {
      PackCount(pieces[..|pieces| - 1]);
    }
  }

  /** Pieces that together fit in one chunk all go to one file, which stays open holding all their bytes. */
  lemma {:induction false} SmallStreamOneFile(pieces: seq<Bytes>)
    requires |pieces| > 0 && Size(pieces) <= ChunkSize
    ensures Pack(pieces).groups == [pieces]
    ensures Pack(pieces).currentSize == Size(pieces)
    decreases |pieces|
  {
    var prefix, p := pieces[..|pieces| - 1], pieces[|pieces| - 1];
    if prefix == [] {
      assert pieces == [p];
    } else {
      SmallStreamOneFile(prefix);
      var c := Pack(prefix);
      assert Pack(pieces) == Transform(c, p);
      assert Size(pieces) == Size(prefix) + |p|;
      assert !StartsGroup(c, p);
      assert c.groups[..|c.groups| - 1] == [] && c.groups[|c.groups| - 1] == prefix;
      assert Transform(c, p) == Chunker([] + [prefix + [p]], c.currentSize + |p|);
      assert prefix + [p] == pieces;
    }
  }
}
