/** The plane splitter and merger (`evt2planes` and `planes2evt`): a raw
    event (all channels of all APAs, by time tick) is cut into induction and
    collection planes, and planes are put back together into an event.

    The geometry table is a parameter. Each APA owns `nbApaChannels`
    consecutive event rows: the first `nbIChannels` rows are its first
    induction plane, the next `nbIChannels` its second, and the remaining
    rows its collection plane. */
module Geometry {
  import opened Seqs
  import opened Tensors

  /** The ways numpy rejects the arrays these functions build. */
  datatype ShapeError =
    | StackMismatch     // np.stack: no array, or arrays of different shapes
    | ReshapeMismatch   // reshape: the samples do not fill whole blocks
    | MissingChannel    // `[:, 0]` on a plane with an empty channel axis
    | EmptyConcat       // np.concatenate of an empty list
    | ConcatMismatch    // np.concatenate of arrays with different column counts

  /** The detector geometry table. */
  datatype Geometry = Geometry(nbApas: nat, nbIChannels: nat, nbApaChannels: nat, nbTdcTicks: nat)
  {
    /** A usable table: at least one APA, non-empty planes, and room for a
        collection plane after the two induction planes of each APA. */
    predicate Valid()
    {
      nbApas >= 1 && nbIChannels >= 1 && nbTdcTicks >= 1 && nbApaChannels > 2 * nbIChannels
    }

    /** Rows of one collection plane. */
    function NbCChannels(): nat
      requires Valid()
    {
      nbApaChannels - 2 * nbIChannels
    }

    /** Rows of a whole event. */
    function NbEventChannels(): nat
    {
      nbApas * nbApaChannels
    }

    /** The first event row of APA `a`: `arange(nb_apas) * nb_apa_channels`. */
    function ApaBase(a: nat): nat
    {
      Offset(a, nbApaChannels)
    }
  }

  /** Induction plane 0 of APA `a`: event rows [a·A, a·A + I), clipped like a Python slice. */
  function FirstInduction(g: Geometry, e: Matrix, a: nat): Matrix
  {
    var base := g.ApaBase(a);
    Slice(e, base, base + g.nbIChannels)
  }

  /** Induction plane 1 of APA `a`: event rows [a·A + I, a·A + 2·I). */
  function SecondInduction(g: Geometry, e: Matrix, a: nat): Matrix
  {
    var base := g.ApaBase(a);
    Slice(e, base + g.nbIChannels, base + 2 * g.nbIChannels)
  }

  /** Collection plane of APA `a`: event rows [a·A + 2·I, a·A + A). */
  function CollectionSlice(g: Geometry, e: Matrix, a: nat): Matrix
  {
    var base := g.ApaBase(a);
    Slice(e, base + 2 * g.nbIChannels, base + g.nbApaChannels)
  }

  /** The induction planes of the first `n` APAs, in the order the splitter
      appends them: both of APA 0, both of APA 1, ... */
  function InductionPieces(g: Geometry, e: Matrix, n: nat): (r: seq<Matrix>)
    ensures |r| == 2 * n
    ensures forall a :: 0 <= a < n ==> r[2 * a] == FirstInduction(g, e, a) && r[2 * a + 1] == SecondInduction(g, e, a)
  {
    if n == 0 then []
    else InductionPieces(g, e, n - 1) + [FirstInduction(g, e, n - 1), SecondInduction(g, e, n - 1)]
  }

  /** The collection planes of the first `n` APAs, in APA order. */
  function CollectionPieces(g: Geometry, e: Matrix, n: nat): (r: seq<Matrix>)
    ensures |r| == n
    ensures forall a :: 0 <= a < n ==> r[a] == CollectionSlice(g, e, a)
  {
    if n == 0 then [] else CollectionPieces(g, e, n - 1) + [CollectionSlice(g, e, n - 1)]
  }

  /** What np.stack accepts: at least one array, all with the same number of
      rows (row slices of one 2-axis array always share their column count). */
  predicate Stackable(ps: seq<Matrix>)
  {
    |ps| > 0 && forall k :: 0 <= k < |ps| ==> |ps[k]| == |ps[0]|
  }

  /** `evt2planes`: the induction planes and the collection planes of an
      event, each given a singleton channel axis. The event's row count is
      not checked: surplus rows are ignored, and a short event fails only when
      its clipped slices cannot be stacked. */
  function EventToPlanes(g: Geometry, e: Matrix): (r: Result<(Batch, Batch), ShapeError>)
    ensures r.Ok? ==> |r.value.0| == 2 * g.nbApas && |r.value.1| == g.nbApas
    ensures r.Ok? ==> forall k :: 0 <= k < |r.value.0| ==> |r.value.0[k]| == 1
    ensures r.Ok? ==> forall k :: 0 <= k < |r.value.1| ==> |r.value.1[k]| == 1
    ensures r.Err? <==> g.nbApas == 0 || !Stackable(InductionPieces(g, e, g.nbApas)) ||
                        !Stackable(CollectionPieces(g, e, g.nbApas))
  {
    var ip, cp := InductionPieces(g, e, g.nbApas), CollectionPieces(g, e, g.nbApas);
    if Stackable(ip) && Stackable(cp) then Ok((Singletons(ip), Singletons(cp)))
    else Err(StackMismatch)
  }

  /** The loops of `evt2planes`: for each APA append its two induction
      slices, then for each APA append its collection slice, then stack. */
  method SplitEvent(g: Geometry, e: Matrix) returns (r: Result<(Batch, Batch), ShapeError>)
    ensures r == EventToPlanes(g, e)
  {
    var inductions := CollectInductions(g, e);
    var collections := CollectCollections(g, e);
    if Stackable(inductions) && Stackable(collections) {
      r := Ok((Singletons(inductions), Singletons(collections)));
    } else {
      r := Err(StackMismatch);
    }
  }

  /** Appending APA a's two induction slices to the induction pieces of the
      APAs before it gives those of the first a + 1 APAs. */
  lemma InductionStep(g: Geometry, e: Matrix, a: nat, prev: seq<Matrix>, next: seq<Matrix>)
    requires prev == InductionPieces(g, e, a)
    requires next == prev + [Slice(e, g.ApaBase(a), g.ApaBase(a) + g.nbIChannels),
                             Slice(e, g.ApaBase(a) + g.nbIChannels, g.ApaBase(a) + 2 * g.nbIChannels)]
    ensures next == InductionPieces(g, e, a + 1)
  {
  }

  /** Appending APA a's collection slice to the collection pieces of the
      APAs before it gives those of the first a + 1 APAs. */
  lemma CollectionStep(g: Geometry, e: Matrix, a: nat, prev: seq<Matrix>, next: seq<Matrix>)
    requires prev == CollectionPieces(g, e, a)
    requires next == prev + [Slice(e, g.ApaBase(a) + 2 * g.nbIChannels, g.ApaBase(a) + g.nbApaChannels)]
    ensures next == CollectionPieces(g, e, a + 1)
  {
  }

  /** The first loop of `evt2planes`, over the rows [start, idx, end] of
      `arange(3) * nb_ichannels + base`. */
  method CollectInductions(g: Geometry, e: Matrix) returns (inductions: seq<Matrix>)
    ensures inductions == InductionPieces(g, e, g.nbApas)
  {
    inductions := [];
    var a := 0;
    while a < g.nbApas
      invariant 0 <= a <= g.nbApas
      invariant inductions == InductionPieces(g, e, a)
    {
      var base := g.ApaBase(a);
      var start, idx, end := base, base + g.nbIChannels, base + 2 * g.nbIChannels;
      var next := inductions + [Slice(e, start, idx), Slice(e, idx, end)];
      InductionStep(g, e, a, inductions, next);
      inductions := next;
      a := a + 1;
    }
  }

  /** The second loop of `evt2planes`, over the rows [start, end] of
      `[2 * nb_ichannels, nb_apa_channels] + base`. */
  method CollectCollections(g: Geometry, e: Matrix) returns (collections: seq<Matrix>)
    ensures collections == CollectionPieces(g, e, g.nbApas)
  {
    collections := [];
    var a := 0;
    while a < g.nbApas
      invariant 0 <= a <= g.nbApas
      invariant collections == CollectionPieces(g, e, a)
    {
      var base := g.ApaBase(a);
      var start, end := base + 2 * g.nbIChannels, base + g.nbApaChannels;
      var next := collections + [Slice(e, start, end)];
      CollectionStep(g, e, a, collections, next);
      collections := next;
      a := a + 1;
    }
  }

  /** Every block has `h` rows of `w` samples. */
  predicate Blocks(bs: seq<Matrix>, h: nat, w: nat)
  {
    forall k :: 0 <= k < |bs| ==> |bs[k]| == h && Uniform(bs[k], w)
  }

  /** `reshape(-1, 2·I, T)`: all samples in row-major order, cut into rows
      of T samples and blocks of 2·I rows; it fails unless the samples fill
      whole blocks. */
  function Reshaped(g: Geometry, ind: Batch): (r: Result<seq<Matrix>, ShapeError>)
    ensures r.Ok? ==> Concat(Concat(r.value)) == Samples(ind)
    ensures r.Err? ==> r == Err(ReshapeMismatch)
    ensures |Samples(ind)| == 0 && g.nbIChannels > 0 && g.nbTdcTicks > 0 ==> r == Ok([])
    ensures r.Err? <==> 2 * g.nbIChannels * g.nbTdcTicks == 0 || !Divisible(|Samples(ind)|, 2 * g.nbIChannels * g.nbTdcTicks)
    ensures r.Ok? ==> Blocks(r.value, 2 * g.nbIChannels, g.nbTdcTicks)
  {
    var flat := Samples(ind);
    var block := 2 * g.nbIChannels * g.nbTdcTicks;
    if block == 0 || !Divisible(|flat|, block) then Err(ReshapeMismatch)
    else
      var rows := Chunk(flat, g.nbTdcTicks);
      DivisibleFactor(|flat|, g.nbTdcTicks, 2 * g.nbIChannels);
      ChunkUniform(flat, g.nbTdcTicks);
      ChunkUniform(rows, 2 * g.nbIChannels);
      ChunkMembers(rows, 2 * g.nbIChannels);
      ConcatChunk(flat, g.nbTdcTicks);
      ConcatChunk(rows, 2 * g.nbIChannels);
      Ok(Chunk(rows, 2 * g.nbIChannels))
  }

  /** `[:, 0]`: channel 0 of every plane. */
  function StripChannel(col: Batch): (r: Result<seq<Matrix>, ShapeError>)
    ensures r.Ok? <==> forall k :: 0 <= k < |col| ==> |col[k]| > 0
    ensures r.Ok? ==> |r.value| == |col| && forall k :: 0 <= k < |col| ==> |col[k]| > 0 && r.value[k] == col[k][0]
  {
    if exists k :: 0 <= k < |col| && |col[k]| == 0 then Err(MissingChannel)
    else Ok(seq(|col|, k requires 0 <= k < |col| => col[k][0]))
  }

  /** The list `[i0, c0, i1, c1, ...]` that the merge loop builds. */
  function Interleave(bs: seq<Matrix>, cs: seq<Matrix>): (r: seq<Matrix>)
    requires |bs| == |cs|
    ensures |r| == 2 * |bs|
    ensures forall a :: 0 <= a < |bs| ==> r[2 * a] == bs[a] && r[2 * a + 1] == cs[a]
  {
    if |bs| == 0 then []
    else Interleave(bs[..|bs| - 1], cs[..|cs| - 1]) + [bs[|bs| - 1], cs[|cs| - 1]]
  }

  /** The zip-and-concatenate half of `planes2evt`: block a followed by
      collection plane a, for as many APAs as both lists have (`zip` stops
      at the shorter one); np.concatenate needs at least one array and a
      common column count. */
  function Assemble(g: Geometry, blocks: seq<Matrix>, cs: seq<Matrix>): (r: Result<Matrix, ShapeError>)
    ensures r.Ok? ==> Uniform(r.value, g.nbTdcTicks)
    ensures r == Err(EmptyConcat) <==> |blocks| == 0 || |cs| == 0
  {
    var p := Min(|blocks|, |cs|);
    var merged := Concat(Interleave(blocks[..p], cs[..p]));
    if p == 0 then Err(EmptyConcat)
    else if !Uniform(merged, g.nbTdcTicks) then Err(ConcatMismatch)
    else Ok(merged)
  }

  /** `planes2evt`: the induction planes regrouped two by two into blocks,
      the channel axis stripped from the collection planes, then both
      interleaved and concatenated. */
  function PlanesToEvent(g: Geometry, ind: Batch, col: Batch): (r: Result<Matrix, ShapeError>)
    ensures r.Ok? ==> Uniform(r.value, g.nbTdcTicks)
  {
    match Reshaped(g, ind)
    case Err(err) => Err(err)
    case Ok(blocks) =>
      match StripChannel(col)
      case Err(err) => Err(err)
      case Ok(cs) => Assemble(g, blocks, cs)
  }

  /** The loop of `planes2evt`: reshape, strip the channel axis, extend the
      list pair by pair, concatenate. */
  method MergePlanes(g: Geometry, ind: Batch, col: Batch) returns (r: Result<Matrix, ShapeError>)
    ensures r == PlanesToEvent(g, ind, col)
  {
    var reshaped := Reshaped(g, ind);
    if reshaped.Err? {
      return Err(reshaped.error);
    }
    var blocks := reshaped.value;
    var stripped := StripChannel(col);
    if stripped.Err? {
      return Err(stripped.error);
    }
    var cs := stripped.value;
    var p := Min(|blocks|, |cs|);
    var event: seq<Matrix> := [];
    var k := 0;
    while k < p
      invariant 0 <= k <= p
      invariant event == Interleave(blocks[..k], cs[..k])
    {
      assert blocks[..k + 1][..k] == blocks[..k] && cs[..k + 1][..k] == cs[..k];
      event := event + [blocks[k], cs[k]];
      k := k + 1;
    }
    assert blocks[..p] == blocks[..k] && cs[..p] == cs[..k];
    if |event| == 0 {
      return Err(EmptyConcat);
    }
    var merged := Concat(event);
    if !Uniform(merged, g.nbTdcTicks) {
      return Err(ConcatMismatch);
    }
    return Ok(merged);
  }

  /** The first `m` pairs of consecutive planes, each joined into one block:
      plane 2a followed by plane 2a + 1. */
  function Pairs(ps: seq<Matrix>, m: nat): (r: seq<Matrix>)
    requires |ps| == 2 * m
    ensures |r| == m
    ensures forall a :: 0 <= a < m ==> r[a] == ps[2 * a] + ps[2 * a + 1]
  {
    if m == 0 then [] else Pairs(ps[..2 * m - 2], m - 1) + [ps[2 * m - 2] + ps[2 * m - 1]]
  }

  // ---------------------------------------------------------------------
  // Properties

  /** APA `a` < nbApas lies inside the nominal event rows. */
  lemma ApaInside(g: Geometry, a: nat)
    requires a < g.nbApas
    ensures g.ApaBase(a + 1) <= g.NbEventChannels()
  {
    if a + 1 < g.nbApas {
      OffsetMono(a + 1, g.nbApas, g.nbApaChannels);
    }
    OffsetIsProduct(g.nbApas, g.nbApaChannels);
  }

  /** The pieces of the first n APAs of an event that holds those APAs have
      their nominal row counts: I per induction plane, A − 2·I per
      collection plane. */
  lemma {:induction false} PiecesRows(g: Geometry, e: Matrix, n: nat)
    requires g.Valid() && g.ApaBase(n) <= |e|
    ensures Uniform(InductionPieces(g, e, n), g.nbIChannels)
    ensures Uniform(CollectionPieces(g, e, n), g.NbCChannels())
  {
    if n > 0 {
      PiecesRows(g, e, n - 1);
    }
  }

  /** Every piece of an event whose rows have `w` samples has rows of `w` samples. */
  lemma {:induction false} PiecesWidth(g: Geometry, e: Matrix, n: nat, w: nat)
    requires Uniform(e, w)
    ensures forall k :: 0 <= k < 2 * n ==> Uniform(InductionPieces(g, e, n)[k], w)
    ensures forall k :: 0 <= k < n ==> Uniform(CollectionPieces(g, e, n)[k], w)
  {
    if n > 0 {
      PiecesWidth(g, e, n - 1, w);
    }
  }

  /** On an event with at least the nominal number of rows the split
      succeeds; induction plane 2a is rows [a·A, a·A + I), plane 2a + 1 is
      rows [a·A + I, a·A + 2·I), collection plane a is rows
      [a·A + 2·I, (a + 1)·A), each with a singleton channel axis. */
  lemma SplitRows(g: Geometry, e: Matrix)
    requires g.Valid() && |e| >= g.NbEventChannels()
    ensures EventToPlanes(g, e).Ok?
    ensures forall a :: 0 <= a < g.nbApas ==>
      var A, I, b := g.nbApaChannels, g.nbIChannels, g.ApaBase(a);
      b + A <= |e| &&
      EventToPlanes(g, e).value.0[2 * a] == [e[b..b + I]] &&
      EventToPlanes(g, e).value.0[2 * a + 1] == [e[b + I..b + 2 * I]] &&
      EventToPlanes(g, e).value.1[a] == [e[b + 2 * I..b + A]]
  {
    var N := g.nbApas;
    ApaInside(g, N - 1);
    PiecesRows(g, e, N);
    forall a | 0 <= a < N ensures g.ApaBase(a) + g.nbApaChannels <= |e| {
      ApaInside(g, a);
    }
  }

  /** With exactly the nominal number of rows of T samples, the split yields
      2·nbApas induction planes of I rows and nbApas collection planes of
      A − 2·I rows, every row of T samples. */
  lemma SplitShapes(g: Geometry, e: Matrix)
    requires g.Valid() && |e| == g.NbEventChannels() && Uniform(e, g.nbTdcTicks)
    ensures EventToPlanes(g, e).Ok?
    ensures var (ind, col) := EventToPlanes(g, e).value;
      && |ind| == 2 * g.nbApas && |col| == g.nbApas
      && (forall k :: 0 <= k < |ind| ==> |ind[k]| == 1 && |ind[k][0]| == g.nbIChannels)
      && (forall k :: 0 <= k < |col| ==> |col[k]| == 1 && |col[k][0]| == g.NbCChannels())
      && BatchWidth(ind, g.nbTdcTicks) && BatchWidth(col, g.nbTdcTicks)
  {
    var N := g.nbApas;
    ApaInside(g, N - 1);
    PiecesRows(g, e, N);
    PiecesWidth(g, e, N, g.nbTdcTicks);
  }

  /** Planes cut from an event whose rows all have W samples have rows of W
      samples, whatever the number of rows. */
  lemma PlanesWidth(g: Geometry, e: Matrix, w: nat)
    requires Uniform(e, w) && EventToPlanes(g, e).Ok?
    ensures BatchWidth(EventToPlanes(g, e).value.0, w) && BatchWidth(EventToPlanes(g, e).value.1, w)
  {
    PiecesWidth(g, e, g.nbApas, w);
  }

  /** Two events that agree on every APA's slices split alike. */
  lemma {:induction false} PiecesAgree(g: Geometry, e: Matrix, f: Matrix, n: nat)
    requires forall a :: 0 <= a < n ==>
      FirstInduction(g, e, a) == FirstInduction(g, f, a) &&
      SecondInduction(g, e, a) == SecondInduction(g, f, a) &&
      CollectionSlice(g, e, a) == CollectionSlice(g, f, a)
    ensures InductionPieces(g, e, n) == InductionPieces(g, f, n)
    ensures CollectionPieces(g, e, n) == CollectionPieces(g, f, n)
  {
    if n > 0 {
      PiecesAgree(g, e, f, n - 1);
    }
  }

  /** An APA that lies within the first m rows has the same slices in the
      event and in its first m rows. */
  lemma ApaOfPrefix(g: Geometry, e: Matrix, m: nat, a: nat)
    requires g.Valid() && g.ApaBase(a + 1) <= m <= |e|
    ensures FirstInduction(g, e, a) == FirstInduction(g, e[..m], a)
    ensures SecondInduction(g, e, a) == SecondInduction(g, e[..m], a)
    ensures CollectionSlice(g, e, a) == CollectionSlice(g, e[..m], a)
  {
    var b, I := g.ApaBase(a), g.nbIChannels;
    assert g.ApaBase(a + 1) == b + g.nbApaChannels;
    SliceOfPrefix(e, m, b, b + I);
    SliceOfPrefix(e, m, b + I, b + 2 * I);
    SliceOfPrefix(e, m, b + 2 * I, b + g.nbApaChannels);
  }

  /** Event rows at index nbApas·A and beyond take no part in the split. */
  lemma ExtraRowsIgnored(g: Geometry, e: Matrix)
    requires g.Valid() && |e| >= g.NbEventChannels()
    ensures EventToPlanes(g, e) == EventToPlanes(g, e[..g.NbEventChannels()])
  {
    var m := g.NbEventChannels();
    forall a | 0 <= a < g.nbApas
      ensures FirstInduction(g, e, a) == FirstInduction(g, e[..m], a)
      ensures SecondInduction(g, e, a) == SecondInduction(g, e[..m], a)
      ensures CollectionSlice(g, e, a) == CollectionSlice(g, e[..m], a)
    {
      ApaInside(g, a);
      ApaOfPrefix(g, e, m, a);
    }
    PiecesAgree(g, e, e[..m], g.nbApas);
  }

  lemma {:induction false} ConcatOfPairs(ps: seq<Matrix>, m: nat)
    requires |ps| == 2 * m
    ensures Concat(Pairs(ps, m)) == Concat(ps)
  {
    if m > 0 {
      var init := ps[..2 * m - 2];
      var x, y := ps[2 * m - 2], ps[2 * m - 1];
      ConcatOfPairs(init, m - 1);
      assert ps == init + [x, y];
      ConcatAppendTwo(init, x, y);
      ConcatAppendOne(Pairs(init, m - 1), x + y);
    }
  }

  /** Every row of a concatenation of row-uniform matrices has the same width. */
  lemma {:induction false} RowsOfUniform(ps: seq<Matrix>, w: nat)
    requires forall k :: 0 <= k < |ps| ==> Uniform(ps[k], w)
    ensures Uniform(Concat(ps), w)
    decreases |ps|
  {
    if |ps| > 0 {
      RowsOfUniform(ps[..|ps| - 1], w);
    }
  }

  /** 2·m planes of I rows of T samples hold m whole blocks of 2·I·T samples. */
  lemma SampleCount(m: nat, i: nat, t: nat)
    requires i > 0 && t > 0
    ensures Divisible(Offset(Offset(2 * m, i), t), 2 * i * t)
  {
    OffsetIsProduct(m, 2);
    OffsetNested(m, 2, i);
    OffsetNested(m, Offset(2, i), t);
    OffsetIsProduct(2, i);
    OffsetIsProduct(2 * i, t);
    DivisibleOffset(m, 2 * i * t);
  }

  /** Regrouping: 2·m single-channel induction planes of I rows of T samples
      reshape into m blocks, block a being plane 2a followed by plane 2a + 1. */
  lemma ReshapePairs(g: Geometry, ps: seq<Matrix>, m: nat)
    requires g.Valid() && |ps| == 2 * m
    requires Uniform(ps, g.nbIChannels)
    requires forall k :: 0 <= k < |ps| ==> Uniform(ps[k], g.nbTdcTicks)
    ensures Reshaped(g, Singletons(ps)) == Ok(Pairs(ps, m))
  {
    var I, T := g.nbIChannels, g.nbTdcTicks;
    ConcatSingletons(ps);
    var rows := Concat(ps);
    ConcatUniformLength(ps, I);
    RowsOfUniform(ps, T);
    ConcatUniformLength(rows, T);
    SampleCount(m, I, T);
    ChunkConcat(rows, T);
    ConcatOfPairs(ps, m);
    ChunkConcat(Pairs(ps, m), 2 * I);
  }

  /** The merge list `[i0, c0, i1, c1, ...]` of the first n APAs' planes,
      APA by APA: its joined induction pair, then its collection plane. */
  function MergeList(g: Geometry, e: Matrix, n: nat): seq<Matrix>
  {
    if n == 0 then []
    else MergeList(g, e, n - 1) + [FirstInduction(g, e, n - 1) + SecondInduction(g, e, n - 1), CollectionSlice(g, e, n - 1)]
  }

  /** The merge list is what `planes2evt` builds from the split: the
      induction pieces joined in pairs, interleaved with the collection
      pieces. */
  lemma {:induction false} MergeListIsInterleave(g: Geometry, e: Matrix, n: nat)
    ensures MergeList(g, e, n) == Interleave(Pairs(InductionPieces(g, e, n), n), CollectionPieces(g, e, n))
  {
    if n > 0 {
      MergeListIsInterleave(g, e, n - 1);
      var ip, cp := InductionPieces(g, e, n), CollectionPieces(g, e, n);
      assert ip[..2 * n - 2] == InductionPieces(g, e, n - 1);
      assert cp[..n - 1] == CollectionPieces(g, e, n - 1);
    }
  }

  /** Rows [0, r) are rows [0, b) followed by rows [b, p), [p, q) and [q, r). */
  lemma ThreeParts(e: Matrix, b: nat, p: nat, q: nat, r: nat)
    requires b <= p <= q <= r <= |e|
    ensures e[..b] + ((Slice(e, b, p) + Slice(e, p, q)) + Slice(e, q, r)) == e[..r]
  {
    var x, y, z := Slice(e, b, p), Slice(e, p, q), Slice(e, q, r);
    assert x == e[b..p] && y == e[p..q] && z == e[q..r];
    var parts := e[..b] + ((x + y) + z);
    assert |parts| == r;
    forall i | 0 <= i < r ensures parts[i] == e[i] {
      if i < b {
      } else if i < p {
        assert parts[i] == x[i - b];
      } else if i < q {
        assert parts[i] == y[i - p];
      } else {
        assert parts[i] == z[i - q];
      }
    }
  }

  /** Appending APA a's block and collection plane to the merge of the APAs
      before it extends the merged rows by APA a's rows. */
  lemma MergeAppend(g: Geometry, e: Matrix, prev: seq<Matrix>, a: nat)
    requires g.Valid() && g.ApaBase(a) + g.nbApaChannels <= |e| && Concat(prev) == e[..g.ApaBase(a)]
    ensures Concat(prev + [FirstInduction(g, e, a) + SecondInduction(g, e, a), CollectionSlice(g, e, a)])
      == e[..g.ApaBase(a) + g.nbApaChannels]
  {
    var b := g.ApaBase(a);
    var p, q, r := b + g.nbIChannels, b + 2 * g.nbIChannels, b + g.nbApaChannels;
    assert FirstInduction(g, e, a) == Slice(e, b, p);
    assert SecondInduction(g, e, a) == Slice(e, p, q);
    assert CollectionSlice(g, e, a) == Slice(e, q, r);
    ConcatAppendTwo(prev, FirstInduction(g, e, a) + SecondInduction(g, e, a), CollectionSlice(g, e, a));
    ThreeParts(e, b, p, q, r);
  }

  /** The merge of the first n APAs' planes gives back the first n·A event rows. */
  lemma {:induction false} MergePrefix(g: Geometry, e: Matrix, n: nat)
    requires g.Valid() && g.ApaBase(n) <= |e|
    ensures Concat(MergeList(g, e, n)) == e[..g.ApaBase(n)]
  {
    if n > 0 {
      var a := n - 1;
      assert g.ApaBase(n) == g.ApaBase(a) + g.nbApaChannels;
      var prev := MergeList(g, e, a);
      var apa := [FirstInduction(g, e, a) + SecondInduction(g, e, a), CollectionSlice(g, e, a)];
      assert Concat(prev) == e[..g.ApaBase(a)] by { MergePrefix(g, e, a); }
      assert MergeList(g, e, n) == prev + apa;
      MergeAppend(g, e, prev, a);
    }
  }

  /** Stripping the channel axis undoes `[:, None]`. */
  lemma StripSingletons(ps: seq<Matrix>)
    ensures StripChannel(Singletons(ps)) == Ok(ps)
  {
    assert forall k :: 0 <= k < |ps| ==> |Singletons(ps)[k]| > 0;
    assert StripChannel(Singletons(ps)).value == ps;
  }

  /** The split of an event with exactly the nominal number of rows is the
      stack of its per-APA slices. */
  lemma SplitWhole(g: Geometry, e: Matrix)
    requires g.Valid() && |e| == g.NbEventChannels()
    ensures EventToPlanes(g, e) ==
      Ok((Singletons(InductionPieces(g, e, g.nbApas)), Singletons(CollectionPieces(g, e, g.nbApas))))
  {
    ApaInside(g, g.nbApas - 1);
    PiecesRows(g, e, g.nbApas);
  }

  /** Assembling as many blocks as collection planes, all of whose rows have
      T samples, is their concatenation. */
  lemma AssembleWhole(g: Geometry, bs: seq<Matrix>, cs: seq<Matrix>, e: Matrix)
    requires 0 < |bs| == |cs| && Concat(Interleave(bs, cs)) == e && Uniform(e, g.nbTdcTicks)
    ensures Assemble(g, bs, cs) == Ok(e)
  {
    assert bs[..|bs|] == bs && cs[..|cs|] == cs;
  }

  /** Merging whole planes: pairs of induction planes of I rows of T samples
      become blocks, and each block is assembled with its collection plane. */
  lemma MergeBlocks(g: Geometry, ps: seq<Matrix>, m: nat, cs: seq<Matrix>)
    requires g.Valid() && |ps| == 2 * m
    requires Uniform(ps, g.nbIChannels)
    requires forall k :: 0 <= k < |ps| ==> Uniform(ps[k], g.nbTdcTicks)
    ensures PlanesToEvent(g, Singletons(ps), Singletons(cs)) == Assemble(g, Pairs(ps, m), cs)
  {
    ReshapePairs(g, ps, m);
    StripSingletons(cs);
  }

  /** Merging the per-APA slices of an event with exactly the nominal number
      of rows of T samples gives the event back. */
  lemma MergeWhole(g: Geometry, e: Matrix)
    requires g.Valid() && |e| == g.NbEventChannels() && Uniform(e, g.nbTdcTicks)
    ensures PlanesToEvent(g, Singletons(InductionPieces(g, e, g.nbApas)), Singletons(CollectionPieces(g, e, g.nbApas))) == Ok(e)
  {
    var N := g.nbApas;
    var ip, cp := InductionPieces(g, e, N), CollectionPieces(g, e, N);
    NominalRows(g, e);
    PiecesRows(g, e, N);
    PiecesWidth(g, e, N, g.nbTdcTicks);
    MergeBlocks(g, ip, N, cp);
    MergePrefix(g, e, N);
    MergeListIsInterleave(g, e, N);
    AssembleWhole(g, Pairs(ip, N), cp, e);
  }

  /** An event with the nominal number of rows ends where APA nbApas would start. */
  lemma NominalRows(g: Geometry, e: Matrix)
    requires |e| == g.NbEventChannels()
    ensures g.ApaBase(g.nbApas) == |e| && e[..g.ApaBase(g.nbApas)] == e
  {
    OffsetIsProduct(g.nbApas, g.nbApaChannels);
  }

  /** Round trip: splitting an event of nbApas·A rows of T samples and merging
      the planes gives the event back, every sample in its place. */
  lemma RoundTrip(g: Geometry, e: Matrix)
    requires g.Valid() && |e| == g.NbEventChannels() && Uniform(e, g.nbTdcTicks)
    ensures EventToPlanes(g, e).Ok?
    ensures PlanesToEvent(g, EventToPlanes(g, e).value.0, EventToPlanes(g, e).value.1) == Ok(e)
  {
    SplitWhole(g, e);
    MergeWhole(g, e);
  }

  /** `zip` truncation on the collection side: collection planes beyond the
      number of induction blocks are dropped silently. */
  lemma SurplusCollectionsDropped(g: Geometry, blocks: seq<Matrix>, cs: seq<Matrix>)
    requires |blocks| <= |cs|
    ensures Assemble(g, blocks, cs) == Assemble(g, blocks, cs[..|blocks|])
  {
    var p := |blocks|;
    assert cs[..p][..p] == cs[..p];
  }

  /** `zip` truncation on the induction side: induction blocks beyond the
      number of collection planes are dropped silently. */
  lemma SurplusInductionsDropped(g: Geometry, blocks: seq<Matrix>, cs: seq<Matrix>)
    requires |cs| <= |blocks|
    ensures Assemble(g, blocks, cs) == Assemble(g, blocks[..|cs|], cs)
  {
    var p := |cs|;
    assert blocks[..p][..p] == blocks[..p];
  }

  /** The first c pairs are the pairs of the first 2c planes. */
  lemma PairsPrefix(ps: seq<Matrix>, m: nat, c: nat)
    requires |ps| == 2 * m && c <= m
    ensures Pairs(ps, m)[..c] == Pairs(ps[..2 * c], c)
  {
    var x, y := Pairs(ps, m)[..c], Pairs(ps[..2 * c], c);
    forall a | 0 <= a < c ensures x[a] == y[a] {
      assert ps[..2 * c][2 * a] == ps[2 * a] && ps[..2 * c][2 * a + 1] == ps[2 * a + 1];
    }
  }

  /** Once the reshape is known, the merge is the strip followed by the assembly. */
  lemma MergeOfBlocks(g: Geometry, ind: Batch, col: Batch, blocks: seq<Matrix>)
    requires Reshaped(g, ind) == Ok(blocks)
    ensures PlanesToEvent(g, ind, col) ==
      if StripChannel(col).Err? then Err(StripChannel(col).error) else Assemble(g, blocks, StripChannel(col).value)
  {
  }

  /** On whole planes: induction pairs without a collection plane leave the
      merged event unchanged. */
  lemma SurplusPlanesDropped(g: Geometry, ps: seq<Matrix>, m: nat, col: Batch)
    requires g.Valid() && |ps| == 2 * m && |col| <= m
    requires Uniform(ps, g.nbIChannels)
    requires forall k :: 0 <= k < |ps| ==> Uniform(ps[k], g.nbTdcTicks)
    ensures PlanesToEvent(g, Singletons(ps), col) == PlanesToEvent(g, Singletons(ps[..2 * |col|]), col)
  {
    var c := |col|;
    var whole, part := Pairs(ps, m), Pairs(ps[..2 * c], c);
    var stripped := StripChannel(col);
    assert PlanesToEvent(g, Singletons(ps), col) ==
      if stripped.Err? then Err(stripped.error) else Assemble(g, whole, stripped.value) by {
      ReshapePairs(g, ps, m);
      MergeOfBlocks(g, Singletons(ps), col, whole);
    }
    assert PlanesToEvent(g, Singletons(ps[..2 * c]), col) ==
      if stripped.Err? then Err(stripped.error) else Assemble(g, part, stripped.value) by {
      ReshapePairs(g, ps[..2 * c], c);
      MergeOfBlocks(g, Singletons(ps[..2 * c]), col, part);
    }
    if stripped.Ok? {
      PairsPrefix(ps, m, c);
      SurplusInductionsDropped(g, whole, stripped.value);
    }
  }
}
