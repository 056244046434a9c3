/**
 * The chunk walk of LightWaveObject::Read as a state machine over the
 * stream of chunk events, and a closed-form description of the layers it
 * produces.
 *
 * Each chunk header the walk meets turns into one event: a LAYR header
 * starts a layer, a header with a tag Chunk::create knows yields the parsed
 * chunk, and an UNKNOWN header yields nothing to store.
 */
module Walk {
  import opened Wrappers
  import opened Chunks

  /** A layer as the walk leaves it: the name its parse kept and its chunk list. */
  datatype LayerData = LayerData(name: string, chunks: seq<Entry>)

  /** What one chunk of the file contributes to the walk. */
  datatype Event = LayerEv(name: string) | ChunkEv(chunk: Chunk) | SkipEv

  /**
   * The locals of Read between two chunks: the layers already pushed onto
   * `_layers`, `currentLayer` (None for a null pointer) and `orphanedChunks`.
   */
  datatype WalkState = WalkState(done: seq<LayerData>, current: Option<LayerData>, orphans: seq<Entry>)

  /** The state before the first chunk. */
  const START: WalkState := WalkState([], None, [])

  /** n emptied pointers: what `move` leaves behind in the orphan list. */
  function MovedOuts(n: nat): (r: seq<Entry>)
    ensures |r| == n
    ensures forall i :: 0 <= i < n ==> r[i] == MovedOut
  {
    seq(n, _ => MovedOut)
  }

  /**
   * One step of the walk. A new layer pushes the current one (if any),
   * takes over the orphan list entry by entry and leaves it made of emptied
   * pointers, for the list is never cleared. A chunk goes to the current
   * layer, or to the orphan list while there is none.
   */
  function StepWalk(s: WalkState, e: Event): WalkState
  {
    match e
    case LayerEv(n) =>
      WalkState(s.done + (if s.current.Some? then [s.current.value] else []),
                Some(LayerData(n, s.orphans)), MovedOuts(|s.orphans|))
    case ChunkEv(c) =>
      if s.current.Some? then
        s.(current := Some(s.current.value.(chunks := s.current.value.chunks + [Present(c)])))
      else
        s.(orphans := s.orphans + [Present(c)])
    case SkipEv => s
  }

  /** The state after the events, in order, from the start state. */
  function WalkOf(evs: seq<Event>): WalkState
  {
    if evs == [] then START else StepWalk(WalkOf(evs[..|evs| - 1]), evs[|evs| - 1])
  }

  /** The final push after the loop: the finished layers plus the current one. */
  function Finish(s: WalkState): seq<LayerData>
  {
    s.done + (if s.current.Some? then [s.current.value] else [])
  }

  // ---------------------------------------------------------------------
  // The reference description of the result

  /** The names of the layer events, in order. */
  function LayerNames(evs: seq<Event>): seq<string>
  {
    if evs == [] then []
    else
      var last := evs[|evs| - 1];
      LayerNames(evs[..|evs| - 1]) + (if last.LayerEv? then [last.name] else [])
  }

  /** The chunks that come before the first layer event, in order. */
  function Orphans(evs: seq<Event>): seq<Entry>
  {
    if evs == [] then []
    else
      var init, last := evs[..|evs| - 1], evs[|evs| - 1];
      Orphans(init) + (if last.ChunkEv? && |LayerNames(init)| == 0 then [Present(last.chunk)] else [])
  }

  /** The chunks between layer event i and the next layer event, in order. */
  function LayerChunks(evs: seq<Event>, i: nat): seq<Entry>
  {
    if evs == [] then []
    else
      var init, last := evs[..|evs| - 1], evs[|evs| - 1];
      LayerChunks(init, i) + (if last.ChunkEv? && |LayerNames(init)| == i + 1 then [Present(last.chunk)] else [])
  }

  /**
   * Layer i as the walk should leave it: the i-th name; the first layer
   * begins with the orphans, every later layer with as many emptied
   * pointers; then the layer's own chunks.
   */
  function LayerOf(evs: seq<Event>, i: nat): LayerData
    requires i < |LayerNames(evs)|
  {
    LayerData(LayerNames(evs)[i], (if i == 0 then Orphans(evs) else MovedOuts(|Orphans(evs)|)) + LayerChunks(evs, i))
  }

  /** Every orphan holds a chunk. */
  lemma {:induction false} OrphansPresent(evs: seq<Event>)
    ensures forall j :: 0 <= j < |Orphans(evs)| ==> Orphans(evs)[j].Present?
  {
    if evs != [] {
      OrphansPresent(evs[..|evs| - 1]);
    }
  }

  /** Every chunk of a layer's own holds a chunk. */
  lemma {:induction false} LayerChunksPresent(evs: seq<Event>, i: nat)
    ensures forall j :: 0 <= j < |LayerChunks(evs, i)| ==> LayerChunks(evs, i)[j].Present?
  {
    if evs != [] {
      LayerChunksPresent(evs[..|evs| - 1], i);
    }
  }

  /** The layers the walk should leave, one per layer event. */
  function Expected(evs: seq<Event>): (r: seq<LayerData>)
    ensures |r| == |LayerNames(evs)|
  {
    seq(|LayerNames(evs)|, i requires 0 <= i < |LayerNames(evs)| => LayerOf(evs, i))
  }

  /** Element i of Expected is layer i. */
  lemma ExpectedAt(evs: seq<Event>, i: nat)
    requires i < |LayerNames(evs)|
    ensures Expected(evs)[i] == LayerOf(evs, i)
  {
  }

  /** The state the walk is in after the events, in terms of Expected. */
  function Closed(evs: seq<Event>): WalkState
  {
    var e := Expected(evs);
    if |e| == 0 then WalkState([], None, Orphans(evs))
    else WalkState(e[..|e| - 1], Some(e[|e| - 1]), MovedOuts(|Orphans(evs)|))
  }

  /** A layer that has not started yet has no chunks. */
  lemma {:induction false} LayerChunksBeyond(evs: seq<Event>, i: nat)
    requires i >= |LayerNames(evs)|
    ensures LayerChunks(evs, i) == []
  {
    if evs != [] {
      var init := evs[..|evs| - 1];
      assert |LayerNames(init)| <= |LayerNames(evs)|;
      LayerChunksBeyond(init, i);
    }
  }

  /** One more event: one more name if it is a layer event. */
  lemma Unfold(evs: seq<Event>, e: Event)
    ensures (evs + [e])[..|evs|] == evs
    ensures LayerNames(evs + [e]) == LayerNames(evs) + (if e.LayerEv? then [e.name] else [])
  {
    assert (evs + [e])[..|evs|] == evs;
  }

  /** One more event is one more step of the walk. */
  lemma WalkSnoc(evs: seq<Event>, e: Event)
    ensures WalkOf(evs + [e]) == StepWalk(WalkOf(evs), e)
  {
    assert (evs + [e])[..|evs|] == evs;
  }

  /** One more event adds its chunk to the layer it falls in. */
  lemma LayerChunksSnoc(evs: seq<Event>, e: Event, i: nat)
    ensures LayerChunks(evs + [e], i) ==
            LayerChunks(evs, i) + (if e.ChunkEv? && |LayerNames(evs)| == i + 1 then [Present(e.chunk)] else [])
  {
    Unfold(evs, e);
  }

  /** A layer event leaves the layers before it as they were. */
  lemma LayerOfLayer(evs: seq<Event>, n: string, i: nat)
    requires i <= |LayerNames(evs)|
    ensures |LayerNames(evs + [LayerEv(n)])| == |LayerNames(evs)| + 1
    ensures Orphans(evs + [LayerEv(n)]) == Orphans(evs)
    ensures i < |LayerNames(evs)| ==> LayerOf(evs + [LayerEv(n)], i) == LayerOf(evs, i)
    ensures i == |LayerNames(evs)| ==>
            LayerOf(evs + [LayerEv(n)], i) == LayerData(n, if i == 0 then Orphans(evs) else MovedOuts(|Orphans(evs)|))
  {
    var evs' := evs + [LayerEv(n)];
    Unfold(evs, LayerEv(n));
    LayerChunksSnoc(evs, LayerEv(n), i);
    assert Orphans(evs') == Orphans(evs);
    if i == |LayerNames(evs)| {
      LayerChunksBeyond(evs, i);
      var prefix := if i == 0 then Orphans(evs) else MovedOuts(|Orphans(evs)|);
      assert prefix + [] == prefix;
    }
  }

  /** After a layer event the previous layers are unchanged and a new, empty one is added. */
  lemma ExpectedLayer(evs: seq<Event>, n: string)
    ensures Expected(evs + [LayerEv(n)]) ==
            Expected(evs) + [LayerData(n, if |LayerNames(evs)| == 0 then Orphans(evs) else MovedOuts(|Orphans(evs)|))]
    ensures Orphans(evs + [LayerEv(n)]) == Orphans(evs)
  {
    var evs' := evs + [LayerEv(n)];
    var a := Expected(evs');
    var b := Expected(evs) + [LayerData(n, if |LayerNames(evs)| == 0 then Orphans(evs) else MovedOuts(|Orphans(evs)|))];
    LayerOfLayer(evs, n, 0);
    forall i | 0 <= i < |a|
      ensures a[i] == b[i]
    {
      LayerOfLayer(evs, n, i);
    }
    SameElements(a, b);
  }

  /** Before the first layer event a chunk goes to the orphans. */
  lemma ExpectedOrphan(evs: seq<Event>, c: Chunk)
    requires |LayerNames(evs)| == 0
    ensures Orphans(evs + [ChunkEv(c)]) == Orphans(evs) + [Present(c)]
    ensures Expected(evs + [ChunkEv(c)]) == []
  {
    Unfold(evs, ChunkEv(c));
  }

  /** After the first layer event a chunk goes to the end of the last layer. */
  lemma LayerOfChunk(evs: seq<Event>, c: Chunk, i: nat)
    requires i < |LayerNames(evs)|
    ensures |LayerNames(evs + [ChunkEv(c)])| == |LayerNames(evs)|
    ensures var l := LayerOf(evs, i);
            LayerOf(evs + [ChunkEv(c)], i) ==
            if i == |LayerNames(evs)| - 1 then l.(chunks := l.chunks + [Present(c)]) else l
  {
    var evs' := evs + [ChunkEv(c)];
    Unfold(evs, ChunkEv(c));
    LayerChunksSnoc(evs, ChunkEv(c), i);
    assert Orphans(evs') == Orphans(evs);
    var prefix := if i == 0 then Orphans(evs) else MovedOuts(|Orphans(evs)|);
    assert prefix + (LayerChunks(evs, i) + [Present(c)]) == (prefix + LayerChunks(evs, i)) + [Present(c)];
  }

  /** Sequences with the same elements are equal. */
  lemma SameElements<T>(a: seq<T>, b: seq<T>)
    requires |a| == |b|
    requires forall i :: 0 <= i < |a| ==> a[i] == b[i]
    ensures a == b
  {
  }

  /** After the first layer event a chunk goes to the last layer; the layers before it stay as they were. */
  lemma ExpectedChunk(evs: seq<Event>, c: Chunk)
    requires |LayerNames(evs)| > 0
    ensures Orphans(evs + [ChunkEv(c)]) == Orphans(evs)
    ensures var e, e' := Expected(evs), Expected(evs + [ChunkEv(c)]);
            |e'| == |e| && e'[..|e| - 1] == e[..|e| - 1] &&
            e'[|e| - 1] == e[|e| - 1].(chunks := e[|e| - 1].chunks + [Present(c)])
  {
    var evs' := evs + [ChunkEv(c)];
    Unfold(evs, ChunkEv(c));
    var n := |LayerNames(evs)|;
    var e, e' := Expected(evs), Expected(evs');
    var before, before' := e[..n - 1], e'[..n - 1];
    forall i | 0 <= i < n - 1
      ensures before'[i] == before[i]
    {
      LayerOfChunk(evs, c, i);
      ExpectedAt(evs', i);
      ExpectedAt(evs, i);
    }
    SameElements(before', before);
    LayerOfChunk(evs, c, n - 1);
    ExpectedAt(evs', n - 1);
    ExpectedAt(evs, n - 1);
  }

  /** After an event that stores nothing, nothing changes. */
  lemma ExpectedSkip(evs: seq<Event>)
    ensures Expected(evs + [SkipEv]) == Expected(evs)
    ensures Orphans(evs + [SkipEv]) == Orphans(evs)
  {
    var evs' := evs + [SkipEv];
    Unfold(evs, SkipEv);
    var a, b := Expected(evs'), Expected(evs);
    forall i | 0 <= i < |a|
      ensures a[i] == b[i]
    {
      LayerChunksSnoc(evs, SkipEv, i);
      assert a[i] == LayerOf(evs', i);
      assert b[i] == LayerOf(evs, i);
    }
    SameElements(a, b);
  }

  /** The walk is in the closed-form state after every prefix of the events. */
  lemma {:induction false} WalkIsClosed(evs: seq<Event>)
    ensures WalkOf(evs) == Closed(evs)
  {
    if evs != [] {
      var init, e := evs[..|evs| - 1], evs[|evs| - 1];
      assert evs == init + [e];
      WalkIsClosed(init);
      Unfold(init, e);
      WalkSnoc(init, e);
      match e
      case LayerEv(n) =>
        ExpectedLayer(init, n);
        var ex := Expected(init);
        if |ex| > 0 {
          assert ex[..|ex| - 1] + [ex[|ex| - 1]] == ex;
        }
        assert Expected(evs)[..|Expected(evs)| - 1] == ex;
      case ChunkEv(c) =>
        if |LayerNames(init)| == 0 {
          ExpectedOrphan(init, c);
        } else {
          ExpectedChunk(init, c);
        }
      case SkipEv =>
        ExpectedSkip(init);
    }
  }

  /** The walk leaves, after the final push, exactly the expected layers. */
  lemma WalkFinish(evs: seq<Event>)
    ensures Finish(WalkOf(evs)) == Expected(evs)
  {
    WalkIsClosed(evs);
    var e := Expected(evs);
    if |e| > 0 {
      assert e[..|e| - 1] + [e[|e| - 1]] == e;
    }
  }

  /**
   * What the walk leaves: one layer per layer event, in order, layer i
   * named by the i-th event; the first layer holds the orphans and then its
   * own chunks, every later one as many emptied pointers and then its own.
   */
  lemma WalkResult(evs: seq<Event>)
    ensures |Finish(WalkOf(evs))| == |LayerNames(evs)|
    ensures forall i :: 0 <= i < |LayerNames(evs)| ==> Finish(WalkOf(evs))[i].name == LayerNames(evs)[i]
    ensures |LayerNames(evs)| > 0 ==> Finish(WalkOf(evs))[0].chunks == Orphans(evs) + LayerChunks(evs, 0)
    ensures forall i :: 0 < i < |LayerNames(evs)| ==>
              Finish(WalkOf(evs))[i].chunks == MovedOuts(|Orphans(evs)|) + LayerChunks(evs, i)
  {
    WalkFinish(evs);
    var r := Finish(WalkOf(evs));
    forall i | 0 <= i < |LayerNames(evs)|
      ensures r[i] == LayerOf(evs, i)
    {
    }
  }

  /** An UNKNOWN chunk stores nothing: the walk's result is the same without it. */
  lemma SkipStoresNothing(evs: seq<Event>, rest: seq<Event>)
    ensures WalkOf(evs + [SkipEv] + rest) == WalkOf(evs + rest)
    ensures Finish(WalkOf(evs + [SkipEv] + rest)) == Finish(WalkOf(evs + rest))
    decreases |rest|
  {
    if rest == [] {
      WalkSnoc(evs, SkipEv);
      assert evs + [SkipEv] + rest == evs + [SkipEv];
      assert evs + rest == evs;
    } else {
      var r', e := rest[..|rest| - 1], rest[|rest| - 1];
      SkipStoresNothing(evs, r');
      assert evs + [SkipEv] + rest == (evs + [SkipEv] + r') + [e];
      assert evs + rest == (evs + r') + [e];
      WalkSnoc(evs + [SkipEv] + r', e);
      WalkSnoc(evs + r', e);
    }
  }
}
