/**
  * The chunk store and its streaming rules: which chunks are made around the
  * player, which are evicted when the player has moved away, and the queue of
  * chunks waiting to be meshed again.
  */
module ChunkHandling {
  import opened Dimensions
  import opened Meshing
  import opened Chunks
  import opened Seqs

  /** Chunks kept towards each side of the player's chunk, counting that chunk. */
  const VISIBLE_CHUNKS: nat := 3

  /** Chunks generated towards each side of the player's chunk: 2. */
  const REACH: int := VISIBLE_CHUNKS as int - 1

  /** Side, in chunks, of the square the generation pass covers: 5. */
  const SPAN: nat := 2 * VISIBLE_CHUNKS - 1

  /** Eviction distance, in world units: CHUNK_SIDE_SIZE * VISIBLE_CHUNKS = 48. */
  const EVICTION_DISTANCE: real := (CHUNK_SIDE_SIZE * VISIBLE_CHUNKS) as real

  /** Eviction threshold on the squared distance: (CHUNK_SIDE_SIZE * VISIBLE_CHUNKS)^2 = 48^2. */
  const EVICTION_DISTANCE_SQUARED: real :=
    (CHUNK_SIDE_SIZE * CHUNK_SIDE_SIZE * VISIBLE_CHUNKS * VISIBLE_CHUNKS) as real

  /** A position on the ground plane, in world units (the player's position). */
  datatype Vec2 = Vec2(x: real, y: real)

  /** A position in space, in world units (the translation of the player's transform). */
  datatype Translation = Translation(x: real, y: real, z: real)

  /** The tile type of cell (x, y) of the chunk at a coordinate: the noise fields
      for seed 0 and the biome table are folded into this function. */
  type Terrain = (Coord, nat, nat) -> nat

  predicate Distinct<T(==)>(s: seq<T>)
  {
    forall i, j :: 0 <= i < j < |s| ==> s[i] != s[j]
  }

  // ---------------------------------------------------------------------------
  // World positions and chunks

  /** The chunk index, along one axis, of the chunk holding a world coordinate. */
  function ChunkIndex(w: real): (r: int)
    ensures (r * CHUNK_SIDE_SIZE) as real <= w < ((r + 1) * CHUNK_SIDE_SIZE) as real
  {
    (w / CHUNK_SIDE_SIZE as real).Floor
  }

  /** The chunk holding a ground position. */
  function ChunkOf(position: Vec2): (r: Coord)
    ensures (r.x * CHUNK_SIDE_SIZE) as real <= position.x < ((r.x + 1) * CHUNK_SIDE_SIZE) as real
    ensures (r.y * CHUNK_SIDE_SIZE) as real <= position.y < ((r.y + 1) * CHUNK_SIDE_SIZE) as real
  {
    Coord(ChunkIndex(position.x), ChunkIndex(position.y))
  }

  /** The cell index, along one axis, of a world coordinate inside the chunk with the given index. */
  function LocalIndex(w: real, chunk: int): (r: int)
    ensures r as real <= w - (chunk * CHUNK_SIDE_SIZE) as real < r as real + 1.0
  {
    (w - (chunk * CHUNK_SIDE_SIZE) as real).Floor
  }

  /** The cell index inside the holding chunk is a valid grid index. */
  lemma LocalIndexInChunk(w: real)
    ensures 0 <= LocalIndex(w, ChunkIndex(w)) < CHUNK_SIZE
  {
  }

  /** For a whole world coordinate, chunk and cell split it as floor division and
      remainder, and give it back. */
  lemma WholeCoordinateSplit(w: int)
    ensures ChunkIndex(w as real) == w / CHUNK_SIDE_SIZE
    ensures LocalIndex(w as real, ChunkIndex(w as real)) == w % CHUNK_SIDE_SIZE
    ensures ChunkIndex(w as real) * CHUNK_SIDE_SIZE + LocalIndex(w as real, ChunkIndex(w as real)) == w
  {
  }

  // ---------------------------------------------------------------------------
  // Looking chunks up

  /** A chunk the generation pass made: its cells come from the terrain and its
      builder holds the faces of one meshing of its grid. */
  ghost predicate Made(ch: Chunk, terrain: Terrain)
    reads ch.blocks, ch.builder
  {
    ch.Valid() &&
    (forall x, y :: 0 <= x < CHUNK_SIZE && 0 <= y < CHUNK_SIZE ==> ch.blocks[x, y] == terrain(ch.coordinate, x, y)) &&
    ch.builder.faces == GridFaces(ch.Blocks())
  }

  /** The coordinates of the stored chunks, in store order. */
  function CoordsOf(cs: seq<Chunk>): seq<Coord>
  {
    seq(|cs|, i requires 0 <= i < |cs| => cs[i].coordinate)
  }

  /** The first position holding the coordinate. */
  function IndexOf(coords: seq<Coord>, c: Coord): (i: nat)
    requires c in coords
    ensures i < |coords| && coords[i] == c
    ensures forall j :: 0 <= j < i ==> coords[j] != c
  {
    if coords[0] == c then 0 else 1 + IndexOf(coords[1..], c)
  }

  /** No two stored chunks share a coordinate, a grid or a builder. */
  predicate Separate(cs: seq<Chunk>)
  {
    forall i, j :: 0 <= i < j < |cs| ==>
      cs[i].coordinate != cs[j].coordinate && cs[i].blocks != cs[j].blocks && cs[i].builder != cs[j].builder
  }

  /** Every chunk's grid is CHUNK_SIZE on each side. */
  ghost predicate Shaped(cs: seq<Chunk>)
  {
    forall i :: 0 <= i < |cs| ==> cs[i].blocks.Length0 == CHUNK_SIZE && cs[i].blocks.Length1 == CHUNK_SIZE
  }

  lemma CoordsOfSnoc(cs: seq<Chunk>, ch: Chunk)
    ensures CoordsOf(cs + [ch]) == CoordsOf(cs) + [ch.coordinate]
  {
  }

  /** A chunk with a new coordinate, grid and builder can join a separate store. */
  lemma SeparateSnoc(cs: seq<Chunk>, ch: Chunk)
    requires Separate(cs) && ch.coordinate !in CoordsOf(cs)
    requires forall i :: 0 <= i < |cs| ==> cs[i].blocks != ch.blocks && cs[i].builder != ch.builder
    ensures Separate(cs + [ch])
  {
    forall i | 0 <= i < |cs|
      ensures cs[i].coordinate != ch.coordinate
    {
      assert CoordsOf(cs)[i] == cs[i].coordinate;
    }
  }

  /** In a store whose coordinates are unique, looking a chunk's coordinate up finds that chunk. */
  lemma IndexOfStored(cs: seq<Chunk>, i: nat)
    requires Separate(cs) && i < |cs|
    ensures cs[i].coordinate in CoordsOf(cs)
    ensures IndexOf(CoordsOf(cs), cs[i].coordinate) == i
  {
    assert CoordsOf(cs)[i] == cs[i].coordinate;
  }

  // ---------------------------------------------------------------------------
  // The generation pass

  /** The chunk coordinates the generation pass visits around a centre, dx outer
      and dy inner, each offset running from -VISIBLE_CHUNKS + 1 to VISIBLE_CHUNKS - 1. */
  function GenerationOrder(center: Coord): (r: seq<Coord>)
    ensures |r| == SPAN * SPAN
    ensures forall k :: 0 <= k < |r| ==> InSquare(center, r[k])
  {
    seq(SPAN * SPAN, k requires 0 <= k < SPAN * SPAN =>
      Coord(center.x + k / SPAN - REACH, center.y + k % SPAN - REACH))
  }

  /** The coordinates of column dx of the square, dy ascending. */
  function ColumnOrder(center: Coord, dx: int): seq<Coord>
  {
    seq(SPAN, j requires 0 <= j < SPAN => Coord(center.x + dx, center.y + j - REACH))
  }

  /** Within visible range of the centre along both axes. */
  predicate InSquare(center: Coord, c: Coord)
  {
    -REACH <= c.x - center.x <= REACH && -REACH <= c.y - center.y <= REACH
  }

  /** Visit number SPAN * (dx + 2) + (dy + 2) is the centre moved by (dx, dy). */
  lemma GenerationOrderAt(center: Coord, dx: int, dy: int)
    requires -REACH <= dx <= REACH && -REACH <= dy <= REACH
    ensures 0 <= SPAN * (dx + REACH) + (dy + REACH) < |GenerationOrder(center)|
    ensures GenerationOrder(center)[SPAN * (dx + REACH) + (dy + REACH)] == Coord(center.x + dx, center.y + dy)
  {
    var k := SPAN * (dx + REACH) + (dy + REACH);
    assert k / SPAN == dx + REACH && k % SPAN == dy + REACH;
  }

  /** The visits of the pass come column by column. */
  lemma GenerationOrderColumn(center: Coord, dx: int)
    requires -REACH <= dx <= REACH
    ensures 0 <= SPAN * (dx + REACH) && SPAN * (dx + REACH) + SPAN <= |GenerationOrder(center)|
    ensures GenerationOrder(center)[SPAN * (dx + REACH)..SPAN * (dx + REACH) + SPAN] == ColumnOrder(center, dx)
  {
    var k := SPAN * (dx + REACH);
    forall j | 0 <= j < SPAN
      ensures GenerationOrder(center)[k + j] == ColumnOrder(center, dx)[j]
    {
      GenerationOrderAt(center, dx, j - REACH);
    }
  }

  /** The visits of the pass before column dx. */
  function VisitedBefore(center: Coord, dx: int): seq<Coord>
    requires -REACH <= dx <= REACH + 1
  {
    GenerationOrder(center)[..SPAN * (dx + REACH)]
  }

  lemma VisitedEnds(center: Coord)
    ensures VisitedBefore(center, -REACH) == []
    ensures VisitedBefore(center, REACH + 1) == GenerationOrder(center)
  {
  }

  /** Visiting column dx after the columns before it is a pass over that column
      from the store the earlier columns left. */
  lemma VisitedStep(center: Coord, dx: int, have: seq<Coord>, base: seq<Coord>)
    requires -REACH <= dx <= REACH
    ensures base + Missing(VisitedBefore(center, dx + 1), have)
         == (base + Missing(VisitedBefore(center, dx), have))
          + Missing(ColumnOrder(center, dx), have + Missing(VisitedBefore(center, dx), have))
  {
    GenerationOrderColumn(center, dx);
    assert SPAN * (dx + 1 + REACH) == SPAN * (dx + REACH) + SPAN;
    MissingPrefixStep(GenerationOrder(center), SPAN * (dx + REACH), SPAN, have);
    Reanchor(have, base, Missing(VisitedBefore(center, dx + 1), have), Missing(VisitedBefore(center, dx), have),
      Missing(ColumnOrder(center, dx), have + Missing(VisitedBefore(center, dx), have)));
  }

  /** The pass visits exactly the 25 coordinates of the square, each once. */
  lemma GenerationOrderSquare(center: Coord)
    ensures |GenerationOrder(center)| == 25
    ensures Distinct(GenerationOrder(center))
    ensures forall c :: c in GenerationOrder(center) <==> InSquare(center, c)
  {
    var order := GenerationOrder(center);
    forall i, j | 0 <= i < j < |order|
      ensures order[i] != order[j]
    {
      assert i / SPAN != j / SPAN || i % SPAN != j % SPAN;
    }
    forall c | InSquare(center, c)
      ensures c in order
    {
      GenerationOrderAt(center, c.x - center.x, c.y - center.y);
    }
  }

  /** The coordinates of todo that a pass appends to a store holding have, in
      order: each visited coordinate that the store does not yet hold, counting
      the ones appended before it. */
  function Missing(todo: seq<Coord>, have: seq<Coord>): (r: seq<Coord>)
    ensures |r| <= |todo|
  {
    if todo == [] then []
    else
      var added := Missing(todo[..|todo| - 1], have);
      var c := todo[|todo| - 1];
      if c in have + added then added else added + [c]
  }

  lemma MissingSnoc(todo: seq<Coord>, c: Coord, have: seq<Coord>)
    ensures Missing(todo + [c], have)
         == Missing(todo, have) + (if c in have + Missing(todo, have) then [] else [c])
    ensures have + Missing(todo + [c], have)
         == (have + Missing(todo, have)) + (if c in have + Missing(todo, have) then [] else [c])
  {
    assert (todo + [c])[..|todo|] == todo;
  }

  /** A list that gains the coordinate exactly when the store lacked it (the
      store's coordinates, or the entities spawned beside them) has gone one
      visit further through the pass. */
  lemma MissingStep(base: seq<Coord>, before: seq<Coord>, after: seq<Coord>, have: seq<Coord>, done: seq<Coord>, c: Coord)
    requires before == base + Missing(done, have)
    requires after == before + (if c in have + Missing(done, have) then [] else [c])
    ensures after == base + Missing(done + [c], have)
  {
    MissingSnoc(done, c, have);
    Reanchor(have, base, Missing(done + [c], have), Missing(done, have),
      if c in have + Missing(done, have) then [] else [c]);
  }

  /** A pass over a + b is a pass over a followed by a pass over b from the store the first left. */
  lemma {:induction false} MissingConcat(a: seq<Coord>, b: seq<Coord>, have: seq<Coord>)
    ensures Missing(a + b, have) == Missing(a, have) + Missing(b, have + Missing(a, have))
  {
    if b == [] {
      assert a + b == a;
    } else {
      var front, c := b[..|b| - 1], b[|b| - 1];
      MissingConcat(a, front, have);
      assert b == front + [c];
      assert a + b == (a + front) + [c];
      MissingConcatStep(a, front, c, have);
    }
  }

  lemma MissingConcatStep(a: seq<Coord>, front: seq<Coord>, c: Coord, have: seq<Coord>)
    requires Missing(a + front, have) == Missing(a, have) + Missing(front, have + Missing(a, have))
    ensures Missing((a + front) + [c], have) == Missing(a, have) + Missing(front + [c], have + Missing(a, have))
  {
    var first := Missing(a, have);
    var rest := Missing(front, have + first);
    var held := (have + first) + rest;
    assert have + Missing(a + front, have) == held;
    var tail := if c in held then [] else [c];
    MissingSnoc(front, c, have + first);
    assert Missing(front + [c], have + first) == rest + tail;
    MissingSnoc(a + front, c, have);
    assert Missing((a + front) + [c], have) == (first + rest) + tail;
    AppendAssoc(first, rest, tail);
  }

  /** Extending the visited prefix of todo by n coordinates is a pass over those
      n from the store the shorter prefix left. */
  lemma MissingPrefixStep(todo: seq<Coord>, k: nat, n: nat, have: seq<Coord>)
    requires k + n <= |todo|
    ensures have + Missing(todo[..k + n], have)
         == (have + Missing(todo[..k], have)) + Missing(todo[k..k + n], have + Missing(todo[..k], have))
  {
    assert todo[..k] + todo[k..k + n] == todo[..k + n];
    MissingConcat(todo[..k], todo[k..k + n], have);
  }

  /** Afterwards the store holds every visited coordinate. */
  lemma {:induction false} MissingCovers(todo: seq<Coord>, have: seq<Coord>)
    ensures forall c :: c in todo ==> c in have + Missing(todo, have)
  {
    if todo != [] {
      var prefix := todo[..|todo| - 1];
      MissingCovers(prefix, have);
      assert todo == prefix + [todo[|todo| - 1]];
    }
  }

  /** A pass appends only visited coordinates the store did not hold, each once,
      so a store with unique coordinates keeps them unique. */
  lemma {:induction false} MissingFresh(todo: seq<Coord>, have: seq<Coord>)
    ensures forall c :: c in Missing(todo, have) ==> c in todo && c !in have
    ensures Distinct(have) ==> Distinct(have + Missing(todo, have))
  {
    if todo != [] {
      var prefix := todo[..|todo| - 1];
      MissingFresh(prefix, have);
      var added := Missing(prefix, have);
      var c := todo[|todo| - 1];
      assert forall d :: d in prefix ==> d in todo;
      if c !in have + added {
        assert have + (added + [c]) == (have + added) + [c];
      }
    }
  }

  /** From a store holding none of them, a pass over distinct coordinates appends all of them, in order. */
  lemma {:induction false} MissingAll(todo: seq<Coord>, have: seq<Coord>)
    requires Distinct(todo)
    requires forall c :: c in todo ==> c !in have
    ensures Missing(todo, have) == todo
  {
    if todo != [] {
      var prefix := todo[..|todo| - 1];
      MissingAll(prefix, have);
      var c := todo[|todo| - 1];
      assert c !in prefix;
    }
  }

  /** From an empty store the pass appends exactly the 25 coordinates of the square. */
  lemma GenerationFromEmpty(center: Coord)
    ensures Missing(GenerationOrder(center), []) == GenerationOrder(center)
    ensures |Missing(GenerationOrder(center), [])| == 25
  {
    GenerationOrderSquare(center);
    MissingAll(GenerationOrder(center), []);
  }

  /** What a generation pass around a centre appends to a store holding have:
      at most 25 coordinates, all 25 from an empty store, and afterwards every
      coordinate of the square is held. */
  lemma GenerationPass(center: Coord, have: seq<Coord>)
    ensures |Missing(GenerationOrder(center), have)| <= 25
    ensures have == [] ==> |Missing(GenerationOrder(center), have)| == 25
    ensures forall c :: InSquare(center, c) ==> c in have + Missing(GenerationOrder(center), have)
  {
    GenerationOrderSquare(center);
    MissingCovers(GenerationOrder(center), have);
    if have == [] {
      GenerationFromEmpty(center);
    }
  }

  // ---------------------------------------------------------------------------
  // The remesh queue

  /** How often a coordinate occurs in a list: among the queued requests, or
      among the chunk entities on screen. */
  function Occurrences(queue: seq<Coord>, c: Coord): nat
  {
    if queue == [] then 0
    else Occurrences(queue[..|queue| - 1], c) + (if queue[|queue| - 1] == c then 1 else 0)
  }

  /** The faces list repeated n times. */
  function Repeat(faces: seq<Face>, n: nat): seq<Face>
  {
    if n == 0 then [] else Repeat(faces, n - 1) + faces
  }

  /** The entities the remesh pass spawns for one queued coordinate: one for
      each on-screen entity at that coordinate, in query order. */
  function Matching(entities: seq<Coord>, c: Coord): seq<Coord>
  {
    if entities == [] then []
    else Matching(entities[..|entities| - 1], c) + (if entities[|entities| - 1] == c then [c] else [])
  }

  /** The entities the whole remesh pass spawns, queued coordinate by queued coordinate. */
  function Spawned(entities: seq<Coord>, queue: seq<Coord>): seq<Coord>
  {
    if queue == [] then []
    else Spawned(entities, queue[..|queue| - 1]) + Matching(entities, queue[|queue| - 1])
  }

  /** The on-screen entities the remesh pass does not despawn: those whose
      coordinate is not queued. */
  function Unqueued(entities: seq<Coord>, queue: seq<Coord>): seq<Coord>
  {
    if entities == [] then []
    else
      var last := entities[|entities| - 1];
      Unqueued(entities[..|entities| - 1], queue) + (if last in queue then [] else [last])
  }

  /** The chunk entities on screen once the remesh pass's commands are applied. */
  function Respawned(entities: seq<Coord>, queue: seq<Coord>): seq<Coord>
  {
    Unqueued(entities, queue) + Spawned(entities, queue)
  }

  lemma {:induction false} RepeatLength(faces: seq<Face>, n: nat)
    ensures |Repeat(faces, n)| == |faces| * n
  {
    if n > 0 {
      RepeatLength(faces, n - 1);
    }
  }

  /** a copies followed by b copies are a + b copies. */
  lemma {:induction false} RepeatAdd(faces: seq<Face>, a: nat, b: nat)
    ensures Repeat(faces, a) + Repeat(faces, b) == Repeat(faces, a + b)
  {
    if b > 0 {
      RepeatAdd(faces, a, b - 1);
      AppendAssoc(Repeat(faces, a), Repeat(faces, b - 1), faces);
    }
  }

  /** Counting over a concatenation adds the counts of its parts. */
  lemma {:induction false} OccurrencesAppend(a: seq<Coord>, b: seq<Coord>, c: Coord)
    ensures Occurrences(a + b, c) == Occurrences(a, c) + Occurrences(b, c)
  {
    if b == [] {
      assert a + b == a;
    } else {
      var front := b[..|b| - 1];
      OccurrencesAppend(a, front, c);
      assert (a + b)[..|a + b| - 1] == a + front;
    }
  }

  /** A coordinate occurs in a list exactly when its count there is positive. */
  lemma {:induction false} OccurrencesMember(s: seq<Coord>, c: Coord)
    ensures c in s <==> Occurrences(s, c) > 0
  {
    if s != [] {
      var prefix := s[..|s| - 1];
      OccurrencesMember(prefix, c);
      assert s == prefix + [s[|s| - 1]];
    }
  }

  lemma OccurrencesSingle(c: Coord, d: Coord)
    ensures Occurrences([c], d) == if c == d then 1 else 0
  {
    assert [c][..0] == [];
  }

  /** The scan of entities one further: a match adds one count and one spawned entity. */
  lemma MatchingStep(entities: seq<Coord>, e: nat, c: Coord)
    requires e < |entities|
    ensures Occurrences(entities[..e + 1], c) == Occurrences(entities[..e], c) + (if entities[e] == c then 1 else 0)
    ensures Matching(entities[..e + 1], c) == Matching(entities[..e], c) + (if entities[e] == c then [c] else [])
  {
    SliceOfLonger(entities, e);
  }

  /** One entity is spawned per on-screen entity at the coordinate, all at that coordinate. */
  lemma {:induction false} MatchingCount(entities: seq<Coord>, c: Coord, d: Coord)
    ensures Occurrences(Matching(entities, c), d) == if d == c then Occurrences(entities, c) else 0
  {
    if entities != [] {
      var prefix, last := entities[..|entities| - 1], entities[|entities| - 1];
      MatchingCount(prefix, c, d);
      if last == c {
        OccurrencesAppend(Matching(prefix, c), [c], d);
        OccurrencesSingle(c, d);
      } else {
        assert Matching(entities, c) == Matching(prefix, c);
      }
    }
  }

  /** The pass spawns, for each coordinate, its queued count times its on-screen count. */
  lemma {:induction false} SpawnedCount(entities: seq<Coord>, queue: seq<Coord>, c: Coord)
    ensures Occurrences(Spawned(entities, queue), c) == Occurrences(queue, c) * Occurrences(entities, c)
  {
    if queue != [] {
      var prefix, last := queue[..|queue| - 1], queue[|queue| - 1];
      SpawnedCount(entities, prefix, c);
      OccurrencesAppend(Spawned(entities, prefix), Matching(entities, last), c);
      MatchingCount(entities, last, c);
      StepTimes(Occurrences(prefix, c), Occurrences(entities, c), last == c);
    }
  }

  /** An on-screen entity survives the pass exactly when its coordinate is not queued. */
  lemma {:induction false} UnqueuedCount(entities: seq<Coord>, queue: seq<Coord>, c: Coord)
    ensures Occurrences(Unqueued(entities, queue), c) == if c in queue then 0 else Occurrences(entities, c)
  {
    if entities != [] {
      var prefix, last := entities[..|entities| - 1], entities[|entities| - 1];
      UnqueuedCount(prefix, queue, c);
      if last in queue {
        assert Unqueued(entities, queue) == Unqueued(prefix, queue);
        assert last != c || c in queue;
      } else {
        OccurrencesAppend(Unqueued(prefix, queue), [last], c);
        OccurrencesSingle(last, c);
      }
    }
  }

  /** After the pass a queued coordinate has its queued count times as many
      entities as before; any other coordinate keeps its entities. */
  lemma RespawnedCount(entities: seq<Coord>, queue: seq<Coord>, c: Coord)
    ensures Occurrences(Respawned(entities, queue), c)
         == if c in queue then Occurrences(queue, c) * Occurrences(entities, c) else Occurrences(entities, c)
  {
    OccurrencesAppend(Unqueued(entities, queue), Spawned(entities, queue), c);
    UnqueuedCount(entities, queue, c);
    SpawnedCount(entities, queue, c);
    OccurrencesMember(queue, c);
  }

  /** The pass neither loses nor invents a coordinate on screen. */
  lemma RespawnedMembers(entities: seq<Coord>, queue: seq<Coord>)
    ensures forall c :: c in Respawned(entities, queue) <==> c in entities
  {
    forall c
      ensures c in Respawned(entities, queue) <==> c in entities
    {
      RespawnedCount(entities, queue, c);
      OccurrencesMember(Respawned(entities, queue), c);
      OccurrencesMember(entities, c);
      OccurrencesMember(queue, c);
      PositiveTimes(Occurrences(queue, c), Occurrences(entities, c));
    }
  }

  /** A product of counts is positive exactly when both counts are. */
  lemma PositiveTimes(a: nat, b: nat)
    ensures a * b > 0 <==> a > 0 && b > 0
  {
    if a > 0 && b > 0 {
      assert a * b == (a - 1) * b + b;
    }
  }

  /** One more queued request for a chunk's coordinate adds one more copy of
      what a request adds to it; other requests add none. */
  lemma RemeshStep(before: seq<Face>, mid: seq<Face>, after: seq<Face>, faces: seq<Face>, queue: seq<Coord>, q: nat, c: Coord)
    requires q < |queue|
    requires mid == before + Repeat(faces, Occurrences(queue[..q], c))
    requires after == mid + (if queue[q] == c then faces else [])
    ensures after == before + Repeat(faces, Occurrences(queue[..q + 1], c))
  {
    MatchingStep(queue, q, c);
    if queue[q] == c {
      AppendAssoc(before, Repeat(faces, Occurrences(queue[..q], c)), faces);
    } else {
      assert after == mid;
    }
  }

  /** Meshing once more after n meshings is n + 1 meshings. */
  lemma RemeshOnceMore(before: seq<Face>, mid: seq<Face>, after: seq<Face>, faces: seq<Face>, n: nat)
    requires mid == before + Repeat(faces, n)
    requires after == mid + faces
    ensures after == before + Repeat(faces, n + 1)
  {
    AppendAssoc(before, Repeat(faces, n), faces);
  }

  /** k rounds of n copies are k times n copies. */
  lemma {:induction false} RepeatRepeat(faces: seq<Face>, n: nat, k: nat)
    ensures Repeat(Repeat(faces, n), k) == Repeat(faces, k * n)
  {
    if k > 0 {
      RepeatRepeat(faces, n, k - 1);
      RepeatAdd(faces, (k - 1) * n, n);
      StepTimes(k - 1, n, true);
    }
  }

  /** (a + [b]) * n, written out without a product of unknowns on the right. */
  lemma StepTimes(a: nat, n: nat, b: bool)
    ensures (a + (if b then 1 else 0)) * n == a * n + (if b then n else 0)
  {
  }

  /** The remesh pass one queued coordinate further spawns that coordinate's matches. */
  lemma SpawnedStep(entities: seq<Coord>, queue: seq<Coord>, q: nat)
    requires q < |queue|
    ensures Spawned(entities, queue[..q + 1]) == Spawned(entities, queue[..q]) + Matching(entities, queue[q])
  {
    SliceOfLonger(queue, q);
  }

  /** A chunk meshed again n times without clearing gains n times 1024 vertices
      and 1536 indices. */
  lemma RemeshedSizes(prior: seq<Face>, g: Grid, n: nat)
    requires IsGrid(g)
    ensures |MeshOf(prior + Repeat(GridFaces(g), n)).positions| == 4 * |prior| + 1024 * n
    ensures |MeshOf(prior + Repeat(GridFaces(g), n)).indices| == 6 * |prior| + 1536 * n
  {
    RepeatLength(GridFaces(g), n);
    MeshSizes(prior + Repeat(GridFaces(g), n));
  }

  /** A coordinate queued twice, with one chunk entity on screen, is meshed
      twice: the requests do not collapse. */
  lemma QueuedTwiceMeshedTwice(prior: seq<Face>, g: Grid, c: Coord)
    requires IsGrid(g)
    ensures Occurrences([c, c], c) * Occurrences([c], c) == 2
    ensures |MeshOf(prior + Repeat(GridFaces(g), Occurrences([c, c], c) * Occurrences([c], c))).positions|
         == 4 * |prior| + 2048
  {
    OccurrencesSingle(c, c);
    assert [c, c][..1] == [c];
    RemeshedSizes(prior, g, 2);
  }

  /** The same double request leaves two entities on screen for the chunk, so
      a single later request meshes it twice. */
  lemma DuplicateRequestDoublesEntities(c: Coord)
    ensures Respawned([c], [c, c]) == [c, c]
    ensures Occurrences([c], c) * Occurrences(Respawned([c], [c, c]), c) == 2
  {
    assert [c][..0] == [] && [c, c][..1] == [c];
    assert Matching([c], c) == [c];
    assert Unqueued([c], [c, c]) == [];
    assert Spawned([c], [c]) == [c];
    assert Spawned([c], [c, c]) == [c, c];
    OccurrencesSingle(c, c);
    assert [c, c][..1] == [c];
  }

  // ---------------------------------------------------------------------------
  // Eviction

  /** Squared distance from a translation to a chunk's anchor, its coordinate
      scaled to world units at height 0. */
  function DistanceSquared(t: Translation, c: Coord): (r: real)
    ensures r >= 0.0
  {
    var dx := t.x - (c.x * CHUNK_SIDE_SIZE) as real;
    var dy := t.y - (c.y * CHUNK_SIDE_SIZE) as real;
    var dz := t.z - 0.0;
    dx * dx + dy * dy + dz * dz
  }

  /** A real whose square is at most b * b, for a non-negative b, lies within b of zero. */
  lemma SquareWithin(a: real, b: real)
    requires 0.0 <= b
    ensures a * a <= b * b ==> -b <= a <= b
  {
    assert a * a - b * b == (a - b) * (a + b);
    if a > b {
      assert a - b > 0.0 && a + b > 0.0;
      assert (a - b) * (a + b) > 0.0 * (a + b);
    } else if a < -b {
      assert b - a > 0.0 && -b - a > 0.0;
      assert (a - b) * (a + b) == (b - a) * (-b - a);
      assert (b - a) * (-b - a) > 0.0 * (-b - a);
    }
  }

  /** A chunk in range has its anchor within the eviction distance along each ground axis. */
  lemma AxisWithin(t: Translation, c: Coord)
    ensures DistanceSquared(t, c) <= EVICTION_DISTANCE_SQUARED ==>
      -EVICTION_DISTANCE <= t.x - (c.x * CHUNK_SIDE_SIZE) as real <= EVICTION_DISTANCE &&
      -EVICTION_DISTANCE <= t.y - (c.y * CHUNK_SIDE_SIZE) as real <= EVICTION_DISTANCE
  {
    var dx := t.x - (c.x * CHUNK_SIDE_SIZE) as real;
    var dy := t.y - (c.y * CHUNK_SIDE_SIZE) as real;
    var dz := t.z - 0.0;
    assert DistanceSquared(t, c) == dx * dx + dy * dy + dz * dz;
    assert dx * dx >= 0.0 && dy * dy >= 0.0 && dz * dz >= 0.0;
    assert EVICTION_DISTANCE * EVICTION_DISTANCE == EVICTION_DISTANCE_SQUARED;
    SquareWithin(dx, EVICTION_DISTANCE);
    SquareWithin(dy, EVICTION_DISTANCE);
  }

  /** A chunk is out of range when strictly farther than the threshold. One in
      range has its anchor within 48 world units of the player along each ground axis. */
  predicate Far(t: Translation, c: Coord)
    ensures !Far(t, c) ==> -EVICTION_DISTANCE <= t.x - (c.x * CHUNK_SIDE_SIZE) as real <= EVICTION_DISTANCE
    ensures !Far(t, c) ==> -EVICTION_DISTANCE <= t.y - (c.y * CHUNK_SIDE_SIZE) as real <= EVICTION_DISTANCE
  {
    AxisWithin(t, c);
    DistanceSquared(t, c) > EVICTION_DISTANCE_SQUARED
  }

  /** The chunks an eviction pass keeps, in store order. */
  function Retained(cs: seq<Chunk>, t: Translation): (r: seq<Chunk>)
    ensures |r| <= |cs|
  {
    if cs == [] then []
    else
      var kept := Retained(cs[..|cs| - 1], t);
      if Far(t, cs[|cs| - 1].coordinate) then kept else kept + [cs[|cs| - 1]]
  }

  /** The chunks whose coordinate is not among the removed ones, in store order
      (what retain with a coordinate test leaves). */
  function WithoutCoords(cs: seq<Chunk>, removed: set<Coord>): (r: seq<Chunk>)
    ensures |r| <= |cs|
    ensures forall i :: 0 <= i < |r| ==> r[i].coordinate !in removed
  {
    if cs == [] then []
    else
      var kept := WithoutCoords(cs[..|cs| - 1], removed);
      if cs[|cs| - 1].coordinate in removed then kept else kept + [cs[|cs| - 1]]
  }

  /** The coordinates among the first entities that are out of range. */
  function FarCoords(entities: seq<Coord>, t: Translation): set<Coord>
  {
    set i | 0 <= i < |entities| && Far(t, entities[i]) :: entities[i]
  }

  lemma FarCoordsStep(entities: seq<Coord>, e: nat, t: Translation)
    requires e < |entities|
    ensures FarCoords(entities[..e + 1], t)
         == FarCoords(entities[..e], t) + (if Far(t, entities[e]) then {entities[e]} else {})
  {
    var prefix, next := entities[..e], entities[..e + 1];
    assert forall i :: 0 <= i < e ==> next[i] == prefix[i];
  }

  /** A coordinate is among the far ones exactly when it is listed and out of range. */
  lemma FarCoordsMembers(entities: seq<Coord>, t: Translation)
    ensures forall c :: c in FarCoords(entities, t) <==> c in entities && Far(t, c)
  {
    forall c | c in entities && Far(t, c)
      ensures c in FarCoords(entities, t)
    {
      var i :| 0 <= i < |entities| && entities[i] == c;
    }
  }

  /** The chunk entities an eviction pass leaves on screen, in query order. */
  function Near(entities: seq<Coord>, t: Translation): seq<Coord>
  {
    if entities == [] then []
    else
      var last := entities[|entities| - 1];
      Near(entities[..|entities| - 1], t) + (if Far(t, last) then [] else [last])
  }

  lemma NearStep(entities: seq<Coord>, e: nat, t: Translation)
    requires e < |entities|
    ensures Near(entities[..e + 1], t) == Near(entities[..e], t) + (if Far(t, entities[e]) then [] else [entities[e]])
  {
    SliceOfLonger(entities, e);
  }

  /** Eviction leaves exactly the entities within range on screen. */
  lemma {:induction false} NearMembers(entities: seq<Coord>, t: Translation)
    ensures forall c :: c in Near(entities, t) <==> c in entities && !Far(t, c)
  {
    if entities != [] {
      var prefix := entities[..|entities| - 1];
      NearMembers(prefix, t);
      assert entities == prefix + [entities[|entities| - 1]];
    }
  }

  /** The coordinates eviction keeps in the store are exactly the stored ones within range. */
  lemma {:induction false} RetainedCoords(cs: seq<Chunk>, t: Translation)
    ensures forall c :: c in CoordsOf(Retained(cs, t)) <==> c in CoordsOf(cs) && !Far(t, c)
  {
    if cs != [] {
      var prefix, last := cs[..|cs| - 1], cs[|cs| - 1];
      RetainedCoords(prefix, t);
      assert cs == prefix + [last];
      CoordsOfSnoc(prefix, last);
      CoordsOfSnoc(Retained(prefix, t), last);
    }
  }

  /** Eviction keeps exactly the stored chunks within range. */
  lemma {:induction false} RetainedMembers(cs: seq<Chunk>, t: Translation)
    ensures forall ch :: ch in Retained(cs, t) <==> ch in cs && !Far(t, ch.coordinate)
  {
    if cs != [] {
      var prefix := cs[..|cs| - 1];
      RetainedMembers(prefix, t);
      assert cs == prefix + [cs[|cs| - 1]];
    }
  }

  /** A chunk exactly at the threshold distance is kept. */
  lemma BoundaryKept(cs: seq<Chunk>, t: Translation, i: nat)
    requires i < |cs| && DistanceSquared(t, cs[i].coordinate) == EVICTION_DISTANCE_SQUARED
    ensures cs[i] in Retained(cs, t)
  {
    RetainedMembers(cs, t);
  }

  /** The height of the translation counts: a chunk 48 units away on the ground
      plane is kept at height 0 and evicted at height 1. */
  lemma HeightCounts(c: Coord)
    ensures !Far(Translation((c.x * CHUNK_SIDE_SIZE + 48) as real, (c.y * CHUNK_SIDE_SIZE) as real, 0.0), c)
    ensures Far(Translation((c.x * CHUNK_SIDE_SIZE + 48) as real, (c.y * CHUNK_SIDE_SIZE) as real, 1.0), c)
  {
  }

  /** The corners of the generation square can lie beyond the eviction radius:
      from (15.5, 15.5) at height 1, chunk (-2, -2) is generated and then evicted. */
  lemma CornerOutOfRange()
    ensures InSquare(ChunkOf(Vec2(15.5, 15.5)), Coord(-2, -2))
    ensures Far(Translation(15.5, 15.5, 1.0), Coord(-2, -2))
  {
  }

  lemma WithoutCoordsSnoc(cs: seq<Chunk>, ch: Chunk, removed: set<Coord>)
    ensures WithoutCoords(cs + [ch], removed)
         == WithoutCoords(cs, removed) + (if ch.coordinate in removed then [] else [ch])
  {
    assert (cs + [ch])[..|cs|] == cs;
  }

  lemma {:induction false} WithoutNothing(cs: seq<Chunk>)
    ensures WithoutCoords(cs, {}) == cs
  {
    if cs != [] {
      WithoutNothing(cs[..|cs| - 1]);
    }
  }

  /** Removing one set of coordinates and then another removes both. */
  lemma {:induction false} WithoutCoordsTwice(cs: seq<Chunk>, a: set<Coord>, b: set<Coord>)
    ensures WithoutCoords(WithoutCoords(cs, a), b) == WithoutCoords(cs, a + b)
  {
    if cs != [] {
      var prefix, last := cs[..|cs| - 1], cs[|cs| - 1];
      WithoutCoordsTwice(prefix, a, b);
      if last.coordinate !in a {
        WithoutCoordsSnoc(WithoutCoords(prefix, a), last, b);
      }
    }
  }

  /** Removing by coordinate keeps a subset of the chunks and keeps them separate. */
  lemma {:induction false} WithoutCoordsSeparate(cs: seq<Chunk>, removed: set<Coord>)
    requires Separate(cs)
    ensures forall ch :: ch in WithoutCoords(cs, removed) ==> ch in cs
    ensures Separate(WithoutCoords(cs, removed))
  {
    if cs != [] {
      var prefix, last := cs[..|cs| - 1], cs[|cs| - 1];
      WithoutCoordsSeparate(prefix, removed);
      var kept := WithoutCoords(prefix, removed);
      forall ch | ch in kept
        ensures ch.coordinate != last.coordinate && ch.blocks != last.blocks && ch.builder != last.builder
      {
        var i :| 0 <= i < |prefix| && prefix[i] == ch;
        assert cs[i] == ch;
      }
    }
  }

  /** Removing every coordinate that is out of range is eviction. */
  lemma {:induction false} WithoutFarIsRetained(cs: seq<Chunk>, removed: set<Coord>, t: Translation)
    requires forall i :: 0 <= i < |cs| ==> (cs[i].coordinate in removed <==> Far(t, cs[i].coordinate))
    ensures WithoutCoords(cs, removed) == Retained(cs, t)
  {
    if cs != [] {
      WithoutFarIsRetained(cs[..|cs| - 1], removed, t);
    }
  }

  /**
    * The store: the generated chunks, searched linearly, and the coordinates
    * queued for meshing again. Beside them it keeps the part of the world the
    * store's systems read and write: the chunk coordinate of every chunk
    * entity on screen.
    */
  class ChunkHandler {
    var chunks: seq<Chunk>
    var chunksToRemesh: seq<Coord>
    /** The ChunkCoordinate of each chunk entity on screen, in query order. A
        chunk can have several entities. */
    var entities: seq<Coord>

    ghost function Builders(): set<ChunkTileMapBuilder>
      reads this
    {
      set i | 0 <= i < |chunks| :: chunks[i].builder
    }

    ghost function Grids(): set<array2<nat>>
      reads this
    {
      set i | 0 <= i < |chunks| :: chunks[i].blocks
    }

    ghost function Repr(): set<object>
      reads this
    {
      {this} + Builders() + Grids()
    }

    ghost predicate Valid()
      reads this, Repr()
    {
      Separate(chunks) && Shaped(chunks) && forall ch :: ch in chunks ==> ch.Valid()
    }

    /** The coordinates on screen are exactly the stored ones: every stored
        chunk has an entity and every entity has its chunk in the store. */
    ghost predicate Presented()
      reads this
    {
      forall c :: c in entities <==> c in CoordsOf(chunks)
    }

    /** An empty store and queue, and nothing on screen. */
    constructor ()
      ensures Valid() && Presented()
      ensures chunks == [] && chunksToRemesh == [] && entities == []
    {
      chunks := [];
      chunksToRemesh := [];
      entities := [];
    }

    /** Whether some stored chunk has the coordinate. */
    method ContainsChunk(c: Coord) returns (found: bool)
      ensures found <==> c in CoordsOf(chunks)
    {
      for i := 0 to |chunks|
        invariant forall j :: 0 <= j < i ==> chunks[j].coordinate != c
      {
        if chunks[i].coordinate == c {
          assert CoordsOf(chunks)[i] == c;
          return true;
        }
      }
      return false;
    }

    /** The first stored chunk with the coordinate. The source panics when
        there is none; callers must only ask for stored coordinates. */
    method GetChunk(c: Coord) returns (chunk: Chunk)
      requires c in CoordsOf(chunks)
      ensures chunk == chunks[IndexOf(CoordsOf(chunks), c)]
    {
      var i := 0;
      while chunks[i].coordinate != c
        invariant 0 <= i <= IndexOf(CoordsOf(chunks), c)
        decreases |chunks| - i
      {
        i := i + 1;
      }
      assert CoordsOf(chunks)[i] == c;
      chunk := chunks[i];
    }

    /** The chunk holding a ground position and the position's cell in it. */
    method GetChunkXY(position: Vec2) returns (chunk: Chunk, x: nat, y: nat)
      requires ChunkOf(position) in CoordsOf(chunks)
      ensures chunk == chunks[IndexOf(CoordsOf(chunks), ChunkOf(position))]
      ensures chunk.coordinate == ChunkOf(position)
      ensures x == LocalIndex(position.x, ChunkIndex(position.x)) && x < CHUNK_SIZE
      ensures y == LocalIndex(position.y, ChunkIndex(position.y)) && y < CHUNK_SIZE
    {
      var chunkCoord := ChunkOf(position);
      chunk := GetChunk(chunkCoord);
      LocalIndexInChunk(position.x);
      LocalIndexInChunk(position.y);
      x := (position.x - (chunk.coordinate.x * CHUNK_SIDE_SIZE) as real).Floor;
      y := (position.y - (chunk.coordinate.y * CHUNK_SIDE_SIZE) as real).Floor;
    }

    /** Sets one cell of the first chunk with the coordinate; nothing else changes. */
    method UpdateChunk(c: Coord, x: nat, y: nat, newBlock: nat)
      requires Valid()
      requires c in CoordsOf(chunks) && x < CHUNK_SIZE && y < CHUNK_SIZE
      modifies chunks[IndexOf(CoordsOf(chunks), c)].blocks
      ensures Valid()
      ensures var k := IndexOf(CoordsOf(chunks), c);
        chunks[k].Blocks() == WithCell(old(chunks[k].Blocks()), x, y, newBlock)
      ensures forall i :: 0 <= i < |chunks| && i != IndexOf(CoordsOf(chunks), c) ==>
        chunks[i].Blocks() == old(chunks[i].Blocks())
    {
      var chunk := GetChunk(c);
      chunk.SetBlock(x, y, newBlock);
    }

    /** Queues a coordinate for meshing again, at the end; duplicates are kept. */
    method ChunksToRemesh(chunkCoord: Coord)
      requires Valid()
      modifies this
      ensures Valid()
      ensures chunks == old(chunks) && entities == old(entities)
      ensures chunksToRemesh == old(chunksToRemesh) + [chunkCoord]
    {
      chunksToRemesh := chunksToRemesh + [chunkCoord];
    }

    /** The first half of update_chunks. For every queued coordinate, in queue
        order, each entity on screen at that coordinate has its chunk meshed
        again (without clearing its builder), is despawned and is replaced by
        one new entity; then the queue is emptied. The query sees the entities
        as they were when the pass began, since the spawn and despawn commands
        take effect after it. */
    method RemeshQueued()
      requires Valid() && Presented()
      modifies this, Builders()
      ensures Valid() && Presented()
      ensures chunks == old(chunks) && chunksToRemesh == []
      ensures entities == Respawned(old(entities), old(chunksToRemesh))
      ensures forall i :: 0 <= i < |chunks| ==>
        chunks[i].builder.faces == old(chunks[i].builder.faces)
          + Repeat(Repeat(GridFaces(chunks[i].Blocks()), Occurrences(old(entities), chunks[i].coordinate)),
                   Occurrences(old(chunksToRemesh), chunks[i].coordinate))
    {
      var queue := chunksToRemesh;
      var spawned := [];
      for q := 0 to |queue|
        invariant Valid() && chunks == old(chunks) && chunksToRemesh == old(chunksToRemesh)
        invariant entities == old(entities)
        invariant spawned == Spawned(entities, queue[..q])
        invariant forall i :: 0 <= i < |chunks| ==>
          chunks[i].builder.faces == old(chunks[i].builder.faces)
            + Repeat(Repeat(GridFaces(chunks[i].Blocks()), Occurrences(entities, chunks[i].coordinate)),
                     Occurrences(queue[..q], chunks[i].coordinate))
      {
        label Step:
        var more := RemeshEntities(queue[q]);
        forall i | 0 <= i < |chunks|
          ensures chunks[i].builder.faces == old(chunks[i].builder.faces)
            + Repeat(Repeat(GridFaces(chunks[i].Blocks()), Occurrences(entities, chunks[i].coordinate)),
                     Occurrences(queue[..q + 1], chunks[i].coordinate))
        {
          RemeshStep(old(chunks[i].builder.faces), old@Step(chunks[i].builder.faces), chunks[i].builder.faces,
            Repeat(GridFaces(chunks[i].Blocks()), Occurrences(entities, chunks[i].coordinate)), queue, q, chunks[i].coordinate);
        }
        SpawnedStep(entities, queue, q);
        spawned := spawned + more;
      }
      SliceAll(queue);
      RespawnedMembers(entities, queue);
      entities := Unqueued(entities, queue) + spawned;
      chunksToRemesh := [];
    }

    /** The inner loop of the remesh pass for one queued coordinate: each
        entity on screen at the coordinate has the stored chunk with that
        coordinate meshed again. Returns the entities spawned in their place. */
    method RemeshEntities(coord: Coord) returns (spawned: seq<Coord>)
      requires Valid() && Presented()
      modifies Builders()
      ensures Valid()
      ensures spawned == Matching(entities, coord)
      ensures forall i :: 0 <= i < |chunks| ==>
        chunks[i].builder.faces == old(chunks[i].builder.faces)
          + (if chunks[i].coordinate == coord then Repeat(GridFaces(chunks[i].Blocks()), Occurrences(entities, coord)) else [])
    {
      spawned := [];
      ghost var target := if coord in CoordsOf(chunks) then IndexOf(CoordsOf(chunks), coord) else |chunks|;
      for e := 0 to |entities|
        invariant Valid()
        invariant spawned == Matching(entities[..e], coord)
        invariant forall i :: 0 <= i < |chunks| && i != target ==>
          chunks[i].builder.faces == old(chunks[i].builder.faces)
        invariant target < |chunks| ==>
          chunks[target].builder.faces == old(chunks[target].builder.faces)
            + Repeat(GridFaces(chunks[target].Blocks()), Occurrences(entities[..e], coord))
      {
        MatchingStep(entities, e, coord);
        if entities[e] == coord {
          assert entities[e] in entities;
          label Before:
          var k := RemeshOne(coord);
          RemeshOnceMore(old(chunks[k].builder.faces), old@Before(chunks[k].builder.faces), chunks[k].builder.faces,
            GridFaces(chunks[k].Blocks()), Occurrences(entities[..e], coord));
          forall i | 0 <= i < |chunks| && i != k
            ensures chunks[i].builder.faces == old@Before(chunks[i].builder.faces)
          {
            assert chunks[i].builder != chunks[k].builder;
          }
          spawned := spawned + [coord];
        }
      }
      SliceAll(entities);
      forall i | 0 <= i < |chunks| && i != target
        ensures chunks[i].coordinate != coord
      {
        assert CoordsOf(chunks)[i] == chunks[i].coordinate;
      }
    }

    /** The body of the remesh pass for a matching entity: the stored chunk is
        looked up by its coordinate and meshed again. Returns its position. */
    method RemeshOne(coord: Coord) returns (k: nat)
      requires Valid() && coord in CoordsOf(chunks)
      modifies chunks[IndexOf(CoordsOf(chunks), coord)].builder
      ensures Valid()
      ensures k == IndexOf(CoordsOf(chunks), coord) && chunks[k].coordinate == coord
      ensures chunks[k].builder.faces == old(chunks[k].builder.faces) + GridFaces(chunks[k].Blocks())
    {
      k := IndexOf(CoordsOf(chunks), coord);
      var chunk := GetChunk(coord);
      assert chunk in chunks;
      var mesh := chunk.GenerateMesh();
    }

    /** The second half of update_chunks: every coordinate of the square around
        the player's chunk that the store lacks gets a new chunk, meshed once and
        appended. */
    method GenerateAround(position: Vec2, terrain: Terrain)
      requires Valid() && Presented()
      modifies this
      ensures Valid() && Presented()
      ensures chunksToRemesh == old(chunksToRemesh)
      ensures |old(chunks)| <= |chunks| <= |old(chunks)| + 25
      ensures chunks[..|old(chunks)|] == old(chunks)
      ensures CoordsOf(chunks) == CoordsOf(old(chunks)) + Missing(GenerationOrder(ChunkOf(position)), CoordsOf(old(chunks)))
      ensures entities == old(entities) + Missing(GenerationOrder(ChunkOf(position)), CoordsOf(old(chunks)))
      ensures forall c :: InSquare(ChunkOf(position), c) ==> c in CoordsOf(chunks)
      ensures old(chunks) == [] ==> |chunks| == 25
      ensures forall i :: |old(chunks)| <= i < |chunks| ==>
        Made(chunks[i], terrain)
    {
      var center := ChunkOf(position);
      ghost var have := CoordsOf(chunks);
      VisitedEnds(center);
      for dx := -REACH to REACH + 1
        invariant Valid() && chunksToRemesh == old(chunksToRemesh)
        invariant |old(chunks)| <= |chunks| && chunks[..|old(chunks)|] == old(chunks)
        invariant CoordsOf(chunks) == have + Missing(VisitedBefore(center, dx), have)
        invariant entities == old(entities) + Missing(VisitedBefore(center, dx), have)
        invariant forall i :: |old(chunks)| <= i < |chunks| ==> Made(chunks[i], terrain)
      {
        ghost var prev := chunks;
        GenerateColumn(center, dx, terrain, |old(chunks)|);
        VisitedStep(center, dx, have, have);
        VisitedStep(center, dx, have, old(entities));
        PrefixTrans(old(chunks), prev, chunks);
      }
      GenerationPass(center, have);
    }

    /** The inner loop of the generation pass: the coordinates of column dx of
        the square, dy ascending. */
    method GenerateColumn(center: Coord, dx: int, terrain: Terrain, ghost from: nat)
      requires Valid()
      requires from <= |chunks| && forall i :: from <= i < |chunks| ==> Made(chunks[i], terrain)
      modifies this
      ensures Valid()
      ensures chunksToRemesh == old(chunksToRemesh)
      ensures |old(chunks)| <= |chunks| && chunks[..|old(chunks)|] == old(chunks)
      ensures CoordsOf(chunks) == CoordsOf(old(chunks)) + Missing(ColumnOrder(center, dx), CoordsOf(old(chunks)))
      ensures entities == old(entities) + Missing(ColumnOrder(center, dx), CoordsOf(old(chunks)))
      ensures forall i :: from <= i < |chunks| ==> Made(chunks[i], terrain)
    {
      ghost var column := ColumnOrder(center, dx);
      ghost var have := CoordsOf(chunks);
      for dy := -REACH to REACH + 1
        invariant Valid() && chunksToRemesh == old(chunksToRemesh)
        invariant |old(chunks)| <= |chunks| && chunks[..|old(chunks)|] == old(chunks)
        invariant CoordsOf(chunks) == have + Missing(column[..dy + REACH], have)
        invariant entities == old(entities) + Missing(column[..dy + REACH], have)
        invariant forall i :: from <= i < |chunks| ==> Made(chunks[i], terrain)
      {
        var coord := Coord(center.x + dx, center.y + dy);
        ghost var done := column[..dy + REACH];
        SliceSnoc(column, dy + REACH);
        assert column[..dy + REACH + 1] == done + [coord];
        ghost var prev, prevEntities := chunks, entities;
        GenerateAt(coord, terrain, from);
        MissingStep(have, CoordsOf(prev), CoordsOf(chunks), have, done, coord);
        MissingStep(old(entities), prevEntities, entities, have, done, coord);
        PrefixTrans(old(chunks), prev, chunks);
      }
      SliceAll(column);
    }

    /** One step of the generation pass: a coordinate the store lacks gets a new
        chunk from the terrain, meshed once and appended. */
    method GenerateAt(coord: Coord, terrain: Terrain, ghost from: nat)
      requires Valid()
      requires from <= |chunks| && forall i :: from <= i < |chunks| ==> Made(chunks[i], terrain)
      modifies this
      ensures Valid()
      ensures chunksToRemesh == old(chunksToRemesh)
      ensures |old(chunks)| <= |chunks| && chunks[..|old(chunks)|] == old(chunks)
      ensures coord in CoordsOf(old(chunks)) ==> chunks == old(chunks)
      ensures coord !in CoordsOf(old(chunks)) ==>
        |chunks| == |old(chunks)| + 1 && chunks[|old(chunks)|].coordinate == coord &&
        fresh(chunks[|old(chunks)|].blocks) && fresh(chunks[|old(chunks)|].builder)
      ensures CoordsOf(chunks) == CoordsOf(old(chunks)) + (if coord in CoordsOf(old(chunks)) then [] else [coord])
      ensures entities == old(entities) + (if coord in CoordsOf(old(chunks)) then [] else [coord])
      ensures forall i :: from <= i < |chunks| ==> Made(chunks[i], terrain)
    {
      var present := ContainsChunk(coord);
      if !present {
        var chunk := MakeChunk(coord, terrain);
        Append(chunk);
        PrefixOfAppend(old(chunks), [chunk]);
        forall i | from <= i < |old(chunks)|
          ensures Made(chunks[i], terrain)
        {
          assert chunks[i] == old(chunks)[i];
        }
        assert chunks[|old(chunks)|] == chunk;
      }
    }

    /** Chunk::new for the coordinate, then spawn_chunk's meshing of it. */
    static method MakeChunk(coord: Coord, terrain: Terrain) returns (chunk: Chunk)
      ensures fresh(chunk.blocks) && fresh(chunk.builder)
      ensures chunk.coordinate == coord && Made(chunk, terrain)
    {
      chunk := new Chunk(coord, (x: nat, y: nat) => terrain(coord, x, y));
      var mesh := chunk.GenerateMesh();
    }

    /** Pushes a chunk onto the store, beside the entity spawn_chunk spawned for it. */
    method Append(chunk: Chunk)
      requires Valid() && chunk.Valid()
      requires chunk.coordinate !in CoordsOf(chunks)
      requires forall i :: 0 <= i < |chunks| ==> chunks[i].blocks != chunk.blocks && chunks[i].builder != chunk.builder
      modifies this
      ensures Valid()
      ensures chunks == old(chunks) + [chunk] && chunksToRemesh == old(chunksToRemesh)
      ensures CoordsOf(chunks) == CoordsOf(old(chunks)) + [chunk.coordinate]
      ensures entities == old(entities) + [chunk.coordinate]
    {
      SeparateSnoc(chunks, chunk);
      CoordsOfSnoc(chunks, chunk);
      entities := entities + [chunk.coordinate];
      chunks := chunks + [chunk];
    }

    /** remove_chunks for one player: once the player has moved more than half a
        chunk, the counter is reset, and every chunk entity on screen whose
        anchor is out of range of the player's translation has the chunks at
        its coordinate dropped from the store and is itself despawned. Returns
        the new counter. */
    method RemoveChunks(translation: Translation, distanceMoved: real) returns (distanceMovedAfter: real)
      requires Valid() && Presented()
      modifies this
      ensures Valid() && Presented()
      ensures chunksToRemesh == old(chunksToRemesh)
      ensures distanceMoved > CHUNK_SIDE_SIZE as real / 2.0 ==>
        distanceMovedAfter == 0.0 && chunks == Retained(old(chunks), translation) &&
        entities == Near(old(entities), translation)
      ensures distanceMoved <= CHUNK_SIDE_SIZE as real / 2.0 ==>
        distanceMovedAfter == distanceMoved && chunks == old(chunks) && entities == old(entities)
    {
      distanceMovedAfter := distanceMoved;
      if distanceMoved > CHUNK_SIDE_SIZE as real / 2.0 {
        distanceMovedAfter := 0.0;
        var scanned := entities;
        var kept := [];
        WithoutNothing(chunks);
        assert FarCoords(scanned[..0], translation) == {};
        for e := 0 to |scanned|
          invariant Valid() && chunksToRemesh == old(chunksToRemesh) && entities == old(entities)
          invariant chunks == WithoutCoords(old(chunks), FarCoords(scanned[..e], translation))
          invariant kept == Near(scanned[..e], translation)
        {
          var distance := DistanceSquared(translation, scanned[e]);
          NearStep(scanned, e, translation);
          FarCoordsStep(scanned, e, translation);
          if distance > EVICTION_DISTANCE_SQUARED {
            WithoutCoordsTwice(old(chunks), FarCoords(scanned[..e], translation), {scanned[e]});
            Retain({scanned[e]});
            assert FarCoords(scanned[..e + 1], translation) == FarCoords(scanned[..e], translation) + {scanned[e]};
          } else {
            kept := kept + [scanned[e]];
            assert FarCoords(scanned[..e + 1], translation) == FarCoords(scanned[..e], translation);
          }
        }
        SliceAll(scanned);
        FarCoordsMembers(scanned, translation);
        forall i | 0 <= i < |old(chunks)|
          ensures old(chunks)[i].coordinate in scanned
        {
          assert CoordsOf(old(chunks))[i] == old(chunks)[i].coordinate;
        }
        WithoutFarIsRetained(old(chunks), FarCoords(scanned, translation), translation);
        NearMembers(scanned, translation);
        RetainedCoords(old(chunks), translation);
        entities := kept;
      }
    }

    /** Vec::retain with a coordinate test: drops the chunks at the removed coordinates. */
    method Retain(removed: set<Coord>)
      requires Valid()
      modifies this
      ensures Valid()
      ensures chunks == WithoutCoords(old(chunks), removed)
      ensures chunksToRemesh == old(chunksToRemesh) && entities == old(entities)
    {
      ghost var kept := WithoutCoords(chunks, removed);
      WithoutCoordsSeparate(chunks, removed);
      forall i | 0 <= i < |kept|
        ensures kept[i].Valid()
      {
        assert kept[i] in kept;
        var j :| 0 <= j < |chunks| && chunks[j] == kept[i];
      }
      chunks := WithoutCoords(chunks, removed);
    }

    /** update_chunks for one player: the remesh pass, then the generation pass. */
    method UpdateChunks(position: Vec2, terrain: Terrain)
      requires Valid() && Presented()
      modifies this, Builders()
      ensures Valid() && Presented()
      ensures chunksToRemesh == []
      ensures |old(chunks)| <= |chunks| <= |old(chunks)| + 25
      ensures chunks[..|old(chunks)|] == old(chunks)
      ensures forall i :: 0 <= i < |old(chunks)| ==>
        chunks[i].builder.faces == old(chunks[i].builder.faces)
          + Repeat(Repeat(GridFaces(chunks[i].Blocks()), Occurrences(old(entities), chunks[i].coordinate)),
                   Occurrences(old(chunksToRemesh), chunks[i].coordinate))
      ensures CoordsOf(chunks) == CoordsOf(old(chunks)) + Missing(GenerationOrder(ChunkOf(position)), CoordsOf(old(chunks)))
      ensures entities == Respawned(old(entities), old(chunksToRemesh))
                          + Missing(GenerationOrder(ChunkOf(position)), CoordsOf(old(chunks)))
      ensures forall c :: InSquare(ChunkOf(position), c) ==> c in CoordsOf(chunks)
      ensures forall i :: |old(chunks)| <= i < |chunks| ==> Made(chunks[i], terrain)
    {
      RemeshQueued();
      GenerateAround(position, terrain);
    }
  }
}
