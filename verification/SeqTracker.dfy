/** The parser-position tracker (src/grid/midseq.rs). */
module SeqTracker {
  import opened Basics
  import opened Utf8

  const ESC: u8 := 0x1b

  datatype SeqState = Ground | Escape | EscapeIntermediate | Csi | Osc | Dcs | SosPmApc

  predicate Executes(b: u8) {
    b <= 0x17 || b == 0x19 || 0x1c <= b <= 0x1f
  }

  /** CAN and SUB abort, ESC restarts, anything else is absorbed. */
  function Anywhere(s: SeqState, b: u8): SeqState {
    if b == 0x18 || b == 0x1a then Ground else if b == ESC then Escape else s
  }

  function AfterEscape(b: u8): SeqState {
    if Executes(b) then Escape
    else if 0x20 <= b <= 0x2f then EscapeIntermediate
    else if b == 0x50 then Dcs
    else if b == 0x58 || b == 0x5e || b == 0x5f then SosPmApc
    else if b == 0x5b then Csi
    else if b == 0x5d then Osc
    else if 0x30 <= b <= 0x7e then Ground
    else Anywhere(Escape, b)
  }

  /** One byte. */
  function Advance(s: SeqState, b: u8): SeqState {
    match s
    case Ground => if b == ESC then Escape else Ground
    case Escape => AfterEscape(b)
    case EscapeIntermediate =>
      if Executes(b) || 0x20 <= b <= 0x2f then s else if 0x30 <= b <= 0x7e then Ground else Anywhere(s, b)
    case Csi =>
      if Executes(b) || 0x20 <= b <= 0x3f then s else if 0x40 <= b <= 0x7e then Ground else Anywhere(s, b)
    case Osc => if b == 0x07 then Ground else Anywhere(s, b)
    case Dcs => if b == 0x9c then Ground else Anywhere(s, b)
    case SosPmApc => Anywhere(s, b)
  }

  /** The byte-by-byte meaning of a whole chunk. */
  function AdvanceAll(s: SeqState, bytes: Bytes): SeqState
    decreases |bytes|
  {
    if bytes == [] then s else AdvanceAll(Advance(s, bytes[0]), bytes[1..])
  }

  lemma {:induction false} AdvanceSplit(s: SeqState, a: Bytes, b: Bytes)
    ensures AdvanceAll(s, a + b) == AdvanceAll(AdvanceAll(s, a), b)
    decreases |a|
  {
    hide Advance;
    if a == [] {
      assert a + b == b;
    } else {
      assert (a + b)[0] == a[0] && (a + b)[1..] == a[1..] + b;
      AdvanceSplit(Advance(s, a[0]), a[1..], b);
    }
  }

  /** Only ESC leaves the ground state. */
  lemma {:induction false} GroundHolds(bytes: Bytes)
    requires ESC !in bytes
    ensures AdvanceAll(Ground, bytes) == Ground
    decreases |bytes|
  {
    if bytes != [] { GroundHolds(bytes[1..]); }
  }

  lemma {:induction false} SkipToEscape(rest: Bytes, i: nat)
    requires i < |rest| && rest[i] == ESC && ESC !in rest[..i]
    ensures AdvanceAll(Ground, rest) == AdvanceAll(Escape, rest[i + 1..])
  {
    hide Advance;
    GroundHolds(rest[..i]);
    AdvanceSplit(Ground, rest[..i], rest[i..]);
    assert rest[..i] + rest[i..] == rest && rest[i..][1..] == rest[i + 1..];
    assert Advance(Ground, ESC) == Escape by { AdvanceFromGround(); }
  }

  lemma {:induction false} AdvanceFromGround()
    ensures Advance(Ground, ESC) == Escape
  {
  }

  /** `advance_bytes`: the ESC search at ground state computes the byte-by-byte result. */
  method AdvanceBytes(start: SeqState, bytes: Bytes) returns (s: SeqState)
    ensures s == AdvanceAll(start, bytes)
  {
    hide Advance;
    s := start;
    var rest := bytes;
    while rest != []
      invariant AdvanceAll(s, rest) == AdvanceAll(start, bytes)
      decreases |rest|
    {
      if s == Ground {
        var i := 0;
        while i < |rest| && rest[i] != ESC
          invariant 0 <= i <= |rest| && ESC !in rest[..i]
        {
          i := i + 1;
        }
        if i == |rest| {
          assert rest[..i] == rest;
          GroundHolds(rest);
          return;
        }
        SkipToEscape(rest, i);
        AdvanceFromGround();
        s := Advance(s, ESC);
        rest := rest[i + 1..];
      } else {
        s := Advance(s, rest[0]);
        rest := rest[1..];
      }
    }
  }
}

/** `process` as it runs: a pending buffer in front of the parser and the tracker (src/grid.rs). */
module ByteInput {
  import opened Utf8
  import opened Chunking
  import opened SeqTracker

  class InputStage {
    var pending: Bytes
    var tracker: SeqState
    /** Everything handed to the parser so far. */
    ghost var handed: Bytes

    ghost predicate Valid()
      reads this
    {
      tracker == AdvanceAll(Ground, handed)
    }

    constructor ()
      ensures Valid() && handed == [] && pending == []
    {
      pending, handed, tracker := [], [], Ground;
    }

    method ProcessBytes(bytes: Bytes)
      requires Valid()
      modifies this
      ensures Valid()
      ensures Feed(handed, pending) == Process(old(Feed(handed, pending)), bytes)
    {
      hide IncompleteSuffixLen;
      if bytes == [] {
        return;
      }
      var combined := pending + bytes;
      pending := [];
      var pendingLen := IncompleteSuffixLen(combined);
      var feedLen := |combined| - pendingLen;
      if feedLen > 0 {
        AdvanceParser(combined[..feedLen]);
      }
      if pendingLen > 0 {
        pending := pending + combined[feedLen..];
      }
      assert combined[|combined|..] == [];
    }

    method AdvanceParser(bytes: Bytes)
      requires Valid()
      modifies this`tracker, this`handed
      ensures Valid() && handed == old(handed) + bytes
    {
      AdvanceSplit(Ground, handed, bytes);
      tracker := AdvanceBytes(tracker, bytes);
      handed := handed + bytes;
    }

    /** However the stream is cut, the parser's input, the pending tail and the tracker come out the same. */
    method ProcessChunks(chunks: seq<Bytes>)
      requires Valid() && handed == [] && pending == []
      modifies this
      ensures Valid() && handed == Released(Concat(chunks)) && pending == Held(Concat(chunks))
      ensures tracker == AdvanceAll(Ground, Released(Concat(chunks)))
    {
      hide Process, Held, Released;
      var i := 0;
      while i < |chunks|
        invariant 0 <= i <= |chunks| && Valid()
        invariant Feed(handed, pending) == ProcessAll(Feed([], []), chunks[..i])
      {
        ProcessBytes(chunks[i]);
        assert chunks[..i + 1][..i] == chunks[..i];
        i := i + 1;
      }
      assert chunks[..i] == chunks;
      ChunkIndependence(chunks);
    }
  }
}

/** Counting completed synchronized updates (src/session_worker.rs, `feed` and `note_sync_sample`). */
module SyncFrames {
  import opened Basics
  import opened Utf8
  import opened Chunking
  import opened SeqTracker

  /**
    * The parser and the grid behind it, left uninterpreted: a byte step, its position in a sequence, and the
    * synchronized-update bit.
    */
  datatype Parser<!S> = Parser(step: (S, u8) -> S, position: S -> SeqState, inSync: S -> bool)

  /** The tracker mirrors the parser, and the bit moves only when a sequence is dispatched on the way back to ground. */
  ghost predicate Lawful<S(!new)>(p: Parser<S>) {
    && (forall s: S, b: u8 :: p.position(p.step(s, b)) == Advance(p.position(s), b))
    && (forall s: S, b: u8 :: p.inSync(p.step(s, b)) != p.inSync(s) ==>
          p.position(s) != Ground && p.position(p.step(s, b)) == Ground)
  }

  function Parse<S>(p: Parser<S>, s: S, bytes: Bytes): S {
    if bytes == [] then s else Parse(p, p.step(s, bytes[0]), bytes[1..])
  }

  predicate Edge(was: bool, now: bool) {
    was && !now
  }

  function One(edge: bool): nat {
    if edge then 1 else 0
  }

  /** On-to-off edges seen when the bit is sampled after every byte the parser receives. */
  function Edges<S>(p: Parser<S>, s: S, bytes: Bytes): nat {
    if bytes == [] then 0
    else
      var t := p.step(s, bytes[0]);
      One(Edge(p.inSync(s), p.inSync(t))) + Edges(p, t, bytes[1..])
  }

  lemma {:induction false} ParseSplit<S>(p: Parser<S>, s: S, a: Bytes, b: Bytes)
    ensures Parse(p, s, a + b) == Parse(p, Parse(p, s, a), b)
    ensures Edges(p, s, a + b) == Edges(p, s, a) + Edges(p, Parse(p, s, a), b)
    decreases |a|
  {
    if a == [] {
      assert a + b == b;
    } else {
      assert (a + b)[0] == a[0] && (a + b)[1..] == a[1..] + b;
      ParseSplit(p, p.step(s, a[0]), a[1..], b);
    }
  }

  /** No ESC, except possibly as the last byte. */
  predicate Quiet(bytes: Bytes) {
    forall i | 0 <= i < |bytes| - 1 :: bytes[i] != ESC
  }

  lemma {:induction false} GroundIsQuiet<S(!new)>(p: Parser<S>, s: S, bytes: Bytes)
    requires Lawful(p) && Quiet(bytes) && p.position(s) == Ground
    ensures Edges(p, s, bytes) == 0 && p.inSync(Parse(p, s, bytes)) == p.inSync(s)
    decreases |bytes|
  {
    if bytes != [] {
      var t := p.step(s, bytes[0]);
      assert p.position(t) == Advance(Ground, bytes[0]);
      if |bytes| > 1 {
        GroundIsQuiet(p, t, bytes[1..]);
      } else {
        assert bytes[1..] == [];
      }
    }
  }

  /** Such bytes return to ground at most once, so one sample at their end sees every edge. */
  lemma {:induction false} QuietHasOneEdge<S(!new)>(p: Parser<S>, s: S, bytes: Bytes)
    requires Lawful(p) && Quiet(bytes)
    ensures Edges(p, s, bytes) == One(Edge(p.inSync(s), p.inSync(Parse(p, s, bytes))))
    decreases |bytes|
  {
    hide Advance;
    if bytes != [] {
      var t := p.step(s, bytes[0]);
      if p.position(t) == Ground {
        GroundIsQuiet(p, t, bytes[1..]);
      } else {
        QuietHasOneEdge(p, t, bytes[1..]);
      }
    }
  }

  // ---- the worker's counter ----

  datatype Counter<S> = Counter(state: S, feed: Feed, wasInSync: bool, frames: nat)

  /** Hand bytes to the grid and sample once. */
  function ProcessAndSample<S>(p: Parser<S>, w: Counter<S>, bytes: Bytes): Counter<S> {
    var feed := Process(w.feed, bytes);
    var state := Parse(p, w.state, feed.handed[Min(|w.feed.handed|, |feed.handed|)..]);
    Counter(state, feed, p.inSync(state), w.frames + One(Edge(w.wasInSync, p.inSync(state))))
  }

  function Bytewise<S>(p: Parser<S>, w: Counter<S>, bytes: Bytes): Counter<S> {
    if bytes == [] then w
    else ProcessAndSample(p, Bytewise(p, w, bytes[..|bytes| - 1]), [bytes[|bytes| - 1]])
  }

  /** `feed`: byte by byte when the batch holds an ESC, whole otherwise. */
  function FeedBatch<S>(p: Parser<S>, w: Counter<S>, bytes: Bytes): Counter<S> {
    if ESC in bytes then Bytewise(p, w, bytes) else ProcessAndSample(p, w, bytes)
  }

  function FeedBatches<S>(p: Parser<S>, w: Counter<S>, batches: seq<Bytes>): Counter<S> {
    if batches == [] then w else FeedBatch(p, FeedBatches(p, w, batches[..|batches| - 1]), batches[|batches| - 1])
  }

  function Start<S>(p: Parser<S>, s: S): Counter<S> {
    Counter(s, Feed([], []), p.inSync(s), 0)
  }

  /** The counter of a stream: everything is a function of the bytes, not of how they arrived. */
  function Counted<S>(p: Parser<S>, s: S, total: Bytes): Counter<S> {
    var state := Parse(p, s, Released(total));
    Counter(state, Settled(total), p.inSync(state), Edges(p, s, Released(total)))
  }

  lemma {:induction false} HeldHasNoEscape(total: Bytes)
    ensures ESC !in Held(total)
  {
    HeldIs(total);
  }

  lemma {:induction false} SampleCounts<S(!new)>(p: Parser<S>, s: S, total: Bytes, bytes: Bytes)
    requires Lawful(p) && Quiet(bytes)
    ensures ProcessAndSample(p, Counted(p, s, total), bytes) == Counted(p, s, total + bytes)
  {
    hide Held, Released, Process, Lawful;
    ProcessSettles(total, bytes);
    ReleasedGrows(total, bytes);
    var more := Released(total + bytes)[|Released(total)|..];
    assert Released(total + bytes) == Released(total) + more;
    ParseSplit(p, s, Released(total), more);
    QuietHasOneEdge(p, Parse(p, s, Released(total)), more);
  }

  /** The newly released bytes come from the held tail, which has no ESC, and the new bytes. */
  lemma {:induction false} ReleasedGrows(total: Bytes, bytes: Bytes)
    requires Quiet(bytes)
    ensures |Released(total)| <= |Released(total + bytes)|
    ensures Released(total + bytes)[..|Released(total)|] == Released(total)
    ensures Quiet(Released(total + bytes)[|Released(total)|..])
  {
    hide Held;
    ReleasedCarries(total, bytes);
    HeldHasNoEscape(total);
    var combined := Held(total) + bytes;
    var more := Released(combined);
    assert Released(total + bytes) == Released(total) + more;
    assert Released(total + bytes)[|Released(total)|..] == more;
    assert more == combined[..|more|];
    forall i | 0 <= i < |more| - 1 ensures more[i] != ESC {
      assert more[i] == combined[i];
      if i < |Held(total)| { assert Held(total)[i] in Held(total); }
    }
  }

  lemma {:induction false} BytewiseCounts<S(!new)>(p: Parser<S>, s: S, total: Bytes, bytes: Bytes)
    requires Lawful(p)
    ensures Bytewise(p, Counted(p, s, total), bytes) == Counted(p, s, total + bytes)
    decreases |bytes|
  {
    hide Counted, ProcessAndSample, Lawful;
    if bytes == [] {
      assert total + bytes == total;
    } else {
      var n := |bytes| - 1;
      BytewiseCounts(p, s, total, bytes[..n]);
      SampleCounts(p, s, total + bytes[..n], [bytes[n]]);
      assert total + bytes[..n] + [bytes[n]] == total + bytes;
    }
  }

  lemma {:induction false} BatchesCount<S(!new)>(p: Parser<S>, s: S, batches: seq<Bytes>)
    requires Lawful(p)
    ensures FeedBatches(p, Start(p, s), batches) == Counted(p, s, Concat(batches))
    decreases |batches|
  {
    hide Counted, ProcessAndSample, Bytewise, Lawful;
    if batches == [] {
      StartCounted(p, s);
    } else {
      var n := |batches| - 1;
      BatchesCount(p, s, batches[..n]);
      if ESC in batches[n] {
        BytewiseCounts(p, s, Concat(batches[..n]), batches[n]);
      } else {
        SampleCounts(p, s, Concat(batches[..n]), batches[n]);
      }
    }
  }

  lemma {:induction false} StartCounted<S>(p: Parser<S>, s: S)
    ensures Start(p, s) == Counted(p, s, [])
  {
    NothingSettles();
  }

  /**
    * The frame count does not depend on batching: any two ways to deliver the same bytes count the same frames, namely
    * the on-to-off edges of per-byte sampling over everything the parser received.
    */
  lemma {:induction false} FramesIgnoreBatching<S(!new)>(p: Parser<S>, s: S, a: seq<Bytes>, b: seq<Bytes>)
    requires Lawful(p) && Concat(a) == Concat(b)
    ensures FeedBatches(p, Start(p, s), a) == FeedBatches(p, Start(p, s), b)
    ensures FeedBatches(p, Start(p, s), a).frames == Edges(p, s, Released(Concat(a)))
  {
    hide FeedBatches, Lawful;
    BatchesCount(p, s, a);
    BatchesCount(p, s, b);
  }
}
