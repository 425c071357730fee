/** Streaming an AI action: the chunk producer, the forwarder and the consumer over unbuffered
    channels, with cancellation (internal/ai/provider_anthropic.go and dispatcher.go). */
module Stream {
  import opened Wrappers
  import opened Clock
  import opened Words

  const WORDS_PER_CHUNK := 12

  datatype Chunk = Chunk(content: string, done: bool)

  // ---------- the chunks of a text ----------

  /** The chunks from the i-th word on. */
  function ChunksFrom(words: seq<string>, i: nat): (chunks: seq<Chunk>)
    decreases |words| - i
  {
    if i >= |words| then []
    else
      [Chunk(Join(words[i..Min(i + WORDS_PER_CHUNK, |words|)], ' ') + " ", false)]
      + ChunksFrom(words, i + WORDS_PER_CHUNK)
  }

  /** Everything the producer has to send: the words in groups and the full text in a final chunk. */
  function ChunksOf(text: string, space: char -> bool): (chunks: seq<Chunk>)
    ensures chunks != []
  {
    ChunksFrom(Fields(text, space), 0) + [Chunk(text, true)]
  }

  /** chunkText's goroutine: sends until everything is sent or, after `room` sends, cancellation wins
      the select. */
  method ChunkText(text: string, space: char -> bool, room: nat) returns (sent: seq<Chunk>)
    ensures sent == ChunksOf(text, space)[..Min(room, |ChunksOf(text, space)|)]
  {
    var words := Fields(text, space);
    ghost var all := ChunksOf(text, space);
    sent := [];
    var i := 0;
    while i < |words|
      invariant |sent| <= room
      invariant all == sent + ChunksFrom(words, i) + [Chunk(text, true)]
      decreases |words| - i
    {
      if |sent| == room {
        return;
      }
      var end := i + WORDS_PER_CHUNK;
      if end > |words| {
        end := |words|;
      }
      var c := Chunk(Join(words[i..end], ' ') + " ", false);
      assert ChunksFrom(words, i) == [c] + ChunksFrom(words, i + WORDS_PER_CHUNK);
      sent := sent + [c];
      i := i + WORDS_PER_CHUNK;
    }
    if |sent| == room {
      return;
    }
    sent := sent + [Chunk(text, true)];
  }

  /** A word chunk: a dozen words, or what is left of them, joined with spaces and followed by one. */
  function WordChunk(words: seq<string>, i: nat): Chunk
    requires i <= |words|
  {
    Chunk(Join(words[i..Min(i + 12, |words|)], ' ') + " ", false)
  }

  lemma {:induction false} ChunkCount(words: seq<string>, i: nat)
    ensures |ChunksFrom(words, i)| == if i >= |words| then 0 else (|words| - i + 11) / 12
    decreases |words| - i
  {
    if i < |words| {
      ChunkCount(words, i + WORDS_PER_CHUNK);
    }
  }

  lemma {:induction false} ChunkAt(words: seq<string>, i: nat, k: nat)
    requires k < |ChunksFrom(words, i)|
    ensures i + 12 * k < |words| && ChunksFrom(words, i)[k] == WordChunk(words, i + 12 * k)
    decreases k
  {
    if k > 0 {
      ChunkAt(words, i + WORDS_PER_CHUNK, k - 1);
    }
  }

  /** The i-th chunk holds the i-th dozen of words, and there are as many as it takes. */
  lemma ChunksHoldDozens(words: seq<string>, i: nat)
    ensures var chunks := ChunksFrom(words, i);
      && |chunks| == (if i >= |words| then 0 else (|words| - i + 11) / 12)
      && forall k | 0 <= k < |chunks| :: i + 12 * k < |words| && chunks[k] == WordChunk(words, i + 12 * k)
  {
    ChunkCount(words, i);
    forall k: nat | k < |ChunksFrom(words, i)| {
      ChunkAt(words, i, k);
    }
  }

  function Contents(chunks: seq<Chunk>): string {
    if chunks == [] then "" else chunks[0].content + Contents(chunks[1..])
  }

  lemma ChunkKeepsItsWords(group: seq<string>, rest: string, space: char -> bool)
    requires AreWords(group, space) && space(' ')
    ensures Fields(Join(group, ' ') + " " + rest, space) == group + Fields(rest, space)
  {
    FieldsOfJoin(group, ' ', space);
    FieldsAppendSeparator(Join(group, ' '), ' ', space);
    FieldsOfConcat(Join(group, ' ') + " ", rest, space);
  }

  function WordsFrom(words: seq<string>, i: nat): seq<string> {
    if i >= |words| then [] else words[i..]
  }

  lemma WordsFromStep(words: seq<string>, i: nat)
    requires i < |words|
    ensures WordsFrom(words, i) == words[i..Min(i + WORDS_PER_CHUNK, |words|)] + WordsFrom(words, i + WORDS_PER_CHUNK)
  {
  }

  lemma ContentsStep(words: seq<string>, i: nat)
    requires i < |words|
    ensures Contents(ChunksFrom(words, i))
         == Join(words[i..Min(i + WORDS_PER_CHUNK, |words|)], ' ') + " " + Contents(ChunksFrom(words, i + WORDS_PER_CHUNK))
  {
    assert ChunksFrom(words, i)[1..] == ChunksFrom(words, i + WORDS_PER_CHUNK);
  }

  /** Put together, the word chunks have the words of the text. */
  lemma {:induction false} ChunksKeepTheWords(words: seq<string>, i: nat, space: char -> bool)
    requires AreWords(words, space) && space(' ')
    ensures Fields(Contents(ChunksFrom(words, i)), space) == WordsFrom(words, i)
    decreases |words| - i
  {
    if i < |words| {
      ContentsStep(words, i);
      ChunksKeepTheWords(words, i + WORDS_PER_CHUNK, space);
      ChunkKeepsItsWords(words[i..Min(i + WORDS_PER_CHUNK, |words|)], Contents(ChunksFrom(words, i + WORDS_PER_CHUNK)), space);
      WordsFromStep(words, i);
    }
  }

  /** The chunks before the last: ceil(words / 12) of them, with the same words as the text. */
  lemma ChunksCoverTheText(text: string, space: char -> bool)
    requires space(' ')
    ensures var chunks := ChunksOf(text, space);
      var parts := chunks[..|chunks| - 1];
      && chunks[|chunks| - 1] == Chunk(text, true)
      && (forall k | 0 <= k < |parts| :: !parts[k].done)
      && |parts| == (|Fields(text, space)| + 11) / 12
      && Fields(Contents(parts), space) == Fields(text, space)
  {
    var words := Fields(text, space);
    FieldsAreWords(text, space);
    ChunksHoldDozens(words, 0);
    ChunksKeepTheWords(words, 0, space);
    assert ChunksOf(text, space)[..|ChunksFrom(words, 0)|] == ChunksFrom(words, 0);
    assert words[0..] == words;
  }

  // ---------- the two goroutines ----------

  datatype Forwarder =
    | Receiving
    | Holding(chunk: Chunk)
    | Storing(chunk: Chunk)
    | Gone

  /** `sent` chunks went to the forwarder; the producer is gone once it closed its channel. `attempts`
      counts the store writes and `stored` holds the contents of those that succeeded. */
  datatype State = State(
    cancelled: bool,
    reading: bool,
    sent: nat,
    producerGone: bool,
    forwarder: Forwarder,
    received: seq<Chunk>,
    attempts: nat,
    stored: seq<string>)

  const START := State(false, true, 0, false, Receiving, [], 0, [])

  datatype Action =
    | Cancel           // the caller's context ends
    | StopReading      // the consumer stops taking chunks
    | Deliver          // forwarder and consumer meet
    | Send             // producer and forwarder meet
    | ProducerQuits    // the producer's select takes the cancellation
    | Close            // the producer has sent everything
    | SeeClose         // the forwarder's range ends
    | ForwarderQuits   // the forwarder's select takes the cancellation
    | Store(ok: bool)  // the forwarder writes the output

  /** One step, in a stream over `chunks`; a step that is not enabled changes nothing. A select with
      both cases ready may take either, and the forwarder's receive does not look at cancellation. */
  function Step(chunks: seq<Chunk>, s: State, a: Action): State {
    match a
    case Cancel => s.(cancelled := true)
    case StopReading => s.(reading := false)
    case Deliver =>
      if !s.reading || !s.forwarder.Holding? then s
      else
        var c := s.forwarder.chunk;
        s.(received := s.received + [c], forwarder := if c.done then Storing(c) else Receiving)
    case Send =>
      if s.producerGone || s.sent >= |chunks| || !s.forwarder.Receiving? then s
      else s.(sent := s.sent + 1, forwarder := Holding(chunks[s.sent]))
    case ProducerQuits =>
      if !s.cancelled || s.sent >= |chunks| then s else s.(producerGone := true)
    case Close =>
      if s.sent < |chunks| then s else s.(producerGone := true)
    case SeeClose =>
      if !s.producerGone || !s.forwarder.Receiving? then s else s.(forwarder := Gone)
    case ForwarderQuits =>
      if !s.cancelled || !s.forwarder.Holding? then s else s.(forwarder := Gone)
    case Store(ok) =>
      if !s.forwarder.Storing? then s
      else
        s.(forwarder := Receiving, attempts := s.attempts + 1,
           stored := if ok then s.stored + [s.forwarder.chunk.content] else s.stored)
  }

  function Run(chunks: seq<Chunk>, actions: seq<Action>): State {
    if actions == [] then START
    else Step(chunks, Run(chunks, actions[..|actions| - 1]), actions[|actions| - 1])
  }

  /** Only the last chunk is marked done. */
  predicate OneDone(chunks: seq<Chunk>) {
    chunks != [] && forall k | 0 <= k < |chunks| :: chunks[k].done <==> k == |chunks| - 1
  }

  lemma ChunksOfOneDone(text: string, space: char -> bool)
    ensures OneDone(ChunksOf(text, space))
  {
    ChunksHoldDozens(Fields(text, space), 0);
  }

  predicate InOrder(chunks: seq<Chunk>, s: State) {
    && chunks != []
    && s.sent <= |chunks|
    && s.received <= chunks
    && (s.forwarder.Receiving? ==> |s.received| == s.sent)
    && (s.forwarder.Holding? ==> |s.received| + 1 == s.sent && s.forwarder.chunk == chunks[s.sent - 1])
    && (s.forwarder.Storing? ==> s.received == chunks && s.sent == |chunks| && s.forwarder.chunk == chunks[|chunks| - 1])
    && (s.producerGone ==> s.cancelled || s.sent == |chunks|)
    && (s.forwarder.Gone? && !s.cancelled ==> s.producerGone && s.received == chunks && s.attempts == 1)
  }

  predicate StoreInOrder(chunks: seq<Chunk>, s: State) {
    && chunks != []
    && s.attempts == (if s.received == chunks && !s.forwarder.Storing? then 1 else 0)
    && |s.stored| <= s.attempts
    && forall k | 0 <= k < |s.stored| :: s.stored[k] == chunks[|chunks| - 1].content
  }

  ghost predicate Ok(chunks: seq<Chunk>, s: State) {
    InOrder(chunks, s) && StoreInOrder(chunks, s)
  }

  lemma StepKeepsOk(chunks: seq<Chunk>, s: State, a: Action)
    requires OneDone(chunks) && Ok(chunks, s)
    ensures Ok(chunks, Step(chunks, s, a))
  {
  }

  lemma {:induction false} RunsKeepOk(chunks: seq<Chunk>, actions: seq<Action>)
    requires OneDone(chunks)
    ensures Ok(chunks, Run(chunks, actions))
  {
    if actions != [] {
      RunsKeepOk(chunks, actions[..|actions| - 1]);
      StepKeepsOk(chunks, Run(chunks, actions[..|actions| - 1]), actions[|actions| - 1]);
    }
  }

  // ---------- safety ----------

  /** In every interleaving the consumer has seen a prefix of the chunks; the output is stored at most
      once, not before the consumer has seen the last chunk, and with the full text. */
  lemma StreamIsSafe(text: string, space: char -> bool, actions: seq<Action>)
    ensures var s := Run(ChunksOf(text, space), actions);
      && s.received <= ChunksOf(text, space)
      && s.stored in {[], [text]}
      && s.attempts <= 1
      && (s.attempts > 0 ==> s.received == ChunksOf(text, space))
  {
    ChunksOfOneDone(text, space);
    RunsKeepOk(ChunksOf(text, space), actions);
    var s := Run(ChunksOf(text, space), actions);
    assert |s.stored| == 1 ==> s.stored == [s.stored[0]];
  }

  /** How the first write of the output went that comes after the consumer took the last chunk. */
  function FirstWrite(chunks: seq<Chunk>, actions: seq<Action>): Option<bool> {
    if actions == [] then None
    else
      var init, a := actions[..|actions| - 1], actions[|actions| - 1];
      if FirstWrite(chunks, init).Some? then FirstWrite(chunks, init)
      else if a.Store? && Run(chunks, init).received == chunks then Some(a.ok)
      else None
  }

  lemma {:induction false} FirstWriteIsAnAction(chunks: seq<Chunk>, actions: seq<Action>)
    ensures FirstWrite(chunks, actions).Some? ==> Action.Store(FirstWrite(chunks, actions).value) in actions
  {
    if actions != [] {
      FirstWriteIsAnAction(chunks, actions[..|actions| - 1]);
    }
  }

  predicate Decided(chunks: seq<Chunk>, s: State, write: Option<bool>)
    requires chunks != []
  {
    && s.attempts == (if write.Some? then 1 else 0)
    && s.stored == (if write == Some(true) then [chunks[|chunks| - 1].content] else [])
  }

  lemma StepDecides(chunks: seq<Chunk>, s: State, a: Action, write: Option<bool>)
    requires OneDone(chunks) && Ok(chunks, s) && Decided(chunks, s, write)
    ensures Decided(chunks, Step(chunks, s, a),
                    if write.None? && a.Store? && s.received == chunks then Some(a.ok) else write)
  {
  }

  lemma {:induction false} FirstWriteDecides(chunks: seq<Chunk>, actions: seq<Action>)
    requires OneDone(chunks)
    ensures Decided(chunks, Run(chunks, actions), FirstWrite(chunks, actions))
  {
    if actions != [] {
      var init, a := actions[..|actions| - 1], actions[|actions| - 1];
      FirstWriteDecides(chunks, init);
      RunsKeepOk(chunks, init);
      StepDecides(chunks, Run(chunks, init), a, FirstWrite(chunks, init));
    }
  }

  /** In every interleaving the output is kept if and only if the one attempt to store it went through. */
  lemma StoredExactly(text: string, space: char -> bool, actions: seq<Action>)
    ensures var s, write := Run(ChunksOf(text, space), actions), FirstWrite(ChunksOf(text, space), actions);
      && (s.stored == [text] <==> write == Some(true))
      && (s.stored == [] <==> write != Some(true))
      && (s.attempts == 1 <==> write.Some?)
      && (write.Some? ==> Action.Store(write.value) in actions)
  {
    ChunksOfOneDone(text, space);
    FirstWriteDecides(ChunksOf(text, space), actions);
    FirstWriteIsAnAction(ChunksOf(text, space), actions);
  }

  /** A stream that ends without cancellation delivered every chunk and tried to store the output, and has
      stored it unless that write failed. */
  lemma UncancelledStreamIsComplete(text: string, space: char -> bool, actions: seq<Action>)
    requires var s := Run(ChunksOf(text, space), actions); s.forwarder.Gone? && !s.cancelled
    ensures var s := Run(ChunksOf(text, space), actions);
      && s.received == ChunksOf(text, space) && s.attempts == 1
      && s.stored == (if FirstWrite(ChunksOf(text, space), actions) == Some(true) then [text] else [])
      && (Action.Store(false) !in actions ==> s.stored == [text])
  {
    ChunksOfOneDone(text, space);
    RunsKeepOk(ChunksOf(text, space), actions);
    FirstWriteDecides(ChunksOf(text, space), actions);
    FirstWriteIsAnAction(ChunksOf(text, space), actions);
  }

  /** The caller alone decides on cancelling and on reading, and what it has read after it stopped is what
      it had read before. */
  lemma {:induction false} OnlyTheCallerStops(chunks: seq<Chunk>, actions: seq<Action>, n: nat)
    requires n <= |actions|
    ensures Run(chunks, actions).cancelled <==> Action.Cancel in actions
    ensures Run(chunks, actions).reading <==> Action.StopReading !in actions
    ensures Action.StopReading in actions[..n] ==> Run(chunks, actions).received == Run(chunks, actions[..n]).received
    decreases |actions|
  {
    if actions != [] {
      var init, a := actions[..|actions| - 1], actions[|actions| - 1];
      assert actions == init + [a];
      OnlyTheCallerStops(chunks, init, if n <= |init| then n else 0);
      if n <= |init| {
        assert actions[..n] == init[..n];
        if Action.StopReading in actions[..n] {
          assert Action.StopReading in init;
        }
      } else {
        assert actions[..n] == actions;
      }
    }
  }

  // ---------- termination ----------

  /** The steps the two goroutines take without the consumer. */
  predicate Internal(a: Action) {
    !a.Cancel? && !a.StopReading? && !a.Deliver?
  }

  predicate BothGone(s: State) {
    s.producerGone && s.forwarder.Gone?
  }

  /** What is left to do; every effective step other than the caller's brings it down. */
  function Work(chunks: seq<Chunk>, s: State): nat
    requires s.sent <= |chunks|
  {
    4 * (|chunks| - s.sent)
    + (if s.producerGone then 0 else 1)
    + (match s.forwarder
       case Receiving => 1
       case Holding(_) => 3
       case Storing(_) => 2
       case Gone => 0)
  }

  lemma StepsDoWork(chunks: seq<Chunk>, s: State, a: Action)
    requires OneDone(chunks) && Ok(chunks, s)
    ensures Step(chunks, s, a).sent <= |chunks|
    ensures Work(chunks, Step(chunks, s, a)) <= Work(chunks, s)
    ensures !a.Cancel? && !a.StopReading? && Step(chunks, s, a) != s ==> Work(chunks, Step(chunks, s, a)) < Work(chunks, s)
  {
  }

  /** Exactly when neither goroutine can move without the consumer: when both are gone, or the forwarder
      holds a chunk with more to come and nothing was cancelled. */
  lemma StuckExactlyWhenUncancelled(chunks: seq<Chunk>, actions: seq<Action>)
    requires OneDone(chunks)
    ensures var s := Run(chunks, actions);
      (forall a | Internal(a) :: Step(chunks, s, a) == s)
      <==> BothGone(s) || (!s.cancelled && s.forwarder.Holding? && (s.producerGone || s.sent < |chunks|))
  {
    RunsKeepOk(chunks, actions);
    var s := Run(chunks, actions);
    if !BothGone(s) && !(!s.cancelled && s.forwarder.Holding? && (s.producerGone || s.sent < |chunks|)) {
      var a :=
        if !s.producerGone && s.sent == |chunks| then Close
        else if s.forwarder.Storing? then Store(true)
        else if s.forwarder.Receiving? && s.producerGone then SeeClose
        else if s.forwarder.Receiving? then Send
        else if s.forwarder.Holding? then ForwarderQuits
        else ProducerQuits;
      assert Internal(a) && Step(chunks, s, a) != s;
    }
  }

  /** An action of someone still interested in the output, none of whose writes fail. */
  predicate Willing(a: Action) {
    !a.Cancel? && !a.StopReading? && a != Action.Store(false)
  }

  lemma ReadStreamMoves(chunks: seq<Chunk>, s: State) returns (a: Action)
    requires Ok(chunks, s) && !s.cancelled && s.reading && !BothGone(s)
    ensures Willing(a) && Step(chunks, s, a) != s
    ensures !Step(chunks, s, a).cancelled && Step(chunks, s, a).reading
  {
    a := if !s.producerGone && s.sent == |chunks| then Close
         else if s.forwarder.Storing? then Store(true)
         else if s.forwarder.Holding? then Deliver
         else if s.producerGone then SeeClose
         else Send;
  }

  predicate Finished(chunks: seq<Chunk>, s: State) {
    BothGone(s) && !s.cancelled && s.received == chunks
  }

  lemma OneMoreStep(chunks: seq<Chunk>, actions: seq<Action>, a: Action)
    ensures Run(chunks, actions + [a]) == Step(chunks, Run(chunks, actions), a)
  {
    assert (actions + [a])[..|actions|] == actions;
  }

  lemma ReadStreamMove(chunks: seq<Chunk>, actions: seq<Action>) returns (a: Action)
    requires OneDone(chunks) && !Run(chunks, actions).cancelled && Run(chunks, actions).reading
    requires !BothGone(Run(chunks, actions))
    ensures Willing(a) && RunWork(chunks, actions + [a]) < RunWork(chunks, actions)
    ensures !Run(chunks, actions + [a]).cancelled && Run(chunks, actions + [a]).reading
  {
    RunsKeepOk(chunks, actions);
    a := ReadStreamMoves(chunks, Run(chunks, actions));
    OneMoreStep(chunks, actions, a);
    StepsDoWork(chunks, Run(chunks, actions), a);
  }

  /** While nothing is cancelled and the consumer reads, the stream can always be brought to its end, with
      everything delivered. */
  lemma {:induction false} ReadStreamFinishes(chunks: seq<Chunk>, actions: seq<Action>) returns (more: seq<Action>)
    requires OneDone(chunks) && !Run(chunks, actions).cancelled && Run(chunks, actions).reading
    ensures forall a | a in more :: Willing(a)
    ensures Finished(chunks, Run(chunks, actions + more))
    decreases RunWork(chunks, actions)
  {
    RunsKeepOk(chunks, actions);
    if BothGone(Run(chunks, actions)) {
      more := [];
      assert actions + more == actions;
    } else {
      var a := ReadStreamMove(chunks, actions);
      var rest := ReadStreamFinishes(chunks, actions + [a]);
      more := [a] + rest;
      assert actions + more == actions + [a] + rest;
    }
  }

  /** A run of steps of the goroutines themselves, each of which changes something. */
  ghost predicate Effective(chunks: seq<Chunk>, s: State, more: seq<Action>)
    decreases |more|
  {
    more != [] ==>
      && Internal(more[0])
      && Step(chunks, s, more[0]) != s
      && Effective(chunks, Step(chunks, s, more[0]), more[1..])
  }

  function Continue(chunks: seq<Chunk>, s: State, more: seq<Action>): State
    decreases |more|
  {
    if more == [] then s else Continue(chunks, Step(chunks, s, more[0]), more[1..])
  }

  /** From a cancelled state the goroutines can always reach their exits without the consumer. */
  lemma {:induction false} ExitIsReachable(chunks: seq<Chunk>, actions: seq<Action>) returns (more: seq<Action>)
    requires OneDone(chunks) && Run(chunks, actions).cancelled
    ensures Effective(chunks, Run(chunks, actions), more) && BothGone(Continue(chunks, Run(chunks, actions), more))
    decreases RunWork(chunks, actions)
  {
    var s := Run(chunks, actions);
    if BothGone(s) {
      more := [];
    } else {
      StuckExactlyWhenUncancelled(chunks, actions);
      var a :| Internal(a) && Step(chunks, s, a) != s;
      assert (actions + [a])[..|actions|] == actions;
      RunsKeepOk(chunks, actions);
      StepsDoWork(chunks, s, a);
      var rest := ExitIsReachable(chunks, actions + [a]);
      more := [a] + rest;
      assert more[1..] == rest;
    }
  }

  /** And however they move, they get there: a run of steps that each change something is no longer
      than the work left, and if it cannot be prolonged both are gone. */
  lemma {:induction false} EveryMoveLeadsToExit(chunks: seq<Chunk>, actions: seq<Action>, more: seq<Action>)
    requires OneDone(chunks) && Run(chunks, actions).cancelled
    requires Effective(chunks, Run(chunks, actions), more)
    ensures |more| <= RunWork(chunks, actions)
    ensures var t := Continue(chunks, Run(chunks, actions), more);
      BothGone(t) <==> forall a | Internal(a) :: Step(chunks, t, a) == t
    decreases |more|
  {
    var s := Run(chunks, actions);
    if more == [] {
      StuckExactlyWhenUncancelled(chunks, actions);
    } else {
      var a := more[0];
      assert (actions + [a])[..|actions|] == actions;
      RunsKeepOk(chunks, actions);
      StepsDoWork(chunks, s, a);
      EveryMoveLeadsToExit(chunks, actions + [a], more[1..]);
    }
  }

  ghost function RunWork(chunks: seq<Chunk>, actions: seq<Action>): nat
    requires OneDone(chunks)
  {
    RunsKeepOk(chunks, actions);
    Work(chunks, Run(chunks, actions))
  }
}
