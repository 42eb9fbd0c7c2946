/** The chunked audio transfer of frontend/hooks/peer.js as values: the
    sender cuts a byte buffer into 1024-byte slices and emits one
    `audio-info` frame and then one `audio-chunk` frame per slice; the
    receiver keeps, per `messageId`, a JavaScript array of slots and a
    count, and hands the concatenation of the slots to the consumer when
    the count reaches the announced total. The in-place session object that
    runs these steps is in peer_session.dfy. */
module AudioCodec {
  import opened Basics

  type Byte = b: int | 0 <= b < 256
  type Bytes = seq<Byte>

  /** `CHUNK_SIZE` of `sendAudioMessage`. */
  const ChunkSize: nat := 1024

  /** The largest length of a JavaScript array; `new Array(n)` throws for
      any other n outside 0 .. MaxArrayLength, and only indices below it
      are array slots. */
  const MaxArrayLength: int := 0xFFFF_FFFF

  /** The message handed to `sendAudioMessage`, and the one the receiving
      side's consumer gets (the Blob is its bytes). */
  datatype AudioMessage = AudioMessage(
    audio: Bytes,
    fromLanguage: string,
    toLanguage: string,
    sourceText: string,
    translatedText: string)

  datatype Preferences = Preferences(speaks: string, wantsToHear: string)

  /** The payload of an `audio-info` frame. */
  datatype Info = Info(
    messageId: string,
    totalChunks: int,
    fromLanguage: string,
    toLanguage: string,
    sourceText: string,
    translatedText: string)

  /** The JSON objects sent over a data connection, by their `type`. */
  datatype Frame =
    | Transcript(text: string)
    | LanguagePreferences(preferences: Preferences)
    | AudioInfo(info: Info)
    | AudioChunk(messageId: string, chunkIndex: int, totalChunks: int, data: Bytes)
    | Unrecognised

  function Min(a: int, b: int): int {
    if a <= b then a else b
  }

  function Max(a: int, b: int): int {
    if a <= b then b else a
  }

  /** Concatenation of byte arrays, in order. */
  function Flatten(s: seq<Bytes>): Bytes {
    if s == [] then [] else s[0] + Flatten(s[1..])
  }

  // ---------------------------------------------------------------------
  // Sending side

  /** The slices `buffer.slice(i, i + CHUNK_SIZE)` for i = 0, 1024, ...:
      ceil(|b| / 1024) of them, none empty, all full but the last. */
  function ChunksOf(b: Bytes): (r: seq<Bytes>)
    ensures forall i :: 0 <= i < |r| ==> 0 < |r[i]| <= ChunkSize
    ensures forall i :: 0 <= i < |r| - 1 ==> |r[i]| == ChunkSize
    decreases |b|
  {
    if |b| == 0 then []
    else if |b| <= ChunkSize then [b]
    else [b[..ChunkSize]] + ChunksOf(b[ChunkSize..])
  }

  /** There are ceil(|b| / 1024) slices. */
  lemma {:induction false} ChunkCount(b: Bytes)
    ensures |ChunksOf(b)| == (|b| + ChunkSize - 1) / ChunkSize
    decreases |b|
  {
    if |b| > ChunkSize {
      ChunkCount(b[ChunkSize..]);
    }
  }

  /** The slices put back together are the buffer. */
  lemma {:induction false} ChunksReassemble(b: Bytes)
    ensures Flatten(ChunksOf(b)) == b
    decreases |b|
  {
    if |b| == 0 {
    } else if |b| <= ChunkSize {
      assert [b][1..] == [];
      assert Flatten([b]) == b + Flatten([]);
    } else {
      var r := ChunksOf(b);
      assert r[0] == b[..ChunkSize] && r[1..] == ChunksOf(b[ChunkSize..]);
      ChunksReassemble(b[ChunkSize..]);
      assert b[..ChunkSize] + b[ChunkSize..] == b;
    }
  }

  /** The chunking loop of `sendChunks`. */
  method SplitIntoChunks(buffer: Bytes) returns (chunks: seq<Bytes>)
    ensures chunks == ChunksOf(buffer)
  {
    chunks := [];
    var i := 0;
    while i < |buffer|
      invariant 0 <= i
      invariant chunks + ChunksOf(buffer[Min(i, |buffer|)..]) == ChunksOf(buffer)
    {
      var end := Min(i + ChunkSize, |buffer|);
      ChunksOfFrom(buffer, i);
      chunks := chunks + [buffer[i..end]];
      i := i + ChunkSize;
    }
  }

  /** The slices from offset i on: the one starting at i, then the rest. */
  lemma ChunksOfFrom(buffer: Bytes, i: nat)
    requires i < |buffer|
    ensures ChunksOf(buffer[i..]) ==
      [buffer[i..Min(i + ChunkSize, |buffer|)]] + ChunksOf(buffer[Min(i + ChunkSize, |buffer|)..])
  {
    var rest := buffer[i..];
    if |rest| > ChunkSize {
      assert rest[..ChunkSize] == buffer[i..i + ChunkSize];
      assert rest[ChunkSize..] == buffer[i + ChunkSize..];
    } else {
      assert rest == buffer[i..|buffer|];
      assert buffer[|buffer|..] == [];
    }
  }

  function InfoFor(messageId: string, m: AudioMessage, total: int): Info {
    Info(messageId, total, m.fromLanguage, m.toLanguage, m.sourceText, m.translatedText)
  }

  /** What `sendChunks` sends: the info frame, then the chunk frames in
      index order under the same message id. */
  function AudioFrames(messageId: string, m: AudioMessage): (r: seq<Frame>)
    ensures |r| == |ChunksOf(m.audio)| + 1
    ensures r[0] == AudioInfo(InfoFor(messageId, m, |r| - 1))
    ensures forall k :: 1 <= k < |r| ==>
      r[k] == AudioChunk(messageId, k - 1, |r| - 1, ChunksOf(m.audio)[k - 1])
  {
    var cs := ChunksOf(m.audio);
    [AudioInfo(InfoFor(messageId, m, |cs|))]
      + seq(|cs|, k requires 0 <= k < |cs| => AudioChunk(messageId, k, |cs|, cs[k]))
  }

  /** The body of `sendChunks`: chunking, then the two sending steps. */
  method EncodeFrames(messageId: string, m: AudioMessage) returns (frames: seq<Frame>)
    ensures frames == AudioFrames(messageId, m)
  {
    var chunks := SplitIntoChunks(m.audio);
    ghost var all := AudioFrames(messageId, m);
    frames := [AudioInfo(InfoFor(messageId, m, |chunks|))];
    for idx := 0 to |chunks|
      invariant frames == all[..idx + 1]
    {
      assert all[..idx + 2] == all[..idx + 1] + [all[idx + 1]];
      frames := frames + [AudioChunk(messageId, idx, |chunks|, chunks[idx])];
    }
    assert all[..|chunks| + 1] == all;
  }

  // ---------------------------------------------------------------------
  // Receiving side

  /** An `audioChunks` entry: the info frame, the `chunks` array (None is
      a hole) and the `received` counter. */
  datatype Reassembly = Reassembly(info: Info, chunks: seq<Option<Bytes>>, received: int)

  type Table = map<string, Reassembly>

  /** What the `data` handler hands to a consumer callback, if anything;
      Threw is the RangeError of `new Array(n)` for an invalid n. */
  datatype Delivery =
    | NoDelivery
    | TranscriptReceived(text: string)
    | PreferencesReceived(preferences: Preferences)
    | AudioReceived(message: AudioMessage)
    | Threw

  datatype Step = Step(table: Table, delivery: Delivery)

  /** `new Array(n)`: n holes. */
  function Holes(n: nat): (r: seq<Option<Bytes>>)
    ensures |r| == n && forall i :: 0 <= i < n ==> r[i].None?
  {
    seq(n, _ => None)
  }

  /** `chunks[i] = d` on a JavaScript array: an index past the end grows the
      array with holes, and a key that is not an array index (negative, or
      too large) is a plain property that leaves the slots alone. */
  function Store(slots: seq<Option<Bytes>>, i: int, d: Bytes): (r: seq<Option<Bytes>>)
    ensures 0 <= i < MaxArrayLength ==>
      && |r| == Max(|slots|, i + 1)
      && r[i] == Some(d)
      && (forall j :: 0 <= j < |slots| && j != i ==> r[j] == slots[j])
      && (forall j :: |slots| <= j < i ==> r[j].None?)
    ensures !(0 <= i < MaxArrayLength) ==> r == slots
  {
    if !(0 <= i < MaxArrayLength) then slots
    else if i < |slots| then slots[i := Some(d)]
    else slots + Holes(i - |slots|) + [Some(d)]
  }

  /** A slot's contribution to `[].concat(...chunks)` once it becomes a
      `Uint8Array`: a hole spreads as `undefined`, which converts to 0. */
  function SlotBytes(slot: Option<Bytes>): Bytes {
    match slot
    case Some(d) => d
    case None => [0]
  }

  function Assemble(slots: seq<Option<Bytes>>): Bytes {
    Flatten(seq(|slots|, k requires 0 <= k < |slots| => SlotBytes(slots[k])))
  }

  /** The `data` handler of `setupDataConnectionHandlers`, on one frame. */
  function Receive(t: Table, f: Frame): Step {
    match f
    case Transcript(text) => Step(t, TranscriptReceived(text))
    case LanguagePreferences(p) => Step(t, PreferencesReceived(p))
    case AudioInfo(info) =>
      if 0 <= info.totalChunks <= MaxArrayLength then
        Step(t[info.messageId := Reassembly(info, Holes(info.totalChunks), 0)], NoDelivery)
      else Step(t, Threw)
    case AudioChunk(mid, index, _, data) =>
      if mid !in t then Step(t, NoDelivery)
      else
        var entry := t[mid];
        var e := entry.(chunks := Store(entry.chunks, index, data), received := entry.received + 1);
        if e.received == e.info.totalChunks then
          Step(t - {mid}, AudioReceived(Completed(e)))
        else Step(t[mid := e], NoDelivery)
    case Unrecognised => Step(t, NoDelivery)
  }

  /** The message built on completion: the slots' bytes and the info's
      language and text fields. */
  function Completed(e: Reassembly): AudioMessage {
    AudioMessage(Assemble(e.chunks), e.info.fromLanguage, e.info.toLanguage, e.info.sourceText, e.info.translatedText)
  }

  datatype Run = Run(table: Table, deliveries: seq<Delivery>)

  /** The handler applied to a stream of frames, in arrival order. */
  function ReceiveAll(t: Table, fs: seq<Frame>): (r: Run)
    ensures |r.deliveries| == |fs|
    decreases |fs|
  {
    if fs == [] then Run(t, [])
    else
      var before := ReceiveAll(t, fs[..|fs| - 1]);
      var s := Receive(before.table, fs[|fs| - 1]);
      Run(s.table, before.deliveries + [s.delivery])
  }

  lemma ReceiveAllSnoc(t: Table, fs: seq<Frame>, f: Frame)
    ensures var before := ReceiveAll(t, fs);
      var s := Receive(before.table, f);
      ReceiveAll(t, fs + [f]) == Run(s.table, before.deliveries + [s.delivery])
  {
    assert (fs + [f])[..|fs|] == fs;
  }

  // ---------------------------------------------------------------------
  // Properties of the handler

  /** An `audio-info` frame with a valid total starts its entry afresh,
      dropping any partial state under that id, and touches no other entry. */
  lemma InfoResetsEntry(t: Table, info: Info)
    requires 0 <= info.totalChunks <= MaxArrayLength
    ensures var s := Receive(t, AudioInfo(info));
      && s.delivery == NoDelivery
      && info.messageId in s.table
      && s.table[info.messageId].received == 0
      && |s.table[info.messageId].chunks| == info.totalChunks
      && (forall i :: 0 <= i < info.totalChunks ==> s.table[info.messageId].chunks[i].None?)
      && s.table - {info.messageId} == t - {info.messageId}
  {
  }

  /** A chunk whose id has no entry changes nothing. */
  lemma UnknownChunkIgnored(t: Table, mid: string, index: int, total: int, data: Bytes)
    requires mid !in t
    ensures Receive(t, AudioChunk(mid, index, total, data)) == Step(t, NoDelivery)
  {
  }

  /** Every chunk counts once more, whether or not its slot was filled
      before; the message completes exactly when the count reaches the
      announced total, and then its entry is gone. */
  lemma ChunkAlwaysCounts(t: Table, mid: string, index: int, total: int, data: Bytes)
    requires mid in t
    ensures var s := Receive(t, AudioChunk(mid, index, total, data));
      var done := t[mid].received + 1 == t[mid].info.totalChunks;
      && (done <==> s.delivery.AudioReceived?)
      && (done ==> mid !in s.table && s.table == t - {mid})
      && (!done ==>
            && mid in s.table && s.table[mid].received == t[mid].received + 1
            && s.table[mid].chunks == Store(t[mid].chunks, index, data)
            && s.table - {mid} == t - {mid})
  {
  }

  /** Delivery happens once: after completion the id has no entry, so any
      further chunk under it is ignored. */
  lemma DeliveredAtMostOnce(t: Table, mid: string, index: int, total: int, data: Bytes, f: Frame)
    requires Receive(t, AudioChunk(mid, index, total, data)).delivery.AudioReceived?
    requires f.AudioChunk? && f.messageId == mid
    ensures var after := Receive(t, AudioChunk(mid, index, total, data)).table;
      Receive(after, f) == Step(after, NoDelivery)
  {
  }

  /** A repeated index still counts: with two slots, the same chunk twice
      completes the message with the second slot a hole, read as one zero
      byte. */
  lemma DuplicateChunkCompletesWithHole(t: Table, info: Info, d0: Bytes, d1: Bytes)
    requires info.totalChunks == 2
    ensures var mid := info.messageId;
      var run := ReceiveAll(t, [AudioInfo(info), AudioChunk(mid, 0, 2, d0), AudioChunk(mid, 0, 2, d1)]);
      && run.deliveries[..2] == [NoDelivery, NoDelivery]
      && run.deliveries[2] == AudioReceived(AudioMessage(d1 + [0], info.fromLanguage, info.toLanguage, info.sourceText, info.translatedText))
      && run.table == t - {mid}
  {
    var mid := info.messageId;
    var f0, f1, f2 := AudioInfo(info), AudioChunk(mid, 0, 2, d0), AudioChunk(mid, 0, 2, d1);
    ReceiveAllSnoc(t, [], f0);
    assert [] + [f0] == [f0];
    ReceiveAllSnoc(t, [f0], f1);
    assert [f0] + [f1] == [f0, f1];
    ReceiveAllSnoc(t, [f0, f1], f2);
    assert [f0, f1] + [f2] == [f0, f1, f2];
    var slots := [Some(d1), None];
    ChunkStep(t, info, Holes(2), 0, 0, 2, d0);
    ChunkStep(t, info, Holes(2)[0 := Some(d0)], 1, 0, 2, d1);
    assert Store(Store(Holes(2), 0, d0), 0, d1) == slots;
    assert seq(2, k requires 0 <= k < 2 => SlotBytes(slots[k])) == [d1, [0]];
    assert Flatten([d1, [0]]) == d1 + Flatten([[0]]);
    assert Flatten([[0]]) == [0] + Flatten([]);
  }

  /** An entry whose count has already reached or passed its total can
      never complete: chunks only raise the count further. */
  lemma {:induction false} StalledEntryNeverCompletes(t: Table, mid: string, fs: seq<Frame>)
    requires mid in t && t[mid].received >= t[mid].info.totalChunks
    requires forall k :: 0 <= k < |fs| ==> fs[k].AudioChunk? && fs[k].messageId == mid
    ensures var run := ReceiveAll(t, fs);
      && mid in run.table
      && run.table[mid].info == t[mid].info
      && run.table[mid].received == t[mid].received + |fs|
      && forall k :: 0 <= k < |fs| ==> run.deliveries[k] == NoDelivery
    decreases |fs|
  {
    if fs != [] {
      var init := fs[..|fs| - 1];
      StalledEntryNeverCompletes(t, mid, init);
      var before := ReceiveAll(t, init);
      var f := fs[|fs| - 1];
      ChunkAlwaysCounts(before.table, mid, f.chunkIndex, f.totalChunks, f.data);
    }
  }

  /** An empty buffer is announced with zero chunks: its entry is created
      and no chunk for it ever completes it. */
  lemma EmptyAudioNeverCompletes(t: Table, mid: string, m: AudioMessage, fs: seq<Frame>)
    requires m.audio == []
    requires forall k :: 0 <= k < |fs| ==> fs[k].AudioChunk? && fs[k].messageId == mid
    ensures AudioFrames(mid, m) == [AudioInfo(InfoFor(mid, m, 0))]
    ensures var run := ReceiveAll(Receive(t, AudioInfo(InfoFor(mid, m, 0))).table, fs);
      mid in run.table && forall k :: 0 <= k < |fs| ==> run.deliveries[k] == NoDelivery
  {
    StalledEntryNeverCompletes(Receive(t, AudioInfo(InfoFor(mid, m, 0))).table, mid, fs);
  }

  // ---------------------------------------------------------------------
  // Round trip

  /** `perm` lists 0 .. n-1, each once, in some order. */
  predicate IsPermutation(perm: seq<int>, n: nat) {
    && |perm| == n
    && (forall k :: 0 <= k < |perm| ==> 0 <= perm[k] < n)
    && (forall j :: 0 <= j < n ==> j in perm)
  }

  /** An info frame, then the chunk frames of the slices `cs` in the order
      `perm` names them. */
  function ChunkArrival(info: Info, cs: seq<Bytes>, perm: seq<int>): (r: seq<Frame>)
    requires forall k :: 0 <= k < |perm| ==> 0 <= perm[k] < |cs|
    ensures |r| == |perm| + 1 && r[0] == AudioInfo(info)
    ensures forall k :: 0 <= k < |perm| ==> r[k + 1] == AudioChunk(info.messageId, perm[k], |cs|, cs[perm[k]])
  {
    [AudioInfo(info)] + seq(|perm|, k requires 0 <= k < |perm| => AudioChunk(info.messageId, perm[k], |cs|, cs[perm[k]]))
  }

  /** The sender's frames with the chunk frames arriving in the order
      `perm` names them. */
  function Arrival(mid: string, m: AudioMessage, perm: seq<int>): (r: seq<Frame>)
    requires forall k :: 0 <= k < |perm| ==> 0 <= perm[k] < |ChunksOf(m.audio)|
    ensures |r| == |perm| + 1
    ensures r[0] == AudioFrames(mid, m)[0]
    ensures forall k :: 0 <= k < |perm| ==> r[k + 1] == AudioFrames(mid, m)[perm[k] + 1]
  {
    var cs := ChunksOf(m.audio);
    ChunkArrival(InfoFor(mid, m, |cs|), cs, perm)
  }

  /** The slots after the chunks named in `done` have arrived. */
  function Filled(cs: seq<Bytes>, done: seq<int>): seq<Option<Bytes>> {
    seq(|cs|, j requires 0 <= j < |cs| => if j in done then Some(cs[j]) else None)
  }

  lemma FilledStep(cs: seq<Bytes>, done: seq<int>, j: int)
    requires 0 <= j < |cs| <= MaxArrayLength
    ensures Store(Filled(cs, done), j, cs[j]) == Filled(cs, done + [j])
  {
  }

  /** One chunk arriving for an entry with k chunks counted. */
  lemma ChunkStep(t: Table, info: Info, slots: seq<Option<Bytes>>, k: int, j: int, total: int, d: Bytes)
    ensures var e := Reassembly(info, Store(slots, j, d), k + 1);
      Receive(t[info.messageId := Reassembly(info, slots, k)], AudioChunk(info.messageId, j, total, d)) ==
        if k + 1 == info.totalChunks then Step(t - {info.messageId}, AudioReceived(Completed(e)))
        else Step(t[info.messageId := e], NoDelivery)
  {
    var mid := info.messageId;
    assert t[mid := Reassembly(info, slots, k)] - {mid} == t - {mid};
  }

  lemma ArrivalStart(t: Table, info: Info, cs: seq<Bytes>, perm: seq<int>)
    requires forall k :: 0 <= k < |perm| ==> 0 <= perm[k] < |cs|
    requires info.totalChunks == |cs| <= MaxArrayLength
    ensures ReceiveAll(t, ChunkArrival(info, cs, perm)[..1]) ==
      Run(t[info.messageId := Reassembly(info, Filled(cs, []), 0)], seq(1, _ => NoDelivery))
  {
    assert ChunkArrival(info, cs, perm)[..1] == [] + [AudioInfo(info)];
    ReceiveAllSnoc(t, [], AudioInfo(info));
    assert Filled(cs, []) == Holes(|cs|);
  }

  /** One more chunk of a message still short of its total. */
  lemma PrefixStep(t: Table, info: Info, cs: seq<Bytes>, done: seq<int>, j: int, k: nat, fs: seq<Frame>)
    requires info.totalChunks == |cs| <= MaxArrayLength
    requires 0 <= j < |cs| && k < |cs|
    requires ReceiveAll(t, fs) ==
      Run(t[info.messageId := Reassembly(info, Filled(cs, done), k - 1)], seq(k, _ => NoDelivery))
    ensures ReceiveAll(t, fs + [AudioChunk(info.messageId, j, |cs|, cs[j])]) ==
      Run(t[info.messageId := Reassembly(info, Filled(cs, done + [j]), k)], seq(k + 1, _ => NoDelivery))
  {
    var c := AudioChunk(info.messageId, j, |cs|, cs[j]);
    ReceiveAllSnoc(t, fs, c);
    ChunkStep(t, info, Filled(cs, done), k - 1, j, |cs|, cs[j]);
    FilledStep(cs, done, j);
    assert seq(k, _ => NoDelivery) + [NoDelivery] == seq(k + 1, _ => NoDelivery);
  }

  /** After the info frame and k chunk frames, short of the total, the
      entry holds exactly those k slices and nothing was delivered. */
  lemma {:induction false} ArrivalPrefix(t: Table, info: Info, cs: seq<Bytes>, perm: seq<int>, k: nat)
    requires forall k :: 0 <= k < |perm| ==> 0 <= perm[k] < |cs|
    requires info.totalChunks == |cs| == |perm| <= MaxArrayLength
    requires k < |perm|
    ensures ReceiveAll(t, ChunkArrival(info, cs, perm)[..k + 1]) ==
      Run(t[info.messageId := Reassembly(info, Filled(cs, perm[..k]), k)], seq(k + 1, _ => NoDelivery))
  {
    if k == 0 {
      ArrivalStart(t, info, cs, perm);
      assert perm[..0] == [];
    } else {
      ArrivalPrefix(t, info, cs, perm, k - 1);
      ArrivalNext(t, info, cs, perm, k);
    }
  }

  lemma ArrivalNext(t: Table, info: Info, cs: seq<Bytes>, perm: seq<int>, k: nat)
    requires forall k :: 0 <= k < |perm| ==> 0 <= perm[k] < |cs|
    requires info.totalChunks == |cs| == |perm| <= MaxArrayLength
    requires 0 < k < |perm|
    requires ReceiveAll(t, ChunkArrival(info, cs, perm)[..k]) ==
      Run(t[info.messageId := Reassembly(info, Filled(cs, perm[..k - 1]), k - 1)], seq(k, _ => NoDelivery))
    ensures ReceiveAll(t, ChunkArrival(info, cs, perm)[..k + 1]) ==
      Run(t[info.messageId := Reassembly(info, Filled(cs, perm[..k]), k)], seq(k + 1, _ => NoDelivery))
  {
    var fs := ChunkArrival(info, cs, perm);
    TakeOneMore(fs, k);
    TakeOneMore(perm, k - 1);
    PrefixStep(t, info, cs, perm[..k - 1], perm[k - 1], k, fs[..k]);
  }

  lemma AssembleFilled(cs: seq<Bytes>, perm: seq<int>)
    requires forall j :: 0 <= j < |cs| ==> j in perm
    ensures Assemble(Filled(cs, perm)) == Flatten(cs)
  {
    var slots := Filled(cs, perm);
    assert seq(|slots|, k requires 0 <= k < |slots| => SlotBytes(slots[k])) == cs;
  }

  /** All chunk frames after the info frame, in the order `perm`: the
      last one completes the message with the slices concatenated. */
  lemma ArrivalComplete(t: Table, info: Info, cs: seq<Bytes>, perm: seq<int>)
    requires IsPermutation(perm, |cs|)
    requires info.totalChunks == |cs| && 0 < |cs| <= MaxArrayLength
    ensures ReceiveAll(t, ChunkArrival(info, cs, perm)) ==
      Run(t - {info.messageId}, seq(|cs|, _ => NoDelivery)
        + [AudioReceived(AudioMessage(Flatten(cs), info.fromLanguage, info.toLanguage, info.sourceText, info.translatedText))])
  {
    var n := |cs|;
    var fs := ChunkArrival(info, cs, perm);
    var j := perm[n - 1];
    ArrivalPrefix(t, info, cs, perm, n - 1);
    TakeOneMore(fs, n);
    assert fs[..n + 1] == fs;
    ReceiveAllSnoc(t, fs[..n], fs[n]);
    ChunkStep(t, info, Filled(cs, perm[..n - 1]), n - 1, j, n, cs[j]);
    TakeOneMore(perm, n - 1);
    assert perm[..n] == perm;
    FilledStep(cs, perm[..n - 1], j);
    AssembleFilled(cs, perm);
  }

  /** Feeding the sender's frames to the handler, the chunk frames in any
      order, hands over the original message exactly once, at the last
      chunk, and leaves no entry behind. */
  lemma RoundTrip(t: Table, mid: string, m: AudioMessage, perm: seq<int>)
    requires IsPermutation(perm, |ChunksOf(m.audio)|)
    requires 0 < |ChunksOf(m.audio)| <= MaxArrayLength
    ensures var n := |ChunksOf(m.audio)|;
      ReceiveAll(t, Arrival(mid, m, perm)) == Run(t - {mid}, seq(n, _ => NoDelivery) + [AudioReceived(m)])
  {
    var cs := ChunksOf(m.audio);
    ArrivalComplete(t, InfoFor(mid, m, |cs|), cs, perm);
    ChunksReassemble(m.audio);
  }

  /** A 3500-byte buffer travels as four chunks of 1024, 1024, 1024 and 428
      bytes, and arriving in the order 2, 0, 3, 1 it is reassembled whole. */
  lemma ThirtyFiveHundredBytes(t: Table, mid: string, m: AudioMessage)
    requires |m.audio| == 3500
    ensures var cs := ChunksOf(m.audio);
      && |cs| == 4
      && |cs[0]| == 1024 && |cs[1]| == 1024 && |cs[2]| == 1024 && |cs[3]| == 428
      && ReceiveAll(t, Arrival(mid, m, [2, 0, 3, 1])) ==
           Run(t - {mid}, [NoDelivery, NoDelivery, NoDelivery, NoDelivery, AudioReceived(m)])
  {
    var b := m.audio;
    var b1 := b[ChunkSize..];
    var b2 := b1[ChunkSize..];
    var b3 := b2[ChunkSize..];
    assert ChunksOf(b) == [b[..ChunkSize]] + ChunksOf(b1);
    assert ChunksOf(b1) == [b1[..ChunkSize]] + ChunksOf(b2);
    assert ChunksOf(b2) == [b2[..ChunkSize]] + ChunksOf(b3);
    assert |b3| == 428 && ChunksOf(b3) == [b3];
    var perm := [2, 0, 3, 1];
    assert forall j :: 0 <= j < 4 ==> j in perm by {
      assert perm[0] == 2 && perm[1] == 0 && perm[2] == 3 && perm[3] == 1;
    }
    RoundTrip(t, mid, m, perm);
    assert seq(4, _ => NoDelivery) == [NoDelivery, NoDelivery, NoDelivery, NoDelivery];
  }
}
