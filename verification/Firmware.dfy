/** Loading the codec's memory before a capture: three wipes and two firmware images. */
module Firmware {
  import opened Bytes

  /** Words per transfer of the upload loops. */
  const CHUNK := 0x2000

  const AUDIO_BYTES := 363832
  const VIDEO_BYTES := 453684
  const AUDIO_BASE := 0x00040000
  const VIDEO_BASE := 0x00000000

  /** The wipes: start and number of words. */
  const WIPE1 := 0x0005634E
  const WIPE2 := 0x0005834E
  const WIPE3 := 0x0005A34E
  const WIPE3_WORDS := 0x1E3B

  /** The codec's memory, word-addressed; words never written read as 0. */
  class Memory {
    var words: map<nat, word>

    function At(addr: nat): word
      reads this
    {
      if addr in words then words[addr] else 0
    }

    constructor (words: map<nat, word>)
      ensures this.words == words
    {
      this.words := words;
    }

    method Put(addr: nat, val: word)
      modifies this
      ensures forall a: nat :: At(a) == if a == addr then val else old(At(a))
    {
      words := words[addr := val];
    }

    /** One DMA transfer: the words that arrive are stored, the others are not. */
    method DmaWrite(addr: nat, data: seq<word>, o: Outcome)
      modifies this
      ensures forall a: nat ::
                At(a) == if addr <= a < addr + o.Arrived(|data|) then data[a - addr] else old(At(a))
    {
      var i := 0;
      while i < o.Arrived(|data|)
        invariant 0 <= i <= o.Arrived(|data|)
        invariant forall a: nat :: At(a) == if addr <= a < addr + i then data[a - addr] else old(At(a))
      {
        Put(addr + i, data[i]);
        i := i + 1;
      }
    }

    /** The upload loop for an image of len bytes, whose complete words are `image`. Transfer k ends as
        `out` says; the loop does not look at the result. */
    method Upload(base: nat, image: seq<word>, len: nat, out: nat -> Outcome)
      requires |image| == len / 4
      modifies this
      ensures forall a: nat ::
                At(a) == if base <= a < base + |image| && Through(a - base, out) then image[a - base] else old(At(a))
    {
      var val, addr, offset := len, base, 0;
      var k := 0;
      while val > 0
        invariant 0 <= val <= len && 0 <= offset && addr == base + offset
        invariant val > 0 ==> offset == k * CHUNK
        invariant offset + val / 4 == |image|
        invariant forall a: nat ::
                    At(a) == if base <= a < addr && Through(a - base, out) then image[a - base] else old(At(a))
      {
        var cpy := if val > CHUNK * 4 then CHUNK * 4 else val;
        var n := cpy / 4;
        DmaWrite(addr, image[offset..offset + n], out(k));
        ChunkHolds(k, out);
        val := val - cpy;
        addr := addr + n;
        offset := offset + n;
        k := k + 1;
      }
    }
  }

  /** How a transfer ends: with all of its words, or cut short, with an error, after some of them. */
  datatype Outcome = Whole | Cut(words: nat) {
    /** Of n words, how many arrive. */
    function Arrived(n: nat): (r: nat)
      ensures r <= n
    {
      if Whole? then n else Min(words, n)
    }
  }

  /** The transfer that carries word j of an image. */
  function ChunkOf(j: nat): nat {
    j / CHUNK
  }

  /** Does word j of an image arrive? */
  predicate Through(j: nat, out: nat -> Outcome) {
    out(ChunkOf(j)).Whole? || j % CHUNK < out(ChunkOf(j)).words
  }

  lemma ChunkHolds(k: nat, out: nat -> Outcome)
    ensures forall j: nat | k * CHUNK <= j < k * CHUNK + CHUNK ::
              Through(j, out) <==> out(k).Whole? || j - k * CHUNK < out(k).words
  {
    forall j: nat | k * CHUNK <= j < k * CHUNK + CHUNK
      ensures ChunkOf(j) == k && j % CHUNK == j - k * CHUNK
    {
    }
  }

  // ---------------------------------------------------------------- the whole load

  /** What the loading meets: the firmware files, None for a missing one, and how each transfer of the
      wipes and of the uploads ends. */
  datatype Job = Job(audio: Option<seq<word>>, audioBytes: nat, video: Option<seq<word>>, videoBytes: nat,
                     wipe1: Outcome, wipe2: Outcome, wipe3: Outcome,
                     audioOut: nat -> Outcome, videoOut: nat -> Outcome,
                     mark1: Outcome, mark2: Outcome, mark3: Outcome)
  {
    /** The words of the files are their complete groups of four bytes. */
    ghost predicate Sane() {
      (audio.Some? ==> |audio.value| == audioBytes / 4) && (video.Some? ==> |video.value| == videoBytes / 4)
    }
  }

  datatype Load = Loaded | WipeFailed | NoAudio | NoVideo

  function LoadResult(j: Job): Load {
    if !j.wipe1.Whole? || !j.wipe2.Whole? || !j.wipe3.Whole? then WipeFailed
    else if j.audio == None || j.audioBytes != AUDIO_BYTES then NoAudio
    else if j.video == None || j.videoBytes != VIDEO_BYTES then NoVideo
    else Loaded
  }

  /** How many words the wipes clear until the first that is cut short. */
  function Cleared(j: Job): nat {
    j.wipe1.Arrived(CHUNK)
    + (if j.wipe1.Whole? then j.wipe2.Arrived(CHUNK) else 0)
    + (if j.wipe1.Whole? && j.wipe2.Whole? then j.wipe3.Arrived(WIPE3_WORDS) else 0)
  }

  predicate InAudio(a: nat) {
    AUDIO_BASE <= a < AUDIO_BASE + AUDIO_BYTES / 4
  }

  predicate InVideo(a: nat) {
    VIDEO_BASE <= a < VIDEO_BASE + VIDEO_BYTES / 4
  }

  predicate InWipe(j: Job, a: nat) {
    WIPE1 <= a < WIPE1 + Cleared(j)
  }

  const MARK1 := 0x000BC425
  const MARK2 := 0x000BC424
  const MARK3 := 0x000BC801

  /** The words set between the two uploads. */
  predicate IsMark(a: nat) {
    a == MARK1 || a == MARK2 || a == MARK3
  }

  /** Is it set? */
  predicate MarkArrives(j: Job, a: nat) {
    || (a == MARK1 && j.mark1.Arrived(1) == 1)
    || (a == MARK2 && j.mark2.Arrived(1) == 1)
    || (a == MARK3 && j.mark3.Arrived(1) == 1)
  }

  function MarkOf(a: nat): word {
    if a == MARK1 then 1 else 0
  }

  /** The contents of an address after the load, however it ends, given those before. */
  function Contents(j: Job, before: word, a: nat): word
    requires j.Sane()
  {
    var r := LoadResult(j);
    if InWipe(j, a) then 0
    else if (r.NoVideo? || r.Loaded?) && MarkArrives(j, a) then MarkOf(a)
    else if (r.NoVideo? || r.Loaded?) && InAudio(a) && Through(a - AUDIO_BASE, j.audioOut) then
      j.audio.value[a - AUDIO_BASE]
    else if r.Loaded? && InVideo(a) && Through(a - VIDEO_BASE, j.videoOut) then j.video.value[a - VIDEO_BASE]
    else before
  }

  /** The regions fit together: the wipes are one stretch that starts where the audio image ends,
      and wipes, images and marks never overlap. */
  lemma RegionsFit(j: Job, a: nat)
    ensures AUDIO_BASE + AUDIO_BYTES / 4 == WIPE1 && AUDIO_BYTES % 4 == 0 && VIDEO_BYTES % 4 == 0
    ensures WIPE1 + CHUNK == WIPE2 && WIPE2 + CHUNK == WIPE3
    ensures InWipe(j, a) ==> !InAudio(a) && !InVideo(a) && !IsMark(a)
    ensures InAudio(a) ==> !InVideo(a) && !IsMark(a)
    ensures InVideo(a) ==> !IsMark(a)
  {
  }

  function Zeros(n: nat): seq<word> {
    seq(n, _ => 0)
  }

  /** The three wipes, up to the first that fails. */
  method WipeAll(m: Memory, j: Job) returns (ok: bool)
    modifies m
    ensures ok <==> LoadResult(j) != WipeFailed
    ensures forall a: nat :: m.At(a) == if InWipe(j, a) then 0 else old(m.At(a))
  {
    RegionsFit(j, 0);
    m.DmaWrite(WIPE1, Zeros(CHUNK), j.wipe1);
    if !j.wipe1.Whole? {
      return false;
    }
    m.DmaWrite(WIPE2, Zeros(CHUNK), j.wipe2);
    if !j.wipe2.Whole? {
      return false;
    }
    m.DmaWrite(WIPE3, Zeros(WIPE3_WORDS), j.wipe3);
    return j.wipe3.Whole?;
  }

  /** The audio image and the three words written after it. */
  method LoadAudio(m: Memory, j: Job)
    requires j.audio.Some? && |j.audio.value| == AUDIO_BYTES / 4
    modifies m
    ensures forall a: nat ::
              m.At(a) == if MarkArrives(j, a) then MarkOf(a)
                         else if InAudio(a) && Through(a - AUDIO_BASE, j.audioOut) then j.audio.value[a - AUDIO_BASE]
                         else old(m.At(a))
  {
    m.Upload(AUDIO_BASE, j.audio.value, AUDIO_BYTES, j.audioOut);
    m.DmaWrite(MARK1, [1], j.mark1);
    m.DmaWrite(MARK2, [0], j.mark2);
    m.DmaWrite(MARK3, [0], j.mark3);
  }

  /** The contents of an address after the wipes, after the audio part, and after the video part. */
  function AfterWipes(j: Job, before: word, a: nat): word {
    if InWipe(j, a) then 0 else before
  }

  function WithAudio(j: Job, before: word, a: nat): word
    requires j.audio.Some? && |j.audio.value| == AUDIO_BYTES / 4
  {
    if MarkArrives(j, a) then MarkOf(a)
    else if InAudio(a) && Through(a - AUDIO_BASE, j.audioOut) then j.audio.value[a - AUDIO_BASE]
    else before
  }

  function WithVideo(j: Job, before: word, a: nat): word
    requires j.video.Some? && |j.video.value| == VIDEO_BYTES / 4
  {
    if InVideo(a) && Through(a - VIDEO_BASE, j.videoOut) then j.video.value[a - VIDEO_BASE] else before
  }

  function Staged(j: Job, before: word, a: nat): word
    requires j.Sane()
  {
    match LoadResult(j)
    case WipeFailed => AfterWipes(j, before, a)
    case NoAudio => AfterWipes(j, before, a)
    case NoVideo => WithAudio(j, AfterWipes(j, before, a), a)
    case Loaded => WithVideo(j, WithAudio(j, AfterWipes(j, before, a), a), a)
  }

  /** The order of the stages does not matter, because no two of them touch the same address. */
  lemma StagesCommute(j: Job, before: word, a: nat)
    requires j.Sane()
    ensures Staged(j, before, a) == Contents(j, before, a)
  {
    RegionsFit(j, a);
  }

  /** The two images, once the wipes are done. */
  method LoadImages(m: Memory, j: Job) returns (r: Load)
    requires j.Sane() && LoadResult(j) != WipeFailed
    modifies m
    ensures r == LoadResult(j)
    ensures r == NoAudio ==> forall a: nat :: m.At(a) == old(m.At(a))
    ensures r == NoVideo ==> forall a: nat :: m.At(a) == WithAudio(j, old(m.At(a)), a)
    ensures r == Loaded ==> forall a: nat :: m.At(a) == WithVideo(j, WithAudio(j, old(m.At(a)), a), a)
  {
    if j.audio == None || j.audioBytes != AUDIO_BYTES {
      return NoAudio;
    }
    LoadAudio(m, j);
    if j.video == None || j.videoBytes != VIDEO_BYTES {
      return NoVideo;
    }
    m.Upload(VIDEO_BASE, j.video.value, j.videoBytes, j.videoOut);
    return Loaded;
  }

  method LoadStages(m: Memory, j: Job) returns (r: Load)
    requires j.Sane()
    modifies m
    ensures r == LoadResult(j)
    ensures forall a: nat :: m.At(a) == Staged(j, old(m.At(a)), a)
  {
    var ok := WipeAll(m, j);
    if ok {
      r := LoadImages(m, j);
    } else {
      r := WipeFailed;
    }
  }

  /** The memory accesses of `hdcapm_compressor_register`, in order. */
  method LoadMemory(m: Memory, j: Job) returns (r: Load)
    requires j.Sane()
    modifies m
    ensures r == LoadResult(j)
    ensures forall a: nat :: m.At(a) == Contents(j, old(m.At(a)), a)
  {
    r := LoadStages(m, j);
    forall a: nat ensures m.At(a) == Contents(j, old(m.At(a)), a) {
      StagesCommute(j, old(m.At(a)), a);
    }
  }

  /** After a load the loop over the images did not check, they stand in memory whole exactly when every
      word that did not arrive was there already. */
  lemma ImagesStandIff(j: Job, before: nat -> word)
    requires j.Sane() && LoadResult(j) == Loaded
    ensures (forall a: nat | InAudio(a) :: Contents(j, before(a), a) == j.audio.value[a - AUDIO_BASE])
            <==> forall a: nat | InAudio(a) && !Through(a - AUDIO_BASE, j.audioOut) ::
                   before(a) == j.audio.value[a - AUDIO_BASE]
    ensures (forall a: nat | InVideo(a) :: Contents(j, before(a), a) == j.video.value[a - VIDEO_BASE])
            <==> forall a: nat | InVideo(a) && !Through(a - VIDEO_BASE, j.videoOut) ::
                   before(a) == j.video.value[a - VIDEO_BASE]
  {
    forall a: nat | InAudio(a)
      ensures Contents(j, before(a), a)
              == if Through(a - AUDIO_BASE, j.audioOut) then j.audio.value[a - AUDIO_BASE] else before(a)
    {
      RegionsFit(j, a);
    }
    forall a: nat | InVideo(a)
      ensures Contents(j, before(a), a)
              == if Through(a - VIDEO_BASE, j.videoOut) then j.video.value[a - VIDEO_BASE] else before(a)
    {
      RegionsFit(j, a);
    }
  }

  /** When nothing is cut short the images stand in memory whole, whatever was there before. */
  lemma LoadedWhole(j: Job, before: word, a: nat)
    requires j.Sane() && LoadResult(j) == Loaded
    requires forall k :: j.audioOut(k).Whole? && j.videoOut(k).Whole?
    ensures InAudio(a) ==> Contents(j, before, a) == j.audio.value[a - AUDIO_BASE]
    ensures InVideo(a) ==> Contents(j, before, a) == j.video.value[a - VIDEO_BASE]
    ensures WIPE1 <= a < WIPE3 + WIPE3_WORDS ==> Contents(j, before, a) == 0
    ensures j.mark1.Whole? && a == 0x000BC425 ==> Contents(j, before, a) == 1
    ensures j.mark2.Whole? && a == 0x000BC424 ==> Contents(j, before, a) == 0
    ensures j.mark3.Whole? && a == 0x000BC801 ==> Contents(j, before, a) == 0
    ensures !InAudio(a) && !InVideo(a) && !IsMark(a) && !(WIPE1 <= a < WIPE3 + WIPE3_WORDS) ==>
              Contents(j, before, a) == before
  {
    RegionsFit(j, a);
  }
}
