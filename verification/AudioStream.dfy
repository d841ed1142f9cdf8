/**
 Audio from the child to the encoder: the rate the child reports, the frames the
 streaming loop keeps per tick, and the accumulator that cuts 20 ms chunks.
 */
module AudioStream {
  import opened Base
  import opened Arithmetic

  /** Samples in one frame of the shared output region. */
  const MAX_AUDIO: nat := 16384
  /** The accumulator's drop cap: 1.25 s of 48 kHz stereo. */
  const MAX_AUDIO_ACC: nat := 48000 * 2 * 5 / 4
  const PASSTHROUGH_MIN := 8000.0
  const PASSTHROUGH_MAX := 96000.0
  const TARGET_RATE := 48000.0

  predicate InBand(rate: int) { 8000 <= rate <= 96000 }

  // ── The reported rate ──────────────────────────────────────────────

  predicate Passes(rate: real) { PASSTHROUGH_MIN <= rate <= PASSTHROUGH_MAX }

  lemma RoundedInBand(rate: real)
    requires Passes(rate)
    ensures InBand(Round(rate))
  {
  }

  /** The child's audio rate policy; `published` is what the server reads. */
  class RateReporter {
    const passthrough: bool
    var reported: real
    var published: int
    var windowSamples: nat

    predicate Valid()
      reads this
    {
      InBand(published) && (passthrough ==> Passes(reported) && published == Round(reported))
    }

    constructor (native: real)
      ensures Valid() && windowSamples == 0 && passthrough == Passes(native)
      ensures published == if Passes(native) then Round(native) else 48000
    {
      passthrough := Passes(native);
      reported := if Passes(native) then native else TARGET_RATE;
      published := Round(if Passes(native) then native else TARGET_RATE);
      windowSamples := 0;
      if Passes(native) {
        RoundedInBand(native);
      }
    }

    /** One frame of `samples` interleaved stereo samples, `elapsed` seconds into the window. */
    method Report(samples: nat, elapsed: real)
      requires Valid()
      modifies this
      ensures Valid()
      ensures !passthrough ==> published == 48000 && windowSamples == old(windowSamples)
      ensures passthrough ==>
        var counted := old(windowSamples) + samples / 2;
        && windowSamples == (if elapsed >= 1.0 then 0 else counted)
        && reported == (if elapsed >= 1.0 && Passes(counted as real / elapsed)
                           && (counted as real / elapsed - old(reported) > old(reported) * 0.02
                               || old(reported) - counted as real / elapsed > old(reported) * 0.02)
                        then counted as real / elapsed else old(reported))
    {
      if passthrough {
        windowSamples := windowSamples + samples / 2;
        if elapsed >= 1.0 {
          var measured := windowSamples as real / elapsed;
          var drift := if measured >= reported then measured - reported else reported - measured;
          if Passes(measured) && drift > reported * 0.02 {
            RoundedInBand(measured);
            reported := measured;
            published := Round(reported);
          }
          windowSamples := 0;
        }
      } else {
        published := 48000;
      }
    }
  }

  // ── The accumulator ────────────────────────────────────────────────

  function Concat(parts: seq<seq<Sample>>): (r: seq<Sample>) {
    if parts == [] then [] else parts[0] + Concat(parts[1..])
  }

  lemma {:induction false} ConcatAppend(a: seq<seq<Sample>>, b: seq<seq<Sample>>)
    ensures Concat(a + b) == Concat(a) + Concat(b)
  {
    if a == [] {
      assert a + b == b;
    } else {
      assert (a + b)[1..] == a[1..] + b;
      ConcatAppend(a[1..], b);
    }
  }

  lemma ConcatHead(x: seq<Sample>, more: seq<seq<Sample>>, rest: seq<Sample>)
    ensures Concat([x] + more) + rest == x + (Concat(more) + rest)
  {
    assert ([x] + more)[1..] == more;
  }

  lemma ConcatFew(x: seq<Sample>, y: seq<Sample>)
    ensures Concat([x]) == x && Concat([x, y]) == x + y
  {
    assert [x][1..] == [] && [x, y][1..] == [y];
    assert Concat([y]) == y by { assert [y][1..] == []; }
  }

  /** 20 ms of interleaved samples. */
  function ChunkLen(rate: nat, channels: nat): nat { Round(rate as real * 0.02) * channels }

  function Capped(buf: seq<Sample>): seq<Sample> {
    if |buf| > MAX_AUDIO_ACC then buf[|buf| - MAX_AUDIO_ACC..] else buf
  }

  /** The cap drops the oldest samples, and no more than it must. */
  lemma CappedIsTheEnd(buf: seq<Sample>)
    ensures |Capped(buf)| == Min(|buf|, MAX_AUDIO_ACC)
    ensures buf == buf[..|buf| - |Capped(buf)|] + Capped(buf)
  {
  }

  function Chunks(buf: seq<Sample>, n: nat): seq<seq<Sample>>
    requires n > 0
    decreases |buf|
  {
    if |buf| < n then [] else [buf[..n]] + Chunks(buf[n..], n)
  }

  function Rest(buf: seq<Sample>, n: nat): seq<Sample>
    requires n > 0
    decreases |buf|
  {
    if |buf| < n then buf else Rest(buf[n..], n)
  }

  lemma ChunksStep(before: seq<seq<Sample>>, buf: seq<Sample>, n: nat)
    requires 0 < n <= |buf|
    ensures before + Chunks(buf, n) == before + [buf[..n]] + Chunks(buf[n..], n)
    ensures Rest(buf, n) == Rest(buf[n..], n)
  {
  }

  lemma {:induction false} ChunksRejoin(buf: seq<Sample>, n: nat)
    requires n > 0
    ensures Concat(Chunks(buf, n)) + Rest(buf, n) == buf
    decreases |buf|
  {
    if |buf| >= n {
      ChunksRejoin(buf[n..], n);
      ConcatHead(buf[..n], Chunks(buf[n..], n), Rest(buf[n..], n));
      assert buf == buf[..n] + buf[n..];
    }
  }

  lemma {:induction false} ChunksAreWhole(buf: seq<Sample>, n: nat)
    requires n > 0
    ensures |Rest(buf, n)| < n
    ensures forall c :: c in Chunks(buf, n) ==> |c| == n
    decreases |buf|
  {
    if |buf| >= n {
      ChunksAreWhole(buf[n..], n);
    }
  }

  /** Cutting loses nothing, keeps order, and leaves less than a chunk. */
  lemma ChunksSplit(buf: seq<Sample>, n: nat)
    requires n > 0
    ensures Concat(Chunks(buf, n)) + Rest(buf, n) == buf
    ensures |Rest(buf, n)| < n
    ensures forall c :: c in Chunks(buf, n) ==> |c| == n
  {
    ChunksRejoin(buf, n);
    ChunksAreWhole(buf, n);
  }

  lemma ChunkLenIs(rate: nat, channels: nat)
    ensures ChunkLen(rate, channels) == (rate + 25) / 50 * channels
  {
    var q := (rate + 25) / 50;
    assert rate as real * 0.02 + 0.5 == (rate + 25) as real / 50.0;
    assert q as real <= (rate + 25) as real / 50.0 < (q + 1) as real;
  }

  lemma ChunkLenPositive(rate: nat, channels: nat)
    requires channels > 0
    ensures ChunkLen(rate, channels) > 0 <==> rate >= 25
  {
    ChunkLenIs(rate, channels);
    MulLe(channels, 1, (rate + 25) / 50);
  }

  /** What is left of `len` buffered samples after `n` rounds of the chunking loop. */
  function Left(len: nat, chunk: nat, n: nat): nat {
    if n == 0 then len
    else if Left(len, chunk, n - 1) >= chunk then Left(len, chunk, n - 1) - chunk
    else Left(len, chunk, n - 1)
  }

  lemma {:induction false} LeftShrinks(len: nat, chunk: nat, n: nat)
    ensures chunk == 0 ==> Left(len, chunk, n) == len
    ensures chunk > 0 && Left(len, chunk, n) >= chunk ==> Left(len, chunk, n) <= len - n
  {
    if n > 0 {
      LeftShrinks(len, chunk, n - 1);
    }
  }

  /** The chunking loop ends, on any buffer, exactly for rates of at least 25 Hz: below that
      a chunk is empty and the guard stays true for ever. */
  lemma ChunkingEndsIff(rate: nat, channels: nat, len: nat)
    requires channels > 0
    ensures (exists n :: Left(len, ChunkLen(rate, channels), n) < ChunkLen(rate, channels)) <==> rate >= 25
  {
    var chunk := ChunkLen(rate, channels);
    ChunkLenPositive(rate, channels);
    if rate >= 25 {
      LeftShrinks(len, chunk, len + 1);
      assert Left(len, chunk, len + 1) < chunk;
    }
  }

  lemma StereoChunk(rate: nat)
    requires InBand(rate)
    ensures 320 <= ChunkLen(rate, 2) <= 3840 && ChunkLen(rate, 2) % 2 == 0
  {
    ChunkLenIs(rate, 2);
  }

  // ── The streaming loop's audio side ────────────────────────────────

  datatype CoreFrame = CoreFrame(audio: seq<Sample>, sampleRate: nat)

  /** The encoder's rate, the accumulator, and every chunk handed to the encoder. */
  datatype Audio = Audio(rate: nat, acc: seq<Sample>, pushed: seq<seq<Sample>>)

  /** The audio of the last two drained frames. */
  function Kept(frames: seq<CoreFrame>): seq<Sample> {
    if |frames| == 0 then []
    else if |frames| == 1 then frames[0].audio
    else frames[|frames| - 2].audio + frames[|frames| - 1].audio
  }

  /** The encoder is rebuilt on a rate change of more than 5%, if that succeeds. */
  function Retuned(rate: nat, target: nat, rebuilds: bool): nat {
    if target > 0 && rate > 0 && rebuilds
       && (20 * (target - rate) > rate || 20 * (rate - target) > rate)
    then target else rate
  }

  function Pushed(a: Audio, audio: seq<Sample>): Audio
    requires ChunkLen(a.rate, 2) > 0
  {
    var buf, n := Capped(a.acc + audio), ChunkLen(a.rate, 2);
    a.(pushed := a.pushed + Chunks(buf, n), acc := Rest(buf, n))
  }

  function Ticked(a: Audio, frames: seq<CoreFrame>, rebuilds: bool): Audio
    requires InBand(a.rate) && Sound(frames)
  {
    if frames == [] then a
    else
      var tuned := a.(rate := Retuned(a.rate, frames[|frames| - 1].sampleRate, rebuilds));
      StereoChunk(tuned.rate);
      if Kept(frames) == [] then tuned else Pushed(tuned, Kept(frames))
  }

  /** What the bridge can deliver: frames within the shared buffer, whole stereo
      pairs, rates as the child reports them. */
  predicate Sound(frames: seq<CoreFrame>) {
    forall f :: f in frames ==>
      |f.audio| <= MAX_AUDIO && |f.audio| % 2 == 0 && (f.sampleRate == 0 || InBand(f.sampleRate))
  }

  class AudioLoop {
    var rate: nat
    var acc: seq<Sample>
    ghost var pushed: seq<seq<Sample>>

    ghost function State(): Audio
      reads this
    {
      Audio(rate, acc, pushed)
    }

    constructor (rate: nat)
      ensures State() == Audio(rate, [], [])
    {
      this.rate, acc, pushed := rate, [], [];
    }

    method PushAudio(audio: seq<Sample>)
      requires ChunkLen(rate, 2) > 0
      modifies this`acc, this`pushed
      ensures State() == Pushed(old(State()), audio)
    {
      var buf := acc + audio;
      if |buf| > MAX_AUDIO_ACC {
        var excess := |buf| - MAX_AUDIO_ACC;
        buf := buf[excess..];
      }
      var chunk := Round(rate as real * 0.02) * 2;
      ghost var all := buf;
      while |buf| >= chunk
        invariant pushed + Chunks(buf, chunk) == old(pushed) + Chunks(all, chunk)
        invariant Rest(buf, chunk) == Rest(all, chunk)
        decreases |buf|
      {
        ChunksStep(pushed, buf, chunk);
        pushed := pushed + [buf[..chunk]];
        buf := buf[chunk..];
      }
      acc := buf;
    }

    /** Drains the received frames: the last two frames' audio survives. */
    method DrainAudio(frames: seq<CoreFrame>) returns (audio: seq<Sample>)
      ensures audio == Kept(frames)
    {
      var kept: seq<seq<Sample>> := [];
      var i := 0;
      while i < |frames|
        invariant 0 <= i <= |frames|
        invariant i == 0 ==> kept == []
        invariant i == 1 ==> kept == [frames[0].audio]
        invariant i >= 2 ==> kept == [frames[i - 2].audio, frames[i - 1].audio]
      {
        kept := kept + [frames[i].audio];
        if |kept| > 2 {
          kept := kept[1..];
        }
        i := i + 1;
      }
      audio := [];
      i := 0;
      while i < |kept|
        invariant 0 <= i <= |kept|
        invariant audio == Concat(kept[..i])
      {
        ConcatAppend(kept[..i], [kept[i]]);
        assert kept[..i + 1] == kept[..i] + [kept[i]];
        audio := audio + kept[i];
        i := i + 1;
      }
      assert kept[..i] == kept;
      if |frames| >= 2 {
        ConcatFew(kept[0], kept[1]);
      } else if |frames| == 1 {
        ConcatFew(kept[0], kept[0]);
      }
    }

    method Tick(frames: seq<CoreFrame>, rebuilds: bool)
      requires InBand(rate) && Sound(frames)
      modifies this
      ensures State() == Ticked(old(State()), frames, rebuilds)
    {
      if frames == [] {
        return;
      }
      var audio := DrainAudio(frames);
      var target := frames[|frames| - 1].sampleRate;
      if target > 0 {
        var mismatch := rate > 0 && (20 * (target - rate) > rate || 20 * (rate - target) > rate);
        if mismatch && rebuilds {
          rate := target;
        }
      }
      StereoChunk(rate);
      if audio != [] {
        PushAudio(audio);
      }
    }
  }

  // ── Whole runs ─────────────────────────────────────────────────────

  datatype TickInput = TickInput(frames: seq<CoreFrame>, rebuilds: bool)

  ghost predicate AllSound(ticks: seq<TickInput>) {
    forall t :: t in ticks ==> Sound(t.frames)
  }

  ghost predicate Good(a: Audio) {
    && InBand(a.rate)
    && |a.acc| % 2 == 0 && |a.acc| <= 3840
    && forall c :: c in a.pushed ==> 320 <= |c| <= 3840 && |c| % 2 == 0
  }

  function Received(ticks: seq<TickInput>): seq<Sample> {
    if ticks == [] then [] else Kept(ticks[0].frames) + Received(ticks[1..])
  }

  function Play(a: Audio, ticks: seq<TickInput>): Audio
    requires InBand(a.rate) && AllSound(ticks)
    decreases |ticks|
  {
    if ticks == [] then a
    else
      assert AllSound(ticks[1..]);
      assert Sound(ticks[0].frames);
      Play(Ticked(a, ticks[0].frames, ticks[0].rebuilds), ticks[1..])
  }

  lemma KeptBounds(frames: seq<CoreFrame>)
    requires Sound(frames)
    ensures |Kept(frames)| <= 2 * MAX_AUDIO && |Kept(frames)| % 2 == 0
  {
    if |frames| > 0 {
      assert frames[|frames| - 1] in frames;
    }
    if |frames| > 1 {
      assert frames[|frames| - 2] in frames;
    }
  }

  lemma {:induction false} RestParity(buf: seq<Sample>, n: nat)
    requires n > 0 && n % 2 == 0 && |buf| % 2 == 0
    ensures |Rest(buf, n)| % 2 == 0
    decreases |buf|
  {
    if |buf| >= n {
      RestParity(buf[n..], n);
    }
  }

  /** Everything handed to the encoder, then what still waits. */
  function Heard(a: Audio): seq<Sample> { Concat(a.pushed) + a.acc }

  lemma Associates(a: seq<Sample>, b: seq<Sample>, c: seq<Sample>)
    ensures a + b + c == a + (b + c)
  {
  }

  lemma HeardGrows(pushed: seq<seq<Sample>>, acc: seq<Sample>, audio: seq<Sample>, n: nat)
    requires n > 0
    ensures Concat(pushed + Chunks(acc + audio, n)) + Rest(acc + audio, n) == Concat(pushed) + acc + audio
  {
    var p, c, r := Concat(pushed), Concat(Chunks(acc + audio, n)), Rest(acc + audio, n);
    ChunksSplit(acc + audio, n);
    ConcatAppend(pushed, Chunks(acc + audio, n));
    Associates(p, c, r);
    Associates(p, acc, audio);
  }

  /** A push never meets the drop cap, and cuts whole stereo chunks of 20 ms. */
  lemma PushIsLossless(a: Audio, audio: seq<Sample>)
    requires Good(a) && |audio| <= 2 * MAX_AUDIO && |audio| % 2 == 0
    ensures ChunkLen(a.rate, 2) > 0
    ensures var b := Pushed(a, audio);
      && Good(b) && Capped(a.acc + audio) == a.acc + audio
      && Heard(b) == Heard(a) + audio
      && a.pushed <= b.pushed
      && forall i :: |a.pushed| <= i < |b.pushed| ==> |b.pushed[i]| == ChunkLen(a.rate, 2)
  {
    StereoChunk(a.rate);
    var buf, n := a.acc + audio, ChunkLen(a.rate, 2);
    ChunksSplit(buf, n);
    RestParity(buf, n);
    HeardGrows(a.pushed, a.acc, audio, n);
  }

  lemma TickIsLossless(a: Audio, frames: seq<CoreFrame>, rebuilds: bool)
    requires Good(a) && Sound(frames)
    ensures Good(Ticked(a, frames, rebuilds))
    ensures Heard(Ticked(a, frames, rebuilds)) == Heard(a) + Kept(frames)
  {
    KeptBounds(frames);
    assert Heard(a) + [] == Heard(a);
    if frames != [] {
      var last := frames[|frames| - 1];
      assert last in frames;
      var tuned := a.(rate := Retuned(a.rate, last.sampleRate, rebuilds));
      PushIsLossless(tuned, Kept(frames));
    }
  }

  lemma {:induction false} PlayIsLossless(a: Audio, ticks: seq<TickInput>)
    requires Good(a) && AllSound(ticks)
    ensures Good(Play(a, ticks)) && Heard(Play(a, ticks)) == Heard(a) + Received(ticks)
    decreases |ticks|
  {
    if ticks == [] {
      assert Heard(a) + [] == Heard(a);
    } else {
      assert Sound(ticks[0].frames) && AllSound(ticks[1..]);
      var next := Ticked(a, ticks[0].frames, ticks[0].rebuilds);
      TickIsLossless(a, ticks[0].frames, ticks[0].rebuilds);
      PlayIsLossless(next, ticks[1..]);
      Associates(Heard(a), Kept(ticks[0].frames), Received(ticks[1..]));
    }
  }

  /** Over every run with an encoder present, the emitted chunks followed by the
      accumulator are all kept audio in order; every chunk and the accumulator hold
      whole stereo pairs, and no chunk exceeds 20 ms at 96 kHz. */
  lemma StreamIsLossless(rate: nat, ticks: seq<TickInput>)
    requires InBand(rate) && AllSound(ticks)
    ensures var end := Play(Audio(rate, [], []), ticks);
      && Heard(end) == Received(ticks)
      && |end.acc| % 2 == 0
      && InBand(end.rate)
      && forall c :: c in end.pushed ==> 320 <= |c| <= 3840 && |c| % 2 == 0
  {
    PlayIsLossless(Audio(rate, [], []), ticks);
  }

  // ── The encoder's rate ─────────────────────────────────────────────

  predicate WithinFivePercent(target: nat, rate: nat) { 20 * (target - rate) <= rate && 20 * (rate - target) <= rate }

  /** A tick changes the encoder's rate only to that of the last frame, and only if they are
      more than five percent apart; unless its rebuild fails they no longer are afterwards. */
  lemma EncoderFollowsTheRate(a: Audio, frames: seq<CoreFrame>, rebuilds: bool)
    requires InBand(a.rate) && Sound(frames) && frames != []
    ensures var r, target := Ticked(a, frames, rebuilds).rate, frames[|frames| - 1].sampleRate;
      && (r != a.rate ==> r == target && !WithinFivePercent(target, a.rate))
      && (rebuilds && target > 0 ==> WithinFivePercent(target, r))
  {
  }

  /** Ticks at which the encoder is rebuilt for another rate. */
  function Rebuilds(a: Audio, ticks: seq<TickInput>): nat
    requires InBand(a.rate) && AllSound(ticks)
    decreases |ticks|
  {
    if ticks == [] then 0
    else
      assert AllSound(ticks[1..]) && Sound(ticks[0].frames);
      var b := Ticked(a, ticks[0].frames, ticks[0].rebuilds);
      (if b.rate != a.rate then 1 else 0) + Rebuilds(b, ticks[1..])
  }

  predicate WithinTwoPercent(rate: nat, actual: nat) { 50 * (rate - actual) <= actual && 50 * (actual - rate) <= actual }

  /** Every reported rate jitters by at most two percent around the actual one. */
  ghost predicate Jitters(ticks: seq<TickInput>, actual: nat) {
    forall t :: t in ticks ==> forall f :: f in t.frames ==> f.sampleRate == 0 || WithinTwoPercent(f.sampleRate, actual)
  }

  lemma JitterIsNoChange(r: nat, target: nat, actual: nat)
    requires WithinTwoPercent(r, actual) && WithinTwoPercent(target, actual)
    ensures WithinFivePercent(target, r)
  {
  }

  /** While reports only jitter around one rate the encoder is rebuilt at most once, and not at
      all if its rate is within the jitter already: it does not oscillate. */
  lemma {:induction false} JitterRebuildsOnce(a: Audio, ticks: seq<TickInput>, actual: nat)
    requires InBand(a.rate) && AllSound(ticks) && Jitters(ticks, actual)
    ensures Rebuilds(a, ticks) <= (if WithinTwoPercent(a.rate, actual) then 0 else 1)
    decreases |ticks|
  {
    if ticks != [] {
      var frames := ticks[0].frames;
      assert ticks[0] in ticks && AllSound(ticks[1..]) && Jitters(ticks[1..], actual);
      var b := Ticked(a, frames, ticks[0].rebuilds);
      JitterRebuildsOnce(b, ticks[1..], actual);
      if frames != [] {
        assert frames[|frames| - 1] in frames;
        EncoderFollowsTheRate(a, frames, ticks[0].rebuilds);
        if b.rate != a.rate && WithinTwoPercent(a.rate, actual) {
          JitterIsNoChange(a.rate, b.rate, actual);
        }
      }
    }
  }

  // ── What is kept ───────────────────────────────────────────────────

  /** All audio of some frames, in order. */
  function AllAudio(frames: seq<CoreFrame>): seq<Sample> {
    if frames == [] then [] else AllAudio(frames[..|frames| - 1]) + frames[|frames| - 1].audio
  }

  /** What a drain keeps is the end of what it was given: all of it if at most two frames were
      waiting, otherwise all but the earlier frames. */
  lemma KeptIsTheEnd(frames: seq<CoreFrame>)
    ensures |frames| <= 2 ==> Kept(frames) == AllAudio(frames)
    ensures |frames| > 2 ==> AllAudio(frames) == AllAudio(frames[..|frames| - 2]) + Kept(frames)
  {
    if |frames| == 1 {
      assert AllAudio(frames[..0]) == [];
    } else if |frames| >= 2 {
      var n := |frames| - 2;
      assert frames[..n + 1][..n] == frames[..n];
      Associates(AllAudio(frames[..n]), frames[n].audio, frames[n + 1].audio);
    }
  }

  function AllReceived(ticks: seq<TickInput>): seq<Sample> {
    if ticks == [] then [] else AllAudio(ticks[0].frames) + AllReceived(ticks[1..])
  }

  lemma {:induction false} NothingDropped(ticks: seq<TickInput>)
    requires forall t :: t in ticks ==> |t.frames| <= 2
    ensures Received(ticks) == AllReceived(ticks)
  {
    if ticks != [] {
      KeptIsTheEnd(ticks[0].frames);
      NothingDropped(ticks[1..]);
    }
  }

  /** If no tick finds more than two frames waiting, what was handed to the encoder and what
      still waits are together every sample of every frame, in order. */
  lemma EverySampleIsHeard(rate: nat, ticks: seq<TickInput>)
    requires InBand(rate) && AllSound(ticks) && forall t :: t in ticks ==> |t.frames| <= 2
    ensures Heard(Play(Audio(rate, [], []), ticks)) == AllReceived(ticks)
  {
    StreamIsLossless(rate, ticks);
    NothingDropped(ticks);
  }
}
