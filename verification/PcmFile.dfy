/**
  The durable PCM writer of helper/src/continuous_recording.cpp.  A disk is modelled by what running
  processes see and by what a crash may leave of it; the writer's state is checked after every
  single write, sync, truncation and rename, because a crash may come between any two of them.
*/
module PcmFile {
  import opened Prelude

  newtype Byte = x: int | 0 <= x < 256

  const MAXIMUM_FRAMES := 48_000 * 86_400

  /** The numeric fields of a recording context; the identifying ones never change. */
  datatype Context = Context(version: nat, frames: nat, elapsedMs: int, captureEndMs: int, finalizedMs: int)

  predicate Valid(c: Context) {
    && c.elapsedMs > 0 && c.frames <= MAXIMUM_FRAMES
    && (c.version == 1 ||
          (&& c.version == 2
           && (c.frames == 0 || c.captureEndMs >= c.elapsedMs)
           && (c.finalizedMs == 0 || c.finalizedMs >= c.captureEndMs)))
  }

  /** The text of a context file: an invalid context is written as an empty line. */
  datatype Text = Blank | Holds(context: Context)

  function Format(c: Context): Text {
    if Valid(c) then Holds(c) else Blank
  }

  datatype Seal = Seal(reason: string, partial: bool)

  /** `safe` leading bytes of the audio, one of `contexts` and one of `seals` survive a crash. */
  datatype Disk = Disk(
    audio: seq<Byte>, safe: nat,
    context: Option<Text>, contexts: set<Option<Text>>,
    seal: Option<Seal>, seals: set<Option<Seal>>)

  const EMPTY_DISK := Disk([], 0, None, {None}, None, {None})

  /** What may be found after a crash: unsynced bytes may be lost or turn to anything. */
  ghost predicate AfterCrash(d: Disk, r: Disk) {
    && d.safe <= |d.audio|
    && d.safe <= |r.audio| && r.audio[..d.safe] == d.audio[..d.safe] && r.safe == |r.audio|
    && r.context in d.contexts && r.contexts == {r.context}
    && r.seal in d.seals && r.seals == {r.seal}
  }

  /** A disk as it is found after a crash. */
  ghost predicate Settled(r: Disk) {
    r.safe == |r.audio| && r.contexts == {r.context} && r.seals == {r.seal}
  }

  /** A context names synced frames that equal the first frames of `sound`. */
  ghost predicate Names(d: Disk, sound: seq<Byte>, c: Context) {
    && Valid(c)
    && 4 * c.frames <= d.safe <= |d.audio|
    && 4 * c.frames <= |sound|
    && d.audio[..4 * c.frames] == sound[..4 * c.frames]
  }

  /** Every readable context a crash may leave names a synced prefix of `sound`. */
  ghost predicate Intact(d: Disk, sound: seq<Byte>) {
    d.safe <= |d.audio| && forall c :: Some(Holds(c)) in d.contexts ==> Names(d, sound, c)
  }

  /** No crash may leave an empty context file. */
  ghost predicate Readable(d: Disk) {
    Some(Blank) !in d.contexts
  }

  ghost predicate CrashSafe(d: Disk, sound: seq<Byte>) {
    Intact(d, sound) && Readable(d)
  }

  /** What recovery needs of a directory, and the frames it will keep. */
  ghost predicate Recoverable(r: Disk, sound: seq<Byte>) {
    && r.context.Some? && r.context.value.Holds? && Valid(r.context.value.context)
    && var n := 4 * r.context.value.context.frames; n <= |sound| && n <= |r.audio| && r.audio[..n] == sound[..n]
  }

  /** After a crash the context, if there is one, can be recovered and names a prefix of what was appended. */
  lemma CrashLeavesPrefix(d: Disk, sound: seq<Byte>, r: Disk)
    requires CrashSafe(d, sound) && AfterCrash(d, r) && r.context.Some?
    ensures Recoverable(r, sound) && CrashSafe(r, sound)
  {
    assert r.context.value.Holds?;
    var c := r.context.value.context;
    assert Names(d, sound, c);
    PrefixOfPrefix(r.audio, d.audio, d.safe, 4 * c.frames);
  }

  lemma PrefixOfPrefix(a: seq<Byte>, b: seq<Byte>, m: nat, n: nat)
    requires n <= m <= |a| && m <= |b| && a[..m] == b[..m]
    ensures a[..n] == b[..n]
  {
    assert a[..n] == a[..m][..n] && b[..n] == b[..m][..n];
  }

  lemma LongerSound(d: Disk, sound: seq<Byte>, more: seq<Byte>)
    requires Intact(d, sound)
    ensures Intact(d, sound + more)
  {
    forall c | Some(Holds(c)) in d.contexts ensures Names(d, sound + more, c) {
      assert Names(d, sound, c);
      assert (sound + more)[..4 * c.frames] == sound[..4 * c.frames];
    }
  }

  /** Appending bytes endangers nothing. */
  lemma AppendSafe(d: Disk, sound: seq<Byte>, bytes: seq<Byte>)
    requires Intact(d, sound)
    ensures Intact(d.(audio := d.audio + bytes), sound)
  {
    forall c | Some(Holds(c)) in d.contexts ensures Names(d.(audio := d.audio + bytes), sound, c) {
      assert Names(d, sound, c);
      assert (d.audio + bytes)[..4 * c.frames] == d.audio[..4 * c.frames];
    }
  }

  /** Nor does cutting the audio behind everything appended. */
  lemma TruncateSafe(d: Disk, sound: seq<Byte>)
    requires Intact(d, sound) && |sound| <= |d.audio| && d.audio[..|sound|] == sound
    ensures Intact(d.(audio := sound, safe := if d.safe < |sound| then d.safe else |sound|), sound)
  {
    forall c | Some(Holds(c)) in d.contexts ensures Names(d.(audio := sound, safe := if d.safe < |sound| then d.safe else |sound|), sound, c) {
      assert Names(d, sound, c);
    }
  }

  lemma SyncSafe(d: Disk, sound: seq<Byte>)
    requires Intact(d, sound)
    ensures Intact(d.(safe := |d.audio|), sound)
  {
    forall c | Some(Holds(c)) in d.contexts ensures Names(d.(safe := |d.audio|), sound, c) { assert Names(d, sound, c); }
  }

  /** The text of a context of everything appended may stand beside the old one, or replace it. */
  lemma CommitSafe(d: Disk, sound: seq<Byte>, c: Context)
    requires Intact(d, sound) && |sound| == 4 * c.frames <= d.safe && d.audio[..|sound|] == sound
    ensures var text := Some(Format(c));
      && Intact(d.(context := text, contexts := d.contexts + {text}), sound)
      && Intact(d.(context := text, contexts := {text}), sound)
  {
    var text := Some(Format(c));
    forall b | Some(Holds(b)) in d.contexts + {text}
      ensures Names(d.(context := text, contexts := d.contexts + {text}), sound, b) && Names(d.(context := text, contexts := {text}), sound, b)
    {
      if Some(Holds(b)) in d.contexts { assert Names(d, sound, b); }
    }
  }

  class ContinuousPcmFile {
    var disk: Disk
    var context: Context
    var open: bool
    ghost var sound: seq<Byte>         // the frames appended successfully, in order
    ghost var crashPoints: seq<Disk>   // the disk after every single operation
    ghost var faults: nat              // operations that have failed

    /** The file starts with exactly the appended frames, and every readable context that any crash
        so far would have left names a prefix of them. */
    ghost predicate Running()
      reads this
    {
      && |sound| == 4 * context.frames <= |disk.audio|
      && disk.audio[..|sound|] == sound
      && Intact(disk, sound)
      && AllIntact(crashPoints, sound)
      && (open ==> Started(context))
      && disk.seal in disk.seals
    }

    /** From point n on, a crash leaves a context that was there before or the text of the current one. */
    ghost predicate PointsWithin(n: nat, before: set<Option<Text>>)
      reads this
    {
      forall i :: n <= i < |crashPoints| ==> crashPoints[i].contexts <= before + {Some(Format(context))}
    }

    /** No partial frame follows the appended ones, as long as no append has failed. */
    ghost predicate Aligned()
      reads this
    {
      open && |disk.audio| == |sound|
    }

    constructor (context: Context)
      ensures this.context == context && !open && sound == [] && disk == EMPTY_DISK && crashPoints == [] && faults == 0
    {
      this.context, disk, open := context, EMPTY_DISK, false;
      sound, crashPoints, faults := [], [], 0;
    }

    // ------------------------------------------------------------ single operations

    ghost method Note()
      requires Intact(disk, sound) && AllIntact(crashPoints, sound)
      modifies this`crashPoints
      ensures crashPoints == old(crashPoints) + [disk]
      ensures AllIntact(crashPoints, sound)
    {
      crashPoints := crashPoints + [disk];
    }

    /** `WriteBytes`: any number of partial writes; a failure leaves some of the bytes. */
    method WriteBytes(bytes: seq<Byte>) returns (ok: bool)
      requires Running()
      modifies this`disk, this`crashPoints, this`faults
      ensures Running() && old(crashPoints) <= crashPoints
      ensures PointsAre(|old(crashPoints)|, crashPoints, old(disk.contexts))
      ensures exists n :: 0 <= n <= |bytes| && (ok ==> n == |bytes|) && disk == old(disk).(audio := old(disk.audio) + bytes[..n])
      ensures faults == old(faults) + if ok then 0 else 1
    {
      hide Intact;
      var written := 0;
      assert disk == old(disk).(audio := old(disk.audio) + bytes[..0]);
      while written < |bytes|
        invariant 0 <= written <= |bytes|
        invariant Running() && old(crashPoints) <= crashPoints && faults == old(faults)
        invariant PointsAre(|old(crashPoints)|, crashPoints, old(disk.contexts))
        invariant disk == old(disk).(audio := old(disk.audio) + bytes[..written])
      {
        var count: int := *;
        if count <= 0 || count > |bytes| - written { faults := faults + 1; return false; }
        AppendSafe(disk, sound, bytes[written..written + count]);
        assert bytes[..written] + bytes[written..written + count] == bytes[..written + count];
        disk := disk.(audio := disk.audio + bytes[written..written + count]);
        Note();
        written := written + count;
      }
      return true;
    }

    /** `fsync` of the audio. */
    method SyncAudio() returns (ok: bool)
      requires Running()
      modifies this`disk, this`crashPoints, this`faults
      ensures Running() && old(crashPoints) <= crashPoints
      ensures PointsWithin(|old(crashPoints)|, old(disk.contexts))
      ensures disk == if ok then old(disk).(safe := |old(disk.audio)|) else old(disk)
      ensures faults == old(faults) + if ok then 0 else 1
    {
      hide Intact;
      ok := *;
      if !ok { faults := faults + 1; return; }
      SyncSafe(disk, sound);
      disk := disk.(safe := |disk.audio|);
      Note();
    }

    /** `ftruncate` to the appended frames. */
    method Truncate(n: nat) returns (ok: bool)
      requires Running() && n == |sound|
      modifies this`disk, this`crashPoints, this`faults
      ensures Running() && old(crashPoints) <= crashPoints
      ensures PointsWithin(|old(crashPoints)|, old(disk.contexts))
      ensures ok ==> disk == old(disk).(audio := sound, safe := if old(disk.safe) < n then old(disk.safe) else n)
      ensures !ok ==> disk == old(disk)
      ensures faults == old(faults) + if ok then 0 else 1
    {
      hide Intact;
      ok := *;
      if !ok { faults := faults + 1; return; }
      TruncateSafe(disk, sound);
      disk := disk.(audio := disk.audio[..n], safe := if disk.safe < n then disk.safe else n);
      Note();
    }

    /** `WriteMetadata` of the context: a synced temporary file, a rename, a directory sync.  A context
        that is not valid is written as an empty file. */
    method CommitContext() returns (ok: bool)
      requires Running() && disk.safe >= |sound|
      modifies this`disk, this`crashPoints, this`faults
      ensures Running() && old(crashPoints) <= crashPoints
      ensures PointsWithin(|old(crashPoints)|, old(disk.contexts))
      ensures disk.audio == old(disk.audio) && disk.safe == old(disk.safe) && disk.seal == old(disk.seal) && disk.seals == old(disk.seals)
      ensures ok ==> disk.context == Some(Format(context)) && disk.contexts == {disk.context}
      ensures !ok ==> disk.contexts == old(disk.contexts) || disk.contexts == old(disk.contexts) + {Some(Format(context))}
      ensures faults == old(faults) + if ok then 0 else 1
    {
      hide Intact, Format;
      var prepared: bool := *;
      if !prepared { faults := faults + 1; return false; }
      var text := Some(Format(context));
      CommitSafe(disk, sound, context);
      ghost var before := disk;
      disk := disk.(context := text, contexts := disk.contexts + {text});
      Note();
      ok := *;
      if !ok { faults := faults + 1; return; }
      assert disk.(contexts := {text}) == before.(context := text, contexts := {text});
      disk := disk.(contexts := {text});
      Note();
    }

    method CommitSeal(seal: Seal) returns (ok: bool)
      requires Running()
      modifies this`disk, this`crashPoints, this`faults
      ensures Running() && old(crashPoints) <= crashPoints
      ensures PointsWithin(|old(crashPoints)|, old(disk.contexts))
      ensures disk == old(disk).(seal := disk.seal, seals := disk.seals)
      ensures ok ==> disk.seal == Some(seal) && disk.seals == {Some(seal)}
      ensures faults == old(faults) + if ok then 0 else 1
    {
      var prepared: bool := *;
      if !prepared { faults := faults + 1; return false; }
      SealSafe(disk, sound, Some(seal), disk.seals + {Some(seal)});
      hide Intact;
      disk := disk.(seal := Some(seal), seals := disk.seals + {Some(seal)});
      Note();
      ok := *;
      if !ok { faults := faults + 1; return; }
      SealSafe(disk, sound, Some(seal), {Some(seal)});
      disk := disk.(seals := {Some(seal)});
      Note();
    }

    // ------------------------------------------------------------ the operations of the class

    /** `Open`: an empty audio file and its first checkpoint. */
    method Open() returns (ok: bool)
      requires sound == [] && disk == EMPTY_DISK && crashPoints == [] && faults == 0
      modifies this
      ensures ok <==> (Valid(context) && context.frames == 0 && !old(open) && faults == 0)
      ensures context == old(context) && sound == []
      ensures context.frames == 0 && !old(open) ==> Running()
      ensures PointsWithin(0, {None}) && disk.contexts <= {None, Some(Format(context))}
      ensures !Valid(context) ==> crashPoints == [] && disk == EMPTY_DISK
      ensures ok ==> Aligned() && disk.context == Some(Holds(context)) && disk.contexts == {disk.context}
    {
      EmptyIntact();
      hide Intact;
      if !Valid(context) || context.frames != 0 || open { return false; }
      var created: bool := *;
      if !created { faults := faults + 1; return false; }
      open := true;
      ok := Checkpoint();
    }

    /** `Append`: the frames are part of the recording exactly when it returns true.  It takes any
        capture end, and does not ask whether the context stays valid. */
    method Append(samples: seq<Byte>, frames: nat, maximumBytes: nat, captureEndMs: int) returns (ok: bool)
      requires Running() && Aligned() && |samples| == 4 * frames
      modifies this
      ensures Running() && old(crashPoints) <= crashPoints && open
      ensures PointsAre(|old(crashPoints)|, crashPoints, old(disk.contexts))
      ensures ok <==> Fits(old(context), frames, maximumBytes) && faults == old(faults)
      ensures ok ==> Aligned() && sound == old(sound) + samples && context == Longer(old(context), frames, captureEndMs)
      ensures !ok ==> sound == old(sound) && context == old(context)
      ensures disk.contexts == old(disk.contexts) && disk.safe == old(disk.safe)
    {
      hide Intact;
      if frames == 0 || frames > 48000 { return false; }
      if (context.frames + frames) * 4 > maximumBytes || context.frames + frames > MAXIMUM_FRAMES { return false; }
      ok := WriteBytes(samples);
      if !ok { return; }
      assert disk.audio == sound + samples;
      LongerSound(disk, sound, samples);
      AllLonger(crashPoints, sound, samples);
      sound := sound + samples;
      context := context.(frames := context.frames + frames);
      if context.version == 2 { context := context.(captureEndMs := captureEndMs); }
    }

    /** `Checkpoint`: the audio first, then the context that names it. */
    method Checkpoint() returns (ok: bool)
      requires Running() && open
      modifies this`disk, this`crashPoints, this`faults
      ensures Running() && old(crashPoints) <= crashPoints
      ensures PointsWithin(|old(crashPoints)|, old(disk.contexts))
      ensures disk.audio == old(disk.audio) && disk.seal == old(disk.seal) && disk.seals == old(disk.seals)
      ensures ok ==> disk.context == Some(Format(context)) && disk.contexts == {disk.context} && disk.safe == |disk.audio|
      ensures !ok ==> disk.contexts == old(disk.contexts) || disk.contexts == old(disk.contexts) + {Some(Format(context))}
      ensures if ok then faults == old(faults) else faults > old(faults)
    {
      hide Intact, Format;
      ok := SyncAudio();
      if !ok { return; }
      ok := CommitContext();
    }

    /** `Finish`: cut off whatever follows the appended frames, checkpoint, seal. */
    method Finish(reason: string, partial: bool, recovered: bool, nowMs: int) returns (ok: bool)
      requires Running() && open
      modifies this
      ensures Running() && old(crashPoints) <= crashPoints && sound == old(sound)
      ensures context == if ReasonOk(reason) then Finished(old(context), recovered, nowMs) else old(context)
      ensures PointsWithin(|old(crashPoints)|, old(disk.contexts))
      ensures ok ==> disk.audio == sound && disk.safe == |sound| && disk.seal == Some(Seal(reason, partial))
      ensures ok ==> disk.context == Some(Format(context)) && disk.contexts == {disk.context}
      ensures !ok ==> faults > old(faults) || !ReasonOk(reason)
      ensures forall t :: t in disk.contexts ==> t in old(disk.contexts) || t == Some(Format(context))
    {
      hide Intact, Format;
      if !ReasonOk(reason) { return false; }
      if context.version == 2 {
        context := context.(finalizedMs := if !recovered && nowMs >= context.captureEndMs then nowMs else 0);
      }
      ok := Truncate(context.frames * 4);
      if !ok { return; }
      ok := Checkpoint();
      if !ok { return; }
      ok := CommitSeal(Seal(reason, partial));
    }

    /** One frame of a writer's loop: append, and at every whole second a checkpoint.  At such a second
        every crash leaves a recoverable prefix if and only if the capture end was acceptable. */
    method WriteFrame(samples: seq<Byte>, frames: nat, maximumBytes: nat, captureEndMs: int) returns (ok: bool)
      requires Running() && Aligned() && |samples| == 4 * frames
      modifies this
      ensures Running() && old(crashPoints) <= crashPoints
      ensures open
      ensures ok ==> Aligned() && sound == old(sound) + samples && context == Longer(old(context), frames, captureEndMs)
      ensures ok && context.frames % 48000 == 0 ==>
        (EveryCrashRecoverable(disk, sound) <==> EndAcceptable(old(context), captureEndMs))
      ensures ok && context.frames % 48000 == 0 && !EndAcceptable(old(context), captureEndMs) ==> disk.contexts == {Some(Blank)}
      ensures EndAcceptable(old(context), captureEndMs) && Readable(old(disk)) ==>
        Readable(disk) && PointsReadable(|old(crashPoints)|, crashPoints)
      ensures !ok ==> sound == old(sound) || sound == old(sound) + samples
      ensures !ok ==> context == old(context) || context == Longer(old(context), frames, captureEndMs)
      ensures context != old(context) ==> Fits(old(context), frames, maximumBytes)
    {
      hide Intact, Format, EveryCrashRecoverable, Valid, EndAcceptable, Started;
      ghost var was := context;
      ok := Append(samples, frames, maximumBytes, captureEndMs);
      if ok { EndDecides(was, frames, maximumBytes, captureEndMs); }
      OnlyReadable(crashPoints, |old(crashPoints)|, old(disk.contexts));
      if !ok || context.frames % 48000 != 0 { return; }
      ghost var points := |crashPoints|;
      ok := Checkpoint();
      FormatMeaning(context);
      StillReadable(crashPoints, |old(crashPoints)|, points, old(disk.contexts), Some(Format(context)));
      if ok { CheckpointDecides(disk, sound, context); }
    }
  }

  /** Every crash point is intact. */
  ghost predicate AllIntact(points: seq<Disk>, sound: seq<Byte>) {
    forall i :: 0 <= i < |points| ==> Intact(points[i], sound)
  }

  /** From point n on, contexts are among the given ones. */
  ghost predicate PointsAre(n: nat, points: seq<Disk>, contexts: set<Option<Text>>) {
    forall i :: n <= i < |points| ==> points[i].contexts == contexts
  }

  ghost predicate PointsReadable(n: nat, points: seq<Disk>) {
    forall i :: n <= i < |points| ==> Readable(points[i])
  }

  lemma AllLonger(points: seq<Disk>, sound: seq<Byte>, more: seq<Byte>)
    requires AllIntact(points, sound)
    ensures AllIntact(points, sound + more)
  {
    forall i | 0 <= i < |points| ensures Intact(points[i], sound + more) { LongerSound(points[i], sound, more); }
  }

  lemma SealSafe(d: Disk, sound: seq<Byte>, seal: Option<Seal>, seals: set<Option<Seal>>)
    requires Intact(d, sound)
    ensures Intact(d.(seal := seal, seals := seals), sound)
    ensures Intact(d.(seals := seals), sound)
  {
    forall c | Some(Holds(c)) in d.contexts
      ensures Names(d.(seal := seal, seals := seals), sound, c) && Names(d.(seals := seals), sound, c)
    {
      assert Names(d, sound, c);
    }
  }

  lemma EmptyIntact()
    ensures Intact(EMPTY_DISK, [])
  {
  }

  lemma FormatMeaning(c: Context)
    ensures Format(c) == Blank <==> !Valid(c)
  {
  }

  lemma OnlyReadable(points: seq<Disk>, n: nat, contexts: set<Option<Text>>)
    requires PointsAre(n, points, contexts)
    ensures Some(Blank) !in contexts ==> PointsReadable(n, points)
  {
  }

  lemma StillReadable(points: seq<Disk>, n: nat, m: nat, contexts: set<Option<Text>>, text: Option<Text>)
    requires n <= m <= |points|
    requires forall i :: n <= i < m ==> points[i].contexts == contexts
    requires forall i :: m <= i < |points| ==> points[i].contexts <= contexts + {text}
    ensures Some(Blank) !in contexts && text != Some(Blank) ==> PointsReadable(n, points)
  {
  }

  // ---------------------------------------------------------------- the capture end

  /** What opening a file has made sure of. */
  predicate Started(c: Context) {
    c.elapsedMs > 0 && (c.version == 1 || c.version == 2)
  }

  /** A capture end with which the context of a started file can be written. */
  predicate EndAcceptable(c: Context, captureEndMs: int) {
    c.version == 1 || (captureEndMs >= c.elapsedMs && (c.finalizedMs == 0 || captureEndMs <= c.finalizedMs))
  }

  lemma EndDecides(c: Context, frames: nat, maximumBytes: nat, captureEndMs: int)
    requires Started(c) && Fits(c, frames, maximumBytes)
    ensures Valid(Longer(c, frames, captureEndMs)) <==> EndAcceptable(c, captureEndMs)
  {
  }

  /** Whatever a crash leaves, recovery finds a context it can read and a prefix of the recording. */
  ghost predicate EveryCrashRecoverable(d: Disk, sound: seq<Byte>) {
    forall r :: AfterCrash(d, r) ==> Recoverable(r, sound)
  }

  /** After a checkpoint that succeeded, that is so exactly if the context was valid. */
  lemma CheckpointDecides(d: Disk, sound: seq<Byte>, c: Context)
    requires Intact(d, sound) && d.context == Some(Format(c)) && d.contexts == {d.context} && d.safe == |d.audio| && d.seal in d.seals
    ensures EveryCrashRecoverable(d, sound) <==> Valid(c)
  {
    if Valid(c) {
      forall r | AfterCrash(d, r) ensures Recoverable(r, sound) { CrashLeavesPrefix(d, sound, r); }
    } else {
      var r := d.(seals := {d.seal});
      assert AfterCrash(d, r) && !Recoverable(r, sound);
    }
  }

  /** An end before the start of the recording, checkpointed, costs everything recorded so far. */
  method EarlyEndSpoils(samples: seq<Byte>) returns (written: bool, file: ContinuousPcmFile)
    requires |samples| == 4 * 48_000
    ensures written ==> file.sound == samples && file.disk.contexts == {Some(Blank)}
    ensures written ==> forall r :: AfterCrash(file.disk, r) ==> r.context == Some(Blank)
  {
    file := new ContinuousPcmFile(Context(2, 0, 10, 0, 0));
    written := file.Open();
    if !written { return; }
    written := file.WriteFrame(samples, 48_000, 4 * 48_000, 5);
  }

  /** `TruncDiv`: division of the source, towards zero. */
  function TruncDiv(n: int, d: nat): int
    requires d > 0
  {
    if n >= 0 then n / d else -((-n) / d)
  }

  const FRAME_NS := 25_000_000

  /** The start a conversation or audit gives its context, and the end it passes with frame n. */
  function StartMs(baseNs: int, first: nat): int {
    TruncDiv(baseNs + (first - 1) * FRAME_NS, 1_000_000)
  }

  function EndMs(baseNs: int, n: nat, frames: nat): int {
    TruncDiv(baseNs + (n - 1) * FRAME_NS + frames * 1_000_000_000 / 48_000, 1_000_000)
  }

  /** Both writers pass acceptable ends: every frame they append ends after the recording started. */
  lemma WritersPassLaterEnds(baseNs: int, first: nat, n: nat, frames: nat, c: Context)
    requires 1 <= first <= n && c.elapsedMs == StartMs(baseNs, first) && Started(c) && c.finalizedMs == 0
    ensures EndAcceptable(c, EndMs(baseNs, n, frames))
  {
    var a, b := baseNs + (first - 1) * FRAME_NS, baseNs + (n - 1) * FRAME_NS + frames * 1_000_000_000 / 48_000;
    assert a <= b;
    TruncDivMonotone(a, b, 1_000_000);
  }

  lemma TruncDivMonotone(a: int, b: int, d: nat)
    requires a <= b && d > 0
    ensures TruncDiv(a, d) <= TruncDiv(b, d)
  {
    if a >= 0 {
      QuotientMonotone(a, b, d);
    } else if b < 0 {
      QuotientMonotone(-b, -a, d);
    } else {
      QuotientMonotone(0, b, d);
      QuotientMonotone(0, -a, d);
    }
  }

  lemma QuotientMonotone(a: nat, b: nat, d: nat)
    requires a <= b && d > 0
    ensures 0 <= a / d <= b / d
  {
    var p, q := a / d, b / d;
    assert d * p <= a && b < d * (q + 1);
    Times(d, q + 1, p);
  }

  lemma Times(d: nat, x: nat, y: nat)
    ensures x <= y ==> d * x <= d * y
  {
    if x <= y { assert d * y == d * x + d * (y - x); }
  }

  // ---------------------------------------------------------------- a whole conversation

  /** What the reader takes from the ring for one frame, and the budget it has looked up. */
  datatype Chunk = Chunk(samples: seq<Byte>, frames: nat, budget: nat)

  function Joined(chunks: seq<Chunk>): seq<Byte> {
    if chunks == [] then [] else Joined(chunks[..|chunks| - 1]) + chunks[|chunks| - 1].samples
  }

  lemma JoinedNext(chunks: seq<Chunk>, i: nat)
    requires i < |chunks|
    ensures Joined(chunks[..i + 1]) == Joined(chunks[..i]) + chunks[i].samples
  {
    assert chunks[..i + 1][..i] == chunks[..i];
  }

  ghost predicate AllCrashSafe(points: seq<Disk>, sound: seq<Byte>) {
    forall i :: 0 <= i < |points| ==> CrashSafe(points[i], sound)
  }

  /** The file side of a conversation writer: frames with the ends the writer gives them, until one
      fails, then `Finish`.  A crash at any point of it leaves a context that can be read and names a
      prefix of the frames taken, or no context at all. */
  method WriteConversation(baseNs: int, first: nat, chunks: seq<Chunk>, reason: string, partial: bool, nowMs: int)
    returns (saved: bool, file: ContinuousPcmFile)
    requires first >= 1 && forall i :: 0 <= i < |chunks| ==> |chunks[i].samples| == 4 * chunks[i].frames
    ensures AllCrashSafe(file.crashPoints, file.sound) && CrashSafe(file.disk, file.sound)
    ensures exists n :: 0 <= n <= |chunks| && file.sound == Joined(chunks[..n])
    ensures saved ==> file.disk.audio == file.sound && file.disk.safe == |file.sound| && file.disk.seal == Some(Seal(reason, partial))
    ensures saved ==> EveryCrashRecoverable(file.disk, file.sound)
  {
    hide Intact, Valid, Format, EveryCrashRecoverable, StartMs, EndMs, EndAcceptable;
    var start := Context(2, 0, StartMs(baseNs, first), 0, 0);
    file := new ContinuousPcmFile(start);
    assert chunks[..0] == [];
    EmptyIntact();
    saved := file.Open();
    FormatMeaning(start);
    OpenReadable(file.crashPoints, file.disk, start);
    BothSafe(file.crashPoints, file.sound);
    if !saved { return; }
    var i := 0;
    while i < |chunks|
      invariant 0 <= i <= |chunks| && fresh(file) && file.Running() && file.Aligned()
      invariant Valid(file.context) && file.context.version == 2 && file.context.finalizedMs == 0 && file.context.elapsedMs == start.elapsedMs
      invariant Readable(file.disk) && PointsReadable(0, file.crashPoints)
      invariant file.sound == Joined(chunks[..i])
    {
      ghost var before, points := file.context, file.crashPoints;
      var end := EndMs(baseNs, first + i, chunks[i].frames);
      WritersPassLaterEnds(baseNs, first, first + i, chunks[i].frames, before);
      JoinedNext(chunks, i);
      var ok := file.WriteFrame(chunks[i].samples, chunks[i].frames, chunks[i].budget, end);
      AllReadable(points, file.crashPoints);
      StaysValid(before, file.context, chunks[i].frames, chunks[i].budget, end);
      if !ok { break; }
      i := i + 1;
    }
    ghost var points, contexts := file.crashPoints, file.disk.contexts;
    FinishedStaysValid(file.context, nowMs);
    saved := file.Finish(reason, partial, false, nowMs);
    FormatMeaning(file.context);
    FinishReadable(points, file.crashPoints, contexts, file.disk, file.context);
    BothSafe(file.crashPoints, file.sound);
    if saved { CheckpointDecides(file.disk, file.sound, file.context); }
  }

  lemma OpenReadable(points: seq<Disk>, d: Disk, c: Context)
    requires forall i :: 0 <= i < |points| ==> points[i].contexts <= {None} + {Some(Format(c))}
    requires d.contexts <= {None, Some(Format(c))}
    requires !Valid(c) ==> points == [] && d == EMPTY_DISK
    ensures PointsReadable(0, points) && Readable(d)
  {
  }

  lemma AllReadable(before: seq<Disk>, after: seq<Disk>)
    requires before <= after && PointsReadable(0, before) && PointsReadable(|before|, after)
    ensures PointsReadable(0, after)
  {
    forall i | 0 <= i < |before| ensures Readable(after[i]) { assert after[i] == before[i]; }
  }

  lemma StaysValid(before: Context, after: Context, frames: nat, budget: nat, end: int)
    requires Valid(before) && EndAcceptable(before, end)
    requires after == before || (after == Longer(before, frames, end) && Fits(before, frames, budget))
    ensures Valid(after)
  {
  }

  lemma FinishedStaysValid(c: Context, nowMs: int)
    requires Valid(c)
    ensures Valid(Finished(c, false, nowMs))
  {
  }

  lemma FinishReadable(before: seq<Disk>, after: seq<Disk>, contexts: set<Option<Text>>, d: Disk, c: Context)
    requires before <= after && PointsReadable(0, before) && Valid(c) && Some(Blank) !in contexts
    requires forall i :: |before| <= i < |after| ==> after[i].contexts <= contexts + {Some(Format(c))}
    requires forall t :: t in d.contexts ==> t in contexts || t == Some(Format(c))
    ensures PointsReadable(0, after) && Readable(d)
  {
    forall i | 0 <= i < |before| ensures Readable(after[i]) { assert after[i] == before[i]; }
  }

  lemma BothSafe(points: seq<Disk>, sound: seq<Byte>)
    requires AllIntact(points, sound) && PointsReadable(0, points)
    ensures AllCrashSafe(points, sound)
  {
  }

  /** The frames are few enough for one append, the byte budget and a day. */
  predicate Fits(c: Context, frames: nat, maximumBytes: nat) {
    0 < frames <= 48000 && 4 * (c.frames + frames) <= maximumBytes && c.frames + frames <= MAXIMUM_FRAMES
  }

  function Longer(c: Context, frames: nat, captureEndMs: int): Context {
    c.(frames := c.frames + frames, captureEndMs := if c.version == 2 then captureEndMs else c.captureEndMs)
  }

  function Finished(c: Context, recovered: bool, nowMs: int): Context {
    if c.version == 2 then c.(finalizedMs := if !recovered && nowMs >= c.captureEndMs then nowMs else 0) else c
  }

  predicate ReasonOk(reason: string) {
    && 0 < |reason| <= 32
    && forall i :: 0 <= i < |reason| ==> 'a' <= reason[i] <= 'z' || reason[i] == '_'
  }

  /** Every context a crash may leave names exactly f frames, and they are those of `kept`. */
  ghost predicate KeepsFrames(d: Disk, kept: seq<Byte>) {
    && CrashSafe(d, kept)
    && forall t :: t in d.contexts ==> t.Some? && t.value.Holds? && 4 * t.value.context.frames == |kept|
  }

  /** The first f frames on a disk that holds at least that many. */
  function Committed(d: Disk, c: Context): seq<Byte>
    requires 4 * c.frames <= |d.audio|
  {
    d.audio[..4 * c.frames]
  }

  /** After a crash during recovery, recovery can be run again and will keep the same frames. */
  lemma RecoverableAgain(d: Disk, kept: seq<Byte>, r: Disk)
    requires KeepsFrames(d, kept) && AfterCrash(d, r)
    ensures Settled(r)
    ensures r.context.Some? && r.context.value.Holds? && Valid(r.context.value.context)
    ensures 4 * r.context.value.context.frames <= |r.audio| && Committed(r, r.context.value.context) == kept
  {
    CrashLeavesPrefix(d, kept, r);
  }

  lemma KeepsAll(points: seq<Disk>, kept: seq<Byte>, contexts: set<Option<Text>>)
    requires AllIntact(points, kept)
    requires forall t :: t in contexts ==> t.Some? && t.value.Holds? && 4 * t.value.context.frames == |kept|
    requires forall i :: 0 <= i < |points| ==> points[i].contexts <= contexts
    ensures forall i :: 0 <= i < |points| ==> KeepsFrames(points[i], kept)
  {
    hide Intact;
  }

  lemma FoundIntact(found: Disk, c: Context)
    requires Valid(c) && found.safe == |found.audio| && 4 * c.frames <= |found.audio| && found.contexts == {Some(Holds(c))}
    ensures Intact(found, Committed(found, c))
  {
  }

  /** `Recover` on the disk found after a crash: it fails only on a bad context, missing audio or a
      failing operation, a success seals exactly the committed prefix, and a crash at any point of it
      leaves a disk from which the same prefix is recovered again. */
  method Recover(found: Disk, committed: Context) returns (ok: bool, file: ContinuousPcmFile)
    requires Settled(found) && found.context == Some(Holds(committed))
    ensures !Valid(committed) || 4 * committed.frames > |found.audio| ==> !ok
    ensures Valid(committed) && 4 * committed.frames <= |found.audio| ==>
      && (!ok ==> file.faults > 0)
      && (ok ==> file.disk.audio == Committed(found, committed) && file.disk.safe == |file.disk.audio|
                 && file.disk.seal == Some(Seal("interrupted", true)))
      && KeepsFrames(file.disk, Committed(found, committed))
      && (forall i :: 0 <= i < |file.crashPoints| ==> KeepsFrames(file.crashPoints[i], Committed(found, committed)))
  {
    file := new ContinuousPcmFile(committed);
    if !Valid(committed) || |found.audio| < 4 * committed.frames { return false, file; }
    FoundIntact(found, committed);
    FinishedValid(committed);
    hide Intact, Valid;
    file.disk := found;
    file.sound := Committed(found, committed);
    var reachable: bool := *;
    if !reachable { file.faults := 1; return false, file; }
    file.open := true;
    ok := file.Finish("interrupted", true, true, 0);
    ghost var texts := {Some(Holds(committed)), Some(Format(file.context))};
    KeepsAll(file.crashPoints, file.sound, texts);
    KeepsAll([file.disk], file.sound, texts);
    assert KeepsFrames([file.disk][0], file.sound);
  }

  lemma FinishedValid(c: Context)
    requires Valid(c)
    ensures Valid(Finished(c, true, 0)) && Started(c)
  {
  }

  /** The committed context of a directory can be read, is valid and has its audio. */
  predicate Salvageable(found: Disk) {
    && found.context.Some? && found.context.value.Holds? && Valid(found.context.value.context)
    && 4 * found.context.value.context.frames <= |found.audio|
  }

  /** Recovery of a directory: anything else than a salvageable one is refused; a salvageable one is
      sealed with exactly its committed frames unless an operation fails, and stays salvageable. */
  method RecoverDirectory(found: Disk) returns (ok: bool, file: ContinuousPcmFile)
    requires Settled(found)
    ensures !Salvageable(found) ==> !ok
    ensures Salvageable(found) ==>
      var kept := Committed(found, found.context.value.context);
      && (!ok ==> file.faults > 0)
      && (ok ==> file.disk.audio == kept && file.disk.safe == |kept| && file.disk.seal == Some(Seal("interrupted", true)))
      && KeepsFrames(file.disk, kept)
      && (forall i :: 0 <= i < |file.crashPoints| ==> KeepsFrames(file.crashPoints[i], kept))
  {
    hide KeepsFrames;
    if found.context.None? || found.context.value.Blank? {
      file := new ContinuousPcmFile(Context(0, 0, 0, 0, 0));
      return false, file;
    }
    ok, file := Recover(found, found.context.value.context);
  }
}
