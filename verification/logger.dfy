/**
  The rotating file logger: construction, the rollover decision, the write
  path `emit`, and the six level methods that gate on the configured level.
  Every operation is a pure function from the current world (the file system
  and the standard-error stream) to the next one.
 */
module RotatingFileLogger {
  import opened Wrappers
  import opened FileSystem
  import opened Rollover

  /** The log levels, in increasing severity. */
  const LevelTrace: int := 0
  const LevelDebug: int := 1
  const LevelInfo: int := 2
  const LevelWarning: int := 3
  const LevelError: int := 4
  const LevelCritical: int := 5

  /** The levels are consecutive and ordered by severity, Trace lowest. */
  lemma LevelsAscend()
    ensures LevelTrace == 0
    ensures LevelTrace < LevelDebug < LevelInfo < LevelWarning < LevelError < LevelCritical
    ensures LevelCritical - LevelTrace == 5
  {
  }

  /** The errors the logger can report. */
  datatype IoError =
    | OpenFailed     // the base file could not be opened
    | StatFailed     // `Stat` on the open base file failed
    | InvalidHandle  // `Stat` on a nil file handle (a logger bound to standard error)

  /** Where the embedded line writer sends its output. `ToBase` is the
      handle `baseFilePrt`, always bound to the file named `base`. */
  datatype Output = ToStderr | ToBase

  /** A logger: its configuration and the stream it writes to. */
  datatype Logger = Logger(level: int, baseFileName: string, maxBytes: int, backupCount: int, out: Output)

  /** Everything the logger can change: the files and the standard-error stream. */
  datatype World = World(fs: FS, stderr: seq<Line>)

  /** What the model does not compute: the length of the size estimate
      `fmt.Sprintf("", record...)` and the byte length of the line that
      `Println` writes (timestamp prefix included). */
  datatype Env = Env(recordSize: Record -> nat, lineBytes: Record -> nat)

  /** The result of `emit`: the next world and the error it returned, if any. */
  datatype Emitted = Emitted(world: World, err: Option<IoError>)

  /** A logger writing to its base file finds that file present (single writer). */
  predicate Valid(m: Logger, w: World)
  {
    m.out.ToBase? ==> Base in w.fs
  }

  /** Everything written so far to the stream the logger currently writes to. */
  function Stream(m: Logger, w: World): seq<Line>
    requires Valid(m, w)
  {
    if m.out.ToStderr? then w.stderr else w.fs[Base]
  }

  /** The line `Println(record...)` writes. */
  function LineOf(env: Env, rec: Record): Line
  {
    Line(rec, env.lineBytes(rec))
  }

  /** `NewLog`: with an empty name, a logger on standard error that keeps none
      of the level, size and backup arguments; otherwise open (creating if
      needed) the base file for append, failing when the open fails. */
  function NewLog(level: int, baseFileName: string, maxBytes: int, backupCount: int,
                  w: World, openFails: bool): (r: Result<(Logger, World), IoError>)
    ensures baseFileName == "" ==>
      r == Success((Logger(LevelTrace, "", 0, 0, ToStderr), w))
    ensures baseFileName != "" && openFails ==> r == Failure(OpenFailed)
    ensures baseFileName != "" && !openFails ==>
      && r.Success?
      && r.value.0 == Logger(level, baseFileName, maxBytes, backupCount, ToBase)
      && r.value.1.stderr == w.stderr
      && Get(r.value.1.fs, Base) == Some(if Base in w.fs then w.fs[Base] else [])
      && forall n :: n != Base ==> Get(r.value.1.fs, n) == Get(w.fs, n)
    ensures r.Success? ==> Valid(r.value.0, r.value.1)
  {
    if baseFileName != "" then
      if openFails then Failure(OpenFailed)
      else Success((Logger(level, baseFileName, maxBytes, backupCount, ToBase),
                    World(OpenAppend(w.fs, Base), w.stderr)))
    else
      Success((Logger(LevelTrace, "", 0, 0, ToStderr), w))
  }

  /** `shouldRollover`: with a positive size limit, stat the open file and
      decide a rollover when its size plus the record's estimated size reaches
      the limit; without a limit, never stat and never roll over. */
  function ShouldRollover(m: Logger, w: World, rec: Record, env: Env, statFails: bool): (r: Result<bool, IoError>)
    requires Valid(m, w)
    ensures m.maxBytes <= 0 ==> r == Success(false)
    ensures r.Failure? <==> m.maxBytes > 0 && (m.out.ToStderr? || statFails)
    ensures r.Failure? ==> r.error == (if m.out.ToStderr? then InvalidHandle else StatFailed)
    ensures r == Success(true) <==>
      && m.maxBytes > 0 && m.out.ToBase? && !statFails
      && Size(w.fs[Base]) + env.recordSize(rec) >= m.maxBytes
  {
    if m.maxBytes > 0 then
      if m.out.ToStderr? then Failure(InvalidHandle)
      else if statFails then Failure(StatFailed)
      else Success(Size(w.fs[Base]) + env.recordSize(rec) >= m.maxBytes)
    else Success(false)
  }

  /** `Println(record...)` on the logger's current stream. */
  function Println(m: Logger, w: World, rec: Record, env: Env): (w': World)
    requires Valid(m, w)
    ensures Valid(m, w')
    ensures Stream(m, w') == Stream(m, w) + [LineOf(env, rec)]
    ensures m.out.ToStderr? ==> w'.fs == w.fs
    ensures m.out.ToBase? ==> w'.stderr == w.stderr
    ensures forall n :: n != Base ==> Get(w'.fs, n) == Get(w.fs, n)
  {
    if m.out.ToStderr? then World(w.fs, w.stderr + [LineOf(env, rec)])
    else World(AppendLine(w.fs, Base, LineOf(env, rec)), w.stderr)
  }

  /** `emit`: decide, roll over if decided, then write the record. A failed
      decision returns its error before anything is rotated or written. */
  function Emit(m: Logger, w: World, rec: Record, env: Env, statFails: bool): (r: Emitted)
    requires Valid(m, w)
    ensures r.err.Some? <==> ShouldRollover(m, w, rec, env, statFails).Failure?
    ensures r.err.Some? ==> r.err.value == ShouldRollover(m, w, rec, env, statFails).error && r.world == w
    ensures r.err.None? ==> Valid(m, r.world)
    ensures r.err.None? ==> |Stream(m, r.world)| > 0 && Stream(m, r.world)[|Stream(m, r.world)| - 1] == LineOf(env, rec)
  {
    match ShouldRollover(m, w, rec, env, statFails)
    case Failure(e) => Emitted(w, Some(e))
    case Success(roll) =>
      var fs := if roll then Rotated(w.fs, m.backupCount) else w.fs;
      Emitted(Println(m, World(fs, w.stderr), rec, env), None)
  }

  /** A decided rollover happens before the write: the old base file becomes
      `base.1`, and the record is the only line of the fresh base file. */
  lemma EmitRotatesBeforeWrite(m: Logger, w: World, rec: Record, env: Env)
    requires Valid(m, w) && m.backupCount > 0
    requires ShouldRollover(m, w, rec, env, false) == Success(true)
    ensures Emit(m, w, rec, env, false).err.None?
    ensures Emit(m, w, rec, env, false).world.fs[Base] == [LineOf(env, rec)]
    ensures Get(Emit(m, w, rec, env, false).world.fs, Numbered(1)) == Some(w.fs[Base])
    ensures forall n :: n != Base ==>
      Get(Emit(m, w, rec, env, false).world.fs, n) == Get(Rotated(w.fs, m.backupCount), n)
    ensures Emit(m, w, rec, env, false).world.stderr == w.stderr
  {
  }

  /** Without a rollover (none decided, or no backups kept) the record is
      appended to the current stream and no other file changes. */
  lemma EmitAppendsWithoutRollover(m: Logger, w: World, rec: Record, env: Env, statFails: bool)
    requires Valid(m, w)
    requires ShouldRollover(m, w, rec, env, statFails).Success?
    requires ShouldRollover(m, w, rec, env, statFails) == Success(false) || m.backupCount <= 0
    ensures Emit(m, w, rec, env, statFails).err.None?
    ensures Stream(m, Emit(m, w, rec, env, statFails).world) == Stream(m, w) + [LineOf(env, rec)]
    ensures forall n :: n != Base ==> Get(Emit(m, w, rec, env, statFails).world.fs, n) == Get(w.fs, n)
    ensures m.out.ToStderr? ==> Emit(m, w, rec, env, statFails).world.fs == w.fs
    ensures m.out.ToBase? ==> Emit(m, w, rec, env, statFails).world.stderr == w.stderr
  {
  }

  /** The size the next `Stat` reads is the size of what was written: after a
      successful `emit` the base file holds its former size (or nothing, when a
      rollover emptied it) plus the byte length of the record's line. */
  lemma EmitTracksSize(m: Logger, w: World, rec: Record, env: Env, statFails: bool)
    requires Valid(m, w) && m.out.ToBase?
    requires Emit(m, w, rec, env, statFails).err.None?
    ensures Size(Emit(m, w, rec, env, statFails).world.fs[Base]) ==
      (if ShouldRollover(m, w, rec, env, statFails) == Success(true) && m.backupCount > 0 then 0
       else Size(w.fs[Base])) + env.lineBytes(rec)
  {
    if ShouldRollover(m, w, rec, env, statFails) == Success(true) && m.backupCount > 0 {
      EmitRotatesBeforeWrite(m, w, rec, env);
      SizeAppend([], LineOf(env, rec));
      assert [] + [LineOf(env, rec)] == [LineOf(env, rec)];
    } else {
      EmitAppendsWithoutRollover(m, w, rec, env, statFails);
      SizeAppend(w.fs[Base], LineOf(env, rec));
    }
  }

  /** The level gate shared by the six level methods: the record handed to
      `emit` (the level tag followed by the caller's arguments, in order), or
      None when the configured level is above the method's level. */
  function Forwarded(m: Logger, level: int, tag: string, args: seq<Value>): (r: Option<Record>)
    ensures r.Some? <==> m.level <= level
    ensures r.Some? ==> |r.value| == |args| + 1 && r.value[0] == Str(tag) && r.value[1..] == args
  {
    if m.level <= level then Some([Str(tag)] + args) else None
  }

  /** A level method: forward the tagged record to `emit` when the gate is
      open, discarding the error it returns; otherwise do nothing at all. */
  function Gated(m: Logger, w: World, level: int, tag: string, args: seq<Value>, env: Env, statFails: bool): (w': World)
    requires Valid(m, w)
    ensures Valid(m, w')
    ensures m.level > level ==> w' == w
    ensures m.level <= level ==> w' == Emit(m, w, [Str(tag)] + args, env, statFails).world
  {
    match Forwarded(m, level, tag, args)
    case None => w
    case Some(rec) => Emit(m, w, rec, env, statFails).world
  }

  /** `Trace`: emit `[T]` and the arguments when the level is at most LevelTrace. */
  function Trace(m: Logger, w: World, args: seq<Value>, env: Env, statFails: bool): (w': World)
    requires Valid(m, w)
    ensures m.level > LevelTrace ==> w' == w
    ensures m.level <= LevelTrace ==> w' == Emit(m, w, [Str("[T]")] + args, env, statFails).world
  {
    Gated(m, w, LevelTrace, "[T]", args, env, statFails)
  }

  /** `Debug`: emit `[D]` and the arguments when the level is at most LevelDebug. */
  function Debug(m: Logger, w: World, args: seq<Value>, env: Env, statFails: bool): (w': World)
    requires Valid(m, w)
    ensures m.level > LevelDebug ==> w' == w
    ensures m.level <= LevelDebug ==> w' == Emit(m, w, [Str("[D]")] + args, env, statFails).world
  {
    Gated(m, w, LevelDebug, "[D]", args, env, statFails)
  }

  /** `Info`: emit `[I]` and the arguments when the level is at most LevelInfo. */
  function Info(m: Logger, w: World, args: seq<Value>, env: Env, statFails: bool): (w': World)
    requires Valid(m, w)
    ensures m.level > LevelInfo ==> w' == w
    ensures m.level <= LevelInfo ==> w' == Emit(m, w, [Str("[I]")] + args, env, statFails).world
  {
    Gated(m, w, LevelInfo, "[I]", args, env, statFails)
  }

  /** `Warn`: emit `[W]` and the arguments when the level is at most LevelWarning. */
  function Warn(m: Logger, w: World, args: seq<Value>, env: Env, statFails: bool): (w': World)
    requires Valid(m, w)
    ensures m.level > LevelWarning ==> w' == w
    ensures m.level <= LevelWarning ==> w' == Emit(m, w, [Str("[W]")] + args, env, statFails).world
  {
    Gated(m, w, LevelWarning, "[W]", args, env, statFails)
  }

  /** `Error`: emit `[E]` and the arguments when the level is at most LevelError. */
  function Error(m: Logger, w: World, args: seq<Value>, env: Env, statFails: bool): (w': World)
    requires Valid(m, w)
    ensures m.level > LevelError ==> w' == w
    ensures m.level <= LevelError ==> w' == Emit(m, w, [Str("[E]")] + args, env, statFails).world
  {
    Gated(m, w, LevelError, "[E]", args, env, statFails)
  }

  /** `Critical`: emit `[C]` and the arguments when the level is at most LevelCritical. */
  function Critical(m: Logger, w: World, args: seq<Value>, env: Env, statFails: bool): (w': World)
    requires Valid(m, w)
    ensures m.level > LevelCritical ==> w' == w
    ensures m.level <= LevelCritical ==> w' == Emit(m, w, [Str("[C]")] + args, env, statFails).world
  {
    Gated(m, w, LevelCritical, "[C]", args, env, statFails)
  }

  /** A logger built with an empty name writes every call of every level
      method to standard error: its level stays LevelTrace, so the gate is
      always open, and its size limit stays 0, so no stat happens and no
      rollover is decided; no file is created or changed. */
  lemma StderrLoggerWritesEverything(level: int, maxBytes: int, backupCount: int, w: World, openFails: bool,
                                     callLevel: int, tag: string, args: seq<Value>, env: Env, statFails: bool)
    requires callLevel >= LevelTrace
    ensures NewLog(level, "", maxBytes, backupCount, w, openFails).Success?
    ensures var (m, w0) := NewLog(level, "", maxBytes, backupCount, w, openFails).value;
      Gated(m, w0, callLevel, tag, args, env, statFails) == World(w.fs, w.stderr + [LineOf(env, [Str(tag)] + args)])
  {
  }

  /** The lines the given records produce, in order. */
  function Lines(env: Env, recs: seq<Record>): (ls: seq<Line>)
    ensures |ls| == |recs|
    ensures forall i {:trigger ls[i]} :: 0 <= i < |recs| ==> ls[i] == LineOf(env, recs[i])
  {
    if |recs| == 0 then [] else [LineOf(env, recs[0])] + Lines(env, recs[1..])
  }

  /** The lines a file logger writes for the given records when `stats[i]`
      says whether the stat before record `i` fails: a record whose stat
      happens and fails is dropped, every other one is written, in order. */
  function Survivors(m: Logger, env: Env, recs: seq<Record>, stats: seq<bool>): (ls: seq<Line>)
    requires |stats| == |recs|
    ensures |ls| <= |recs|
    ensures m.maxBytes <= 0 ==> ls == Lines(env, recs)
    decreases |recs|
  {
    if |recs| == 0 then []
    else
      (if m.maxBytes > 0 && stats[0] then [] else [LineOf(env, recs[0])])
      + Survivors(m, env, recs[1..], stats[1..])
  }

  /** When no stat fails, every record's line survives. */
  lemma {:induction false} SurvivorsWithoutStatFailures(m: Logger, env: Env, recs: seq<Record>, stats: seq<bool>)
    requires |stats| == |recs|
    requires forall i :: 0 <= i < |stats| ==> !stats[i]
    ensures Survivors(m, env, recs, stats) == Lines(env, recs)
    decreases |recs|
  {
    if |recs| > 0 {
      SurvivorsWithoutStatFailures(m, env, recs[1..], stats[1..]);
    }
  }

  /** Emit the records one after the other; `stats[i]` says whether the stat
      made for record `i` fails. Errors are discarded, as the level methods do. */
  function EmitAll(m: Logger, w: World, recs: seq<Record>, env: Env, stats: seq<bool>): (w': World)
    requires Valid(m, w)
    requires |stats| == |recs|
    ensures Valid(m, w')
    decreases |recs|
  {
    if |recs| == 0 then w
    else EmitAll(m, Emit(m, w, recs[0], env, stats[0]).world, recs[1..], env, stats[1..])
  }

  /** With no size limit, or no backups kept, the base file only grows: every
      record whose stat does not fail is appended to it, in order, and no
      other file and not the standard-error stream ever changes. With no size
      limit no stat happens, so every record is appended. */
  lemma {:induction false} BaseOnlyGrowsWithoutRotation(m: Logger, w: World, recs: seq<Record>, env: Env, stats: seq<bool>)
    requires Valid(m, w) && m.out.ToBase?
    requires m.maxBytes <= 0 || m.backupCount <= 0
    requires |stats| == |recs|
    ensures EmitAll(m, w, recs, env, stats).fs == w.fs[Base := w.fs[Base] + Survivors(m, env, recs, stats)]
    ensures EmitAll(m, w, recs, env, stats).stderr == w.stderr
    decreases |recs|
  {
    if |recs| == 0 {
      assert w.fs[Base] + Survivors(m, env, recs, stats) == w.fs[Base];
      assert w.fs[Base := w.fs[Base]] == w.fs;
    } else {
      var w1 := Emit(m, w, recs[0], env, stats[0]).world;
      var first := EmitOneRecord(m, w, recs[0], env, stats[0]);
      var rest := Survivors(m, env, recs[1..], stats[1..]);
      BaseOnlyGrowsWithoutRotation(m, w1, recs[1..], env, stats[1..]);
      assert Survivors(m, env, recs, stats) == first + rest;
      AppendTwice(w.fs, w1.fs, first, rest);
    }
  }

  /** Appending `first` and then `rest` to the base file appends `first + rest`. */
  lemma AppendTwice(fs: FS, fs1: FS, first: seq<Line>, rest: seq<Line>)
    requires Base in fs
    requires fs1 == fs[Base := fs[Base] + first]
    ensures fs1[Base := fs1[Base] + rest] == fs[Base := fs[Base] + (first + rest)]
  {
    assert fs1[Base] + rest == fs[Base] + (first + rest);
  }

  /** One step of `BaseOnlyGrowsWithoutRotation`: the record's line is
      appended to the base file unless its stat fails. */
  lemma EmitOneRecord(m: Logger, w: World, rec: Record, env: Env, statFails: bool) returns (first: seq<Line>)
    requires Valid(m, w) && m.out.ToBase?
    requires m.maxBytes <= 0 || m.backupCount <= 0
    ensures first == if m.maxBytes > 0 && statFails then [] else [LineOf(env, rec)]
    ensures Emit(m, w, rec, env, statFails).world.fs == w.fs[Base := w.fs[Base] + first]
    ensures Emit(m, w, rec, env, statFails).world.stderr == w.stderr
  {
    var w1 := Emit(m, w, rec, env, statFails).world;
    if m.maxBytes > 0 && statFails {
      first := [];
      assert w1 == w;
      assert w.fs[Base] + first == w.fs[Base];
      assert w.fs[Base := w.fs[Base]] == w.fs;
    } else {
      first := [LineOf(env, rec)];
      EmitAppendsWithoutRollover(m, w, rec, env, statFails);
      Extensionality(w1.fs, w.fs[Base := w.fs[Base] + first]);
    }
  }

  /** No numbered file other than the backup slots `base.1` .. `base.k` exists. */
  ghost predicate BackupsBounded(fs: FS, k: int)
  {
    forall i: nat :: Numbered(i) in fs ==> 1 <= i <= k
  }

  /** Emitting keeps the numbered files within `base.1` .. `base.backupCount`:
      a rollover never creates `base.0` or a file numbered above the count. */
  lemma EmitKeepsBackupsBounded(m: Logger, w: World, rec: Record, env: Env, statFails: bool)
    requires Valid(m, w)
    requires BackupsBounded(w.fs, m.backupCount)
    ensures BackupsBounded(Emit(m, w, rec, env, statFails).world.fs, m.backupCount)
  {
  }
}
