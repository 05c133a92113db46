# Rotating file logger — a Dafny model

This project models the core of the Go package `RotatingFileLogger`. The
package is a size-based rotating file logger. A `MyLogger` writes
level-tagged records to a base file. When the file would reach `maxBytes`,
the logger rolls it over into a fixed-depth chain of backups `base.1` …
`base.backupCount`, where `base.1` is the newest. Six level methods
(`Trace` … `Critical`) filter calls against the configured level and forward
the tagged record to `emit`.

The file system is an immutable map from file names to contents:

- A `Name` is `Base`, `Numbered(n)` (the `"%s.%d"` name `base.n`) or `Other(path)`.
- Contents are sequences of written `Line`s. Each line records the record it
  renders and its length in bytes.
- The operating-system calls become pure map operations:
  - `Exists` is map membership.
  - `Remove` deletes a key.
  - `Rename` moves a present source onto the destination and otherwise changes nothing.
  - `OpenAppend` makes a key present, empty if it is new.
  - `AppendLine` appends one line.
- Every logger operation is a function from a `World` to the next `World`. A
  `World` is the file system plus the standard-error stream.
- Things the model does not compute are parameters:
  - Whether an open or a `Stat` fails is a boolean.
  - The length of `fmt.Sprintf("", record...)` and the byte length of the
    written line are functions in an `Env`.

Modules:

- `Wrappers`: `Option` and `Result`.
- `FileSystem`: names, lines, the map, and the OS primitives.
- `Rollover`: `doRollover`.
  - `Rotated` is the pure specification of one rollover.
  - `DoRollover` follows the source's downward loop step by step, and its
    contract proves that it computes `Rotated`.
- `RotatingFileLogger`: the level constants, `NewLog`, `shouldRollover`,
  `emit` and the six level methods, plus lemmas about sequences of calls.

Three behaviours of the code as written, kept in the model:

- At loop index `i == 0`, the source renames `base.0` to `base.1`, not `base`
  (RotatingFileLogger.go:73). The base file is moved separately, afterwards
  (:89). So a stray `base.0` ends up deleted, and the model keeps that.
- `emit` calls `Println` and then returns nil after a successful check
  (:65-66). `log.Logger.Println` returns nothing, so a failed write never
  reaches the caller of `emit`.
- The constructor with an empty name stores none of `level`, `maxBytes` and
  `backupCount` (:52-53). The level therefore stays `LevelTrace`, so
  everything is logged, and the size limit stays 0.

## Model

| member | source | states |
|---|---|---|
| FileSystem.Remove | RotatingFileLogger.go:78 | the removed file is gone and every other file is untouched |
| FileSystem.Rename | RotatingFileLogger.go:80 | a present source's contents move to the destination and the source disappears; a missing source changes nothing; other files are untouched |
| FileSystem.OpenAppend | RotatingFileLogger.go:39-40 | after opening with create+append the file exists, keeping its contents if it existed and empty otherwise; other files are untouched |
| FileSystem.AppendLine | RotatingFileLogger.go:65 | a write through the append handle adds the line at the end of the base file and changes nothing else |
| FileSystem.Size | RotatingFileLogger.go:103-108 | the size `Stat` reports is 0 for an empty file and at least the byte length of each of its lines |
| FileSystem.Exists | RotatingFileLogger.go:75-77 | the `os.Open` probe succeeds exactly when a file of that name is present |
| Rollover.Origin | RotatingFileLogger.go:72-89 | after a rollover, `base.1` comes from `base` and `base.j` from `base.{j-1}` for `2 <= j <= K`, and names outside the rotation keep their own file; no name takes the old `base.K` or `base.0` |
| Rollover.OriginIsInjective | RotatingFileLogger.go:72-89 | no two names take their contents from the same old file, so a rollover copies nothing twice |
| Rollover.Rotated | RotatingFileLogger.go:70-94 | with `K <= 0` nothing changes. With `K > 0`: `base` exists and is empty, `base.0` is absent, `base.1` holds the old `base`, and `base.j` holds the old `base.{j-1}` for `2 <= j <= K`. Names outside `base, base.0..base.K` keep their contents |
| Rollover.RolloverOnlyRelabels | RotatingFileLogger.go:72-93 | a rollover creates no name outside `base, base.1..base.K`; every file it leaves, except the fresh base file, is an old file taken from its `Origin`, never from `base.K` |
| Rollover.ShiftOne | RotatingFileLogger.go:73-80 | one loop body: `base.{i+1}` afterwards holds what `base.i` held (or is absent if `base.i` was), `base.i` is gone, and every other file is untouched |
| Rollover.Finish | RotatingFileLogger.go:82-93 | the steps after the loop: `base` exists and is empty, `base.1` holds the old base file, and every other file is untouched |
| Rollover.LoopStep | RotatingFileLogger.go:72-81 | one loop iteration deletes `base.{i+1}` if present and moves `base.i` onto it, which extends the shift by one index |
| Rollover.FinishAt | RotatingFileLogger.go:82-93 | after the loop, deleting `base.1`, moving `base` onto it and reopening `base` leaves under each name the file the shift puts there |
| Rollover.FinalSteps | RotatingFileLogger.go:82-93 | after the loop, deleting `base.1`, moving `base` onto it and reopening `base` completes the shift |
| Rollover.DoRollover | RotatingFileLogger.go:70-95 | the downward loop followed by delete, rename and reopen computes exactly `Rotated` for every backup count |
| Rollover.BackupSetAfterRollovers | RotatingFileLogger.go:70-94 | starting with no numbered files, after `j` rollovers the numbered files present are exactly `base.1` .. `base.min(j, K)` and `base` still exists |
| Rollover.RotatedBackup | RotatingFileLogger.go:72-89 | after a rollover keeping `K` backups, `base.1` holds the old base file and `base.i` the old `base.{i-1}` for `2 <= i <= K` |
| Rollover.RolloverExtendsHistory | RotatingFileLogger.go:72-89 | the backups hold the history of the base file, newest first; a rollover pushes the current base file onto the front of that history |
| RotatingFileLogger.LevelsAscend | RotatingFileLogger.go:14-21 | the six levels are `iota` constants 0 to 5, in ascending order from `LevelTrace` to `LevelCritical` |
| RotatingFileLogger.NewLog | RotatingFileLogger.go:35-54 | an empty name never fails and yields a stderr logger with level `LevelTrace`, `maxBytes` 0, `backupCount` 0 and no file touched. Otherwise an open failure returns the error, and success stores all four arguments, opens `base` for append keeping its contents, and touches nothing else |
| RotatingFileLogger.ShouldRollover | RotatingFileLogger.go:100-113 | with `maxBytes <= 0` the result is `false` and no stat happens. Otherwise a stat failure, or a nil handle, is returned as an error; on success the result is true iff `size + recordSize(record) >= maxBytes` |
| RotatingFileLogger.Println | RotatingFileLogger.go:65 | the line goes to the end of the logger's current stream (stderr or the base file); nothing else changes |
| RotatingFileLogger.Emit | RotatingFileLogger.go:57-67 | the result carries an error exactly when the rollover check failed, and then the world is unchanged; otherwise the record's line ends the current stream and the logger's state stays valid |
| RotatingFileLogger.EmitRotatesBeforeWrite | RotatingFileLogger.go:57-66 | when a rollover is decided and backups are kept, the old base file becomes `base.1`, the record is the only line of the fresh base file, and every other name is as the rollover left it |
| RotatingFileLogger.EmitAppendsWithoutRollover | RotatingFileLogger.go:57-66 | when no rollover is decided, or no backups are kept, the record is appended to the current stream and no other file changes; a stderr logger leaves the whole file system alone and a file logger leaves standard error alone |
| RotatingFileLogger.EmitTracksSize | RotatingFileLogger.go:57-66 | after a successful `emit` the size the next `Stat` sees is the old size, or 0 when a rollover emptied the base file, plus the byte length of the record's line |
| RotatingFileLogger.Forwarded | RotatingFileLogger.go:116-120 | a level method forwards a record iff the configured level is at most its own level; that record is the tag followed by the caller's arguments in their order |
| RotatingFileLogger.Gated | RotatingFileLogger.go:116-121 | below the threshold the call has no effect at all (no stat, no write); otherwise its effect is `emit`'s on the tagged record, with the error discarded |
| RotatingFileLogger.Trace | RotatingFileLogger.go:116-122 | no effect when the level exceeds `LevelTrace`; otherwise emits `[T]` followed by the arguments |
| RotatingFileLogger.Debug | RotatingFileLogger.go:125-131 | no effect when the level exceeds `LevelDebug`; otherwise emits `[D]` followed by the arguments |
| RotatingFileLogger.Info | RotatingFileLogger.go:134-140 | no effect when the level exceeds `LevelInfo`; otherwise emits `[I]` followed by the arguments |
| RotatingFileLogger.Warn | RotatingFileLogger.go:143-149 | no effect when the level exceeds `LevelWarning`; otherwise emits `[W]` followed by the arguments |
| RotatingFileLogger.Error | RotatingFileLogger.go:152-158 | no effect when the level exceeds `LevelError`; otherwise emits `[E]` followed by the arguments |
| RotatingFileLogger.Critical | RotatingFileLogger.go:161-167 | no effect when the level exceeds `LevelCritical`; otherwise emits `[C]` followed by the arguments |
| RotatingFileLogger.StderrLoggerWritesEverything | RotatingFileLogger.go:38-54 | a logger built with an empty name writes every level method's call, whatever its level, to standard error as one line; it never stats, rotates or touches a file |
| RotatingFileLogger.Lines | RotatingFileLogger.go:65 | the lines written for a sequence of records are one per record, each the line of the record at the same position |
| RotatingFileLogger.Survivors | RotatingFileLogger.go:58-61 | the records that reach the file are at most all of them, and all of them when no size limit is set, since then no stat happens |
| RotatingFileLogger.SurvivorsWithoutStatFailures | RotatingFileLogger.go:58-61 | when no stat fails, every record's line is written, in order |
| RotatingFileLogger.EmitOneRecord | RotatingFileLogger.go:57-72 | with no size limit or no backups, one `emit` appends the record's line to the base file unless its stat fails, in which case nothing changes; standard error is untouched |
| RotatingFileLogger.BaseOnlyGrowsWithoutRotation | RotatingFileLogger.go:57-72 | with `maxBytes <= 0` or `backupCount <= 0` and any stat outcome per record, the records whose stat did not fail are appended to the base file in order; no other file and not standard error changes |
| RotatingFileLogger.EmitKeepsBackupsBounded | RotatingFileLogger.go:70-94 | if the only numbered files are `base.1` .. `base.K`, that still holds after any `emit`: `base.0` and names above `K` never appear |

## Left out

- Real OS calls are abstract map operations: `os.OpenFile`, `os.Open` as an
  existence probe, `Close`, `Stat`, and the `0777` permissions.
  - An open or stat failure is a boolean parameter.
  - The probe cannot fail for a file that exists.
  - Failures of `Remove` and `Rename` are not modelled beyond "a missing
    source changes nothing".
- The reopen after a rollover (RotatingFileLogger.go:90-93) ignores its error
  and can leave a nil handle. The model assumes that reopen succeeds.
- The handle `baseFilePrt` is not a separate object. `ToBase` means "the file
  currently named `base`". This relies on the single-writer design: `Valid`
  requires that `base` exists while the logger writes to it. Nothing in the
  model removes `base` from outside.
- Output formatting of `log.Logger` is not modelled: the `Ldate|Ltime`
  timestamp, `Println` spacing and the newline. A line keeps its record and
  an opaque byte length.
- The text of `fmt.Sprintf("", record...)` is not modelled. Only its length
  is kept, as the uninterpreted `Env.recordSize`.
- The standard-error stream is a sequence of lines in the `World`. It is never
  stat-ed or rotated.
- The size check `fileinfo.Size()+int64(recordSize) >= m.maxBytes` is done on
  unbounded integers. The model does not wrap at 64 bits, because that needs
  files of about 2^63 bytes.
- Concurrency and several writers sharing one file are out of scope. The
  source has no locking.
- The error that the level methods discard from `emit` is dropped in `Gated`.
- A write through `Println` always succeeds and appends the whole line; a
  failed or short write is not modelled.

