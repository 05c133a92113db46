/**
  The rollover engine of the rotating file logger (`doRollover`): a downward
  loop that shifts `base.i` to `base.{i+1}`, followed by the move of the base
  file to `base.1` and the reopening of an empty base file.
  `Rotated` is the pure specification of one rollover; `DoRollover` follows
  the source step by step and is proved to compute it.
 */
module Rollover {
  import opened Wrappers
  import opened FileSystem

  /** The names a rollover keeping `k` backups may touch: `base` and `base.0` .. `base.k`. */
  predicate Touched(k: int, n: Name)
  {
    n.Base? || (n.Numbered? && n.n <= k)
  }

  /** The backup slots `base.1` .. `base.k`. */
  predicate IsBackup(k: int, n: Name)
  {
    n.Numbered? && 1 <= n.n <= k
  }

  /** Where the contents found under `n` after a rollover keeping `k > 0`
      backups come from; None for the fresh base file and the deleted `base.0`. */
  function Origin(k: int, n: Name): (o: Option<Name>)
    requires k > 0
    ensures o.None? <==> n == Base || n == Numbered(0)
    ensures o != Some(Numbered(k)) && o != Some(Numbered(0))
    ensures !Touched(k, n) ==> o == Some(n)
    ensures IsBackup(k, n) ==> o.Some? && Touched(k, o.value)
    ensures n == Numbered(1) ==> o == Some(Base)
    ensures n.Numbered? && 2 <= n.n <= k ==> o == Some(Numbered(n.n - 1))
  {
    match n
    case Base => None
    case Numbered(j) =>
      if j == 0 then None
      else if j == 1 then Some(Base)
      else if j <= k then Some(Numbered(j - 1))
      else Some(n)
    case Other(_) => Some(n)
  }

  /** Distinct names never take their contents from the same old file: a rollover
      copies no file twice, it only relabels. */
  lemma OriginIsInjective(k: int, a: Name, b: Name)
    requires k > 0
    requires Origin(k, a).Some? && Origin(k, a) == Origin(k, b)
    ensures a == b
  {
  }

  /** The backup slots `base.1` .. `base.k` as a finite set. */
  function Slots(k: int): (s: set<Name>)
    ensures forall n :: n in s <==> IsBackup(k, n)
    decreases k
  {
    if k <= 0 then {} else Slots(k - 1) + {Numbered(k)}
  }

  /** The finite set of names a rollover can leave a file under. */
  function Candidates(fs: FS, k: int): set<Name>
  {
    fs.Keys + {Base} + Slots(k)
  }

  /** The file system after one rollover keeping `k` backups. */
  function Rotated(fs: FS, k: int): (r: FS)
    ensures k <= 0 ==> r == fs
    ensures k > 0 ==> Get(r, Base) == Some([])
    ensures k > 0 ==> Numbered(0) !in r
    ensures k > 0 ==> Get(r, Numbered(1)) == Get(fs, Base)
    ensures k > 0 ==> forall j: nat {:trigger Get(r, Numbered(j))} :: 2 <= j <= k ==> Get(r, Numbered(j)) == Get(fs, Numbered(j - 1))
    ensures forall n {:trigger Get(r, n)} :: !Touched(k, n) ==> Get(r, n) == Get(fs, n)
  {
    if k <= 0 then fs
    else
      map n | n in Candidates(fs, k) && (n == Base || (Origin(k, n).Some? && Origin(k, n).value in fs))
        :: if n == Base then [] else fs[Origin(k, n).value]
  }

  /** The file system after the loop of `DoRollover` has handled indices
      `k-1` down to `i+1` (so `i` is the next index to handle). */
  function PartialAt(fs: FS, k: int, i: int, n: Name): Option<Content>
  {
    match n
    case Numbered(j) =>
      if j <= i then Get(fs, n)
      else if j == i + 1 then (if i == k - 1 then Get(fs, n) else None)
      else if 1 <= j <= k then Get(fs, Numbered(j - 1))
      else Get(fs, n)
    case _ => Get(fs, n)
  }

  /** One iteration of the loop: remove `base.{i+1}` if it exists, then rename
      `base.i` onto it. */
  function ShiftOne(cur: FS, i: nat): (r: FS)
    ensures Get(r, Numbered(i + 1)) == Get(cur, Numbered(i))
    ensures Numbered(i) !in r
    ensures forall n :: n != Numbered(i) && n != Numbered(i + 1) ==> Get(r, n) == Get(cur, n)
  {
    var dst := Numbered(i + 1);
    Rename(if Exists(cur, dst) then Remove(cur, dst) else cur, Numbered(i), dst)
  }

  /** Handling index `i` moves `base.i` up one slot and leaves `base.i` empty,
      carrying the loop's description from `i` to `i - 1`. */
  lemma {:induction false} LoopStep(fs: FS, cur: FS, k: int, i: nat)
    requires i < k
    requires forall n :: Get(cur, n) == PartialAt(fs, k, i, n)
    ensures forall n :: Get(ShiftOne(cur, i), n) == PartialAt(fs, k, i - 1, n)
  {
    forall n ensures Get(ShiftOne(cur, i), n) == PartialAt(fs, k, i - 1, n) {
      if n != Numbered(i) && n != Numbered(i + 1) {
        assert Get(ShiftOne(cur, i), n) == Get(cur, n);
      }
    }
  }

  /** The steps after the loop: remove `base.1` if it exists, move `base`
      onto it and reopen `base` for append. */
  function Finish(cur: FS): (r: FS)
    ensures Get(r, Base) == Some([])
    ensures Get(r, Numbered(1)) == Get(cur, Base)
    ensures forall n :: n != Base && n != Numbered(1) ==> Get(r, n) == Get(cur, n)
  {
    var dst := Numbered(1);
    OpenAppend(Rename(if Exists(cur, dst) then Remove(cur, dst) else cur, Base, dst), Base)
  }

  /** The file a rollover keeping `k > 0` backups leaves under `n`, name by name. */
  function RotatedAt(fs: FS, k: int, n: Name): Option<Content>
    requires k > 0
  {
    if n == Base then Some([])
    else match Origin(k, n)
      case None => None
      case Some(o) => Get(fs, o)
  }

  /** `Rotated` agrees with `RotatedAt` on every name. */
  lemma RotatedIsPointwise(fs: FS, k: int, n: Name)
    requires k > 0
    ensures Get(Rotated(fs, k), n) == RotatedAt(fs, k, n)
  {
    if n != Base && Origin(k, n).Some? && Origin(k, n).value in fs {
      assert n in Candidates(fs, k);
    }
  }

  /** A rollover only relabels files: it creates no name outside `base` and
      `base.1` .. `base.k`, and every file it leaves, other than the fresh base
      file, is an old file taken from its `Origin`, which is never `base.k`. */
  lemma RolloverOnlyRelabels(fs: FS, k: int)
    ensures forall n :: n in Rotated(fs, k) && n !in fs ==> n == Base || IsBackup(k, n)
    ensures k > 0 ==> forall n :: n in Rotated(fs, k) && n != Base ==>
      Origin(k, n).Some? && Get(fs, Origin(k, n).value) == Some(Rotated(fs, k)[n])
  {
    if k > 0 {
      forall n | n in Rotated(fs, k)
        ensures n !in fs ==> n == Base || IsBackup(k, n)
        ensures n != Base ==> Origin(k, n).Some? && Get(fs, Origin(k, n).value) == Some(Rotated(fs, k)[n])
      {
        RotatedIsPointwise(fs, k, n);
      }
    }
  }

  /** After the loop, the final steps put the right file under `n`. */
  lemma {:induction false} FinishAt(fs: FS, cur: FS, k: int, n: Name)
    requires k > 0
    requires forall n :: Get(cur, n) == PartialAt(fs, k, -1, n)
    ensures Get(Finish(cur), n) == RotatedAt(fs, k, n)
  {
    if n != Base && n != Numbered(1) {
      assert Get(Finish(cur), n) == Get(cur, n);
    }
  }

  /** After the loop, the final steps complete the shift. */
  lemma FinalSteps(fs: FS, cur: FS, k: int)
    requires k > 0
    requires forall n :: Get(cur, n) == PartialAt(fs, k, -1, n)
    ensures Finish(cur) == Rotated(fs, k)
  {
    forall n ensures Get(Finish(cur), n) == Get(Rotated(fs, k), n) {
      FinishAt(fs, cur, k, n);
      RotatedIsPointwise(fs, k, n);
    }
    Extensionality(Finish(cur), Rotated(fs, k));
  }

  /** `doRollover`: with `backupCount > 0`, shift `base.i` to `base.{i+1}` for i
      from `backupCount-1` down to 0 (the source names `base.0`, not `base`, at
      i = 0), delete `base.1`, move `base` there and reopen an empty `base`. */
  method DoRollover(fs: FS, backupCount: int) returns (r: FS)
    ensures r == Rotated(fs, backupCount)
  {
    r := fs;
    if backupCount > 0 {
      var i := backupCount - 1;
      while i >= 0
        invariant -1 <= i <= backupCount - 1
        invariant forall n :: Get(r, n) == PartialAt(fs, backupCount, i, n)
      {
        LoopStep(fs, r, backupCount, i);
        ghost var before := r;
        var dfn := Numbered(i + 1);
        if Exists(r, dfn) {
          r := Remove(r, dfn);
        }
        r := Rename(r, Numbered(i), dfn);
        assert r == ShiftOne(before, i);
        i := i - 1;
      }
      FinalSteps(fs, r, backupCount);
      ghost var afterLoop := r;
      var dfn := Numbered(1);
      if Exists(r, dfn) {
        r := Remove(r, dfn);
      }
      r := Rename(r, Base, dfn);
      r := OpenAppend(r, Base);
      assert r == Finish(afterLoop);
    }
  }

  /** The file system after `j` consecutive rollovers keeping `k` backups. */
  function RotateN(fs: FS, k: int, j: nat): FS
  {
    if j == 0 then fs else Rotated(RotateN(fs, k, j - 1), k)
  }

  /** Starting from a base file with no numbered file beside it, after `j`
      rollovers the backups present are exactly `base.1` .. `base.min(j, k)`:
      no file numbered above `k`, and no `base.0`, ever appears. */
  lemma {:induction false} BackupSetAfterRollovers(fs: FS, k: int, j: nat)
    requires Base in fs
    requires forall i: nat :: Numbered(i) !in fs
    ensures Base in RotateN(fs, k, j)
    ensures forall i: nat :: Numbered(i) in RotateN(fs, k, j) <==> 1 <= i <= j && i <= k
  {
    if j > 0 {
      BackupSetAfterRollovers(fs, k, j - 1);
      var prev := RotateN(fs, k, j - 1);
      var next := Rotated(prev, k);
      assert Get(prev, Base).Some?;
      forall i: nat ensures Numbered(i) in next <==> 1 <= i <= j && i <= k {
        if k > 0 && 2 <= i <= k {
          assert Get(next, Numbered(i)) == Get(prev, Numbered(i - 1));
        } else if k > 0 && i == 1 {
          assert Get(next, Numbered(1)) == Get(prev, Base);
        } else {
          assert Get(next, Numbered(i)) == Get(prev, Numbered(i));
        }
      }
    }
  }

  /** `base.1` .. `base.k` hold the base files moved away by the latest
      rollovers, newest first: `past[0]` went to `base.1` at the last rollover. */
  ghost predicate BackupsAre(fs: FS, k: int, past: seq<Option<Content>>)
  {
    forall i: nat :: 1 <= i <= k && i <= |past| ==> Get(fs, Numbered(i)) == past[i - 1]
  }

  /** The backups are the history of the base file: a rollover pushes the
      current base file onto the front of that history and drops the oldest. */
  lemma RolloverExtendsHistory(fs: FS, k: int, past: seq<Option<Content>>)
    requires k > 0
    requires BackupsAre(fs, k, past)
    ensures BackupsAre(Rotated(fs, k), k, [Get(fs, Base)] + past)
  {
    var past' := [Get(fs, Base)] + past;
    forall i: nat | 1 <= i <= k && i <= |past'|
      ensures Get(Rotated(fs, k), Numbered(i)) == past'[i - 1]
    {
      RotatedBackup(fs, k, i);
      if i > 1 {
        assert past'[i - 1] == past[i - 2];
        assert Get(fs, Numbered(i - 1)) == past[i - 2];
      }
    }
  }

  /** After a rollover, `base.1` holds the old base file and `base.i` the old `base.{i-1}`. */
  lemma RotatedBackup(fs: FS, k: int, i: nat)
    requires 1 <= i <= k
    ensures Get(Rotated(fs, k), Numbered(i)) == Get(fs, if i == 1 then Base else Numbered(i - 1))
  {
    RotatedIsPointwise(fs, k, Numbered(i));
  }
}
