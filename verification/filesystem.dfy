/**
  The part of the file system a rotating logger sees, as an immutable map from
  file names to file contents, and the operating-system calls the logger makes
  on it (existence probe, remove, rename, open for append, append a line).
 */
module FileSystem {
  import opened Wrappers

  /** The names a logger with base file name `base` can meet: `base` itself,
      `base.N` as produced by the "%s.%d" format, and every other path. */
  datatype Name = Base | Numbered(n: nat) | Other(path: string)

  /** One argument of a log call: a string (the level tags are strings) or
      any other value, identified only by an opaque number. */
  datatype Value = Str(s: string) | Opaque(id: nat)

  /** The argument list handed to `emit`. */
  type Record = seq<Value>

  /** One line written by the logger: the record it renders and its length in
      bytes (timestamp prefix, separators and newline included). */
  datatype Line = Line(record: Record, bytes: nat)

  type Content = seq<Line>

  type FS = map<Name, Content>

  /** The size a `Stat` call reports: the total byte length of the lines.
      An empty file has size 0 and no line is longer than its file. */
  function Size(c: Content): (s: nat)
    ensures |c| == 0 ==> s == 0
    ensures forall i :: 0 <= i < |c| ==> c[i].bytes <= s
  {
    if |c| == 0 then 0 else Size(c[..|c| - 1]) + c[|c| - 1].bytes
  }

  /** Appending a line grows the file by exactly that line's length. */
  lemma SizeAppend(c: Content, l: Line)
    ensures Size(c + [l]) == Size(c) + l.bytes
  {
  }

  /** The contents stored under `n`, or None when no such file exists. */
  function Get(fs: FS, n: Name): Option<Content>
  {
    if n in fs then Some(fs[n]) else None
  }

  /** Two file systems that agree on every name are the same file system. */
  lemma Extensionality(a: FS, b: FS)
    requires forall n :: Get(a, n) == Get(b, n)
    ensures a == b
  {
    assert forall n :: n in a <==> n in b by {
      forall n ensures n in a <==> n in b {
        assert Get(a, n).Some? <==> Get(b, n).Some?;
      }
    }
    forall n | n in a ensures a[n] == b[n] {
      assert Get(a, n) == Get(b, n);
    }
  }

  /** `os.Open(name)` used as an existence probe: it succeeds exactly when the file exists. */
  predicate Exists(fs: FS, n: Name)
    ensures Exists(fs, n) <==> Get(fs, n).Some?
  {
    n in fs
  }

  /** `os.Remove(name)`: the file is gone, every other file is untouched. */
  function Remove(fs: FS, n: Name): (r: FS)
    ensures n !in r
    ensures forall m :: m != n ==> Get(r, m) == Get(fs, m)
  {
    fs - {n}
  }

  /** `os.Rename(s, d)`: when `s` exists its contents move to `d`, replacing
      whatever `d` held; when `s` is missing the call fails and nothing changes. */
  function Rename(fs: FS, s: Name, d: Name): (r: FS)
    ensures s in fs && s != d ==> s !in r && Get(r, d) == Get(fs, s)
    ensures s !in fs ==> r == fs
    ensures forall m :: m != s && m != d ==> Get(r, m) == Get(fs, m)
  {
    if s in fs && s != d then (fs - {s})[d := fs[s]] else fs
  }

  /** `os.OpenFile(name, O_CREATE|O_WRONLY|O_APPEND, 0777)`: the file exists
      afterwards, keeps its contents if it existed and is empty if it is new. */
  function OpenAppend(fs: FS, n: Name): (r: FS)
    ensures Get(r, n) == Some(if n in fs then fs[n] else [])
    ensures forall m :: m != n ==> Get(r, m) == Get(fs, m)
  {
    if n in fs then fs else fs[n := []]
  }

  /** A write through a handle opened for append: the line lands at the end of the file. */
  function AppendLine(fs: FS, n: Name, l: Line): (r: FS)
    requires n in fs
    ensures Get(r, n) == Some(fs[n] + [l])
    ensures forall m :: m != n ==> Get(r, m) == Get(fs, m)
  {
    fs[n := fs[n] + [l]]
  }
}
