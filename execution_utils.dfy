/**
 * IPython frame detection (pybryt/execution/utils.py): a frame runs IPython
 * code when its code's file name starts with `<ipython`, or when the
 * directory holding that file is called `ipykernel_...`. Paths are split as
 * POSIX `os.path.split` does.
 */
module ExecutionUtils {

  predicate StartsWith(s: string, prefix: string)
  {
    |prefix| <= |s| && s[..|prefix|] == prefix
  }

  /** `p.rfind("/")`: the index of the last slash, or -1 when there is none. */
  function LastSlash(p: string): (i: int)
    ensures -1 <= i < |p|
    ensures i >= 0 ==> p[i] == '/'
    ensures forall j :: i < j < |p| ==> p[j] != '/'
  {
    if p == [] then -1
    else if p[|p| - 1] == '/' then |p| - 1
    else LastSlash(p[..|p| - 1])
  }

  /** The last slash is the only index with a slash and no slash after it. */
  lemma {:induction false} LastSlashUnique(p: string, i: int)
    requires -1 <= i < |p| && (i >= 0 ==> p[i] == '/')
    requires forall j :: i < j < |p| ==> p[j] != '/'
    ensures LastSlash(p) == i
  {
  }

  predicate AllSlashes(s: string)
  {
    forall i :: 0 <= i < |s| ==> s[i] == '/'
  }

  /** `s.rstrip("/")`. */
  function RStripSlashes(s: string): (r: string)
    ensures r == [] || r[|r| - 1] != '/'
    ensures r <= s && AllSlashes(s[|r|..])
  {
    if s != [] && s[|s| - 1] == '/' then RStripSlashes(s[..|s| - 1]) else s
  }

  /**
   * `posixpath.split(p)`: everything up to and including the last slash, and
   * the rest; the head loses its trailing slashes unless it is all slashes.
   */
  function Split(p: string): (r: (string, string))
    ensures r.0 <= p && |r.0| + |r.1| <= |p|
    ensures '/' !in r.1 && r.1 == p[|p| - |r.1|..]
    ensures r.0 == [] || AllSlashes(r.0) || r.0[|r.0| - 1] != '/'
  {
    var i := LastSlash(p) + 1;
    var head, tail := p[..i], p[i..];
    if head != [] && !AllSlashes(head) then (RStripSlashes(head), tail) else (head, tail)
  }

  /** `n` slashes. */
  function Slashes(n: nat): (s: string)
    ensures |s| == n && AllSlashes(s)
  {
    seq(n, _ => '/')
  }

  /**
   * The tail of a split holds no slash, and the path is the head, the
   * slashes the split dropped, and the tail, in that order.
   */
  lemma {:induction false} SplitRecombines(p: string)
    ensures '/' !in Split(p).1
    ensures exists n :: p == Split(p).0 + Slashes(n) + Split(p).1
  {
    var i := LastSlash(p) + 1;
    var head, tail := p[..i], p[i..];
    assert p == head + tail;
    if head != [] && !AllSlashes(head) {
      var h := RStripSlashes(head);
      var n := |head| - |h|;
      assert head[|h|..] == Slashes(n);
      assert head == h + Slashes(n);
      assert p == Split(p).0 + Slashes(n) + Split(p).1;
    } else {
      assert p == Split(p).0 + Slashes(0) + Split(p).1;
    }
  }

  /** The name of the directory holding `filename`, or "" when it has no directory part. */
  function ParentDir(filename: string): string
  {
    Split(Split(filename).0).1
  }

  /**
   * `is_ipython_frmae`, reduced to the file name of the frame's code. The
   * `except` branch sets the directory name to "" when splitting fails,
   * which it cannot do on a string.
   */
  function IsIpythonFrame(filename: string): (b: bool)
    ensures StartsWith(filename, "<ipython") ==> b
    ensures StartsWith(ParentDir(filename), "ipykernel_") ==> b
    ensures !StartsWith(filename, "<ipython") && !StartsWith(ParentDir(filename), "ipykernel_") ==> !b
  {
    StartsWith(filename, "<ipython") || StartsWith(ParentDir(filename), "ipykernel_")
  }

  /** A file name with no slash has no directory part, so only the `<ipython` prefix decides. */
  lemma {:induction false} NoDirectoryPart(filename: string)
    requires '/' !in filename
    ensures ParentDir(filename) == ""
    ensures IsIpythonFrame(filename) <==> StartsWith(filename, "<ipython")
  {
    NoSlash(filename);
    NoSlash("");
  }

  /** A name with no slash splits into an empty head and itself. */
  lemma {:induction false} NoSlash(p: string)
    requires '/' !in p
    ensures Split(p) == ("", p)
  {
    forall j | 0 <= j < |p|
      ensures p[j] != '/'
    {
      assert p[j] in p;
    }
    LastSlashUnique(p, -1);
  }

  /**
   * Splitting `d + "/" + n`, where `n` has no slash, gives `n` as the tail,
   * and `d` as the head when `d` ends in something other than a slash.
   */
  lemma {:induction false} SplitChild(d: string, n: string)
    requires '/' !in n
    ensures Split(d + "/" + n).1 == n
    ensures d != [] && d[|d| - 1] != '/' ==> Split(d + "/" + n).0 == d
  {
    var p := d + "/" + n;
    forall j | |d| < j < |p|
      ensures p[j] != '/'
    {
      assert p[j] == n[j - |d| - 1];
      assert n[j - |d| - 1] in n;
    }
    LastSlashUnique(p, |d|);
    assert p[..|d| + 1] == d + "/";
    assert p[|d| + 1..] == n;
    if d != [] && d[|d| - 1] != '/' {
      assert (d + "/")[|d| - 1] != '/';
      RStripOne(d);
    }
  }

  /**
   * The parent directory of `dir + k + "/" + name`, where `dir` is empty or
   * ends in a slash and neither `k` nor `name` holds one, is `k`.
   */
  lemma {:induction false} ParentOfChild(dir: string, k: string, name: string)
    requires dir == [] || dir[|dir| - 1] == '/'
    requires k != [] && '/' !in k && '/' !in name
    ensures ParentDir(dir + k + "/" + name) == k
  {
    var folder := dir + k;
    assert dir + k + "/" + name == folder + "/" + name;
    assert folder[|folder| - 1] != '/' by {
      assert folder[|folder| - 1] == k[|k| - 1];
      assert k[|k| - 1] in k;
    }
    SplitChild(folder, name);
    if dir == [] {
      assert folder == k;
      NoSlash(k);
    } else {
      var up := dir[..|dir| - 1];
      assert folder == up + "/" + k;
      SplitChild(up, k);
    }
  }

  /**
   * A file directly inside a directory named `ipykernel_<k>`, wherever that
   * directory is, is an IPython file.
   */
  lemma {:induction false} KernelDirectory(dir: string, k: string, name: string)
    requires dir == [] || dir[|dir| - 1] == '/'
    requires '/' !in k && '/' !in name
    ensures ParentDir(dir + "ipykernel_" + k + "/" + name) == "ipykernel_" + k
    ensures IsIpythonFrame(dir + "ipykernel_" + k + "/" + name)
  {
    var kernel := "ipykernel_" + k;
    assert dir + "ipykernel_" + k + "/" + name == dir + kernel + "/" + name;
    assert '/' !in "ipykernel_";
    assert '/' !in kernel;
    ParentOfChild(dir, kernel, name);
    assert kernel[..10] == "ipykernel_";
  }

  /** Stripping trailing slashes from `s + "/"` gives `s` when `s` ends in something else. */
  lemma {:induction false} RStripOne(s: string)
    requires s != [] && s[|s| - 1] != '/'
    ensures RStripSlashes(s + "/") == s
  {
    assert (s + "/")[..|s|] == s;
  }

  /** The example of an IPython kernel's cell file. */
  lemma {:induction false} KernelCellFile()
    ensures IsIpythonFrame("/tmp/ipykernel_42/x.py")
  {
    var p := "/tmp/ipykernel_42/x.py";
    assert p == "/tmp/" + "ipykernel_" + "42" + "/" + "x.py" by {
      assert |p| == 22;
    }
    KernelDirectory("/tmp/", "42", "x.py");
  }

  /** A plain module file is not an IPython file. */
  lemma {:induction false} LibraryFileIsNot()
    ensures !IsIpythonFrame("/usr/lib/a.py")
  {
    var p := "/usr/lib/a.py";
    assert p == "/usr/" + "lib" + "/" + "a.py" by {
      assert |p| == 13;
    }
    ParentOfChild("/usr/", "lib", "a.py");
    FirstCharDiffers(p, "<ipython");
  }

  /** A string does not start with a prefix whose first character differs from its own. */
  lemma {:induction false} FirstCharDiffers(s: string, prefix: string)
    requires s != [] && prefix != [] && s[0] != prefix[0]
    ensures !StartsWith(s, prefix)
  {
    if |prefix| <= |s| {
      assert s[..|prefix|][0] == s[0];
    }
  }
}
