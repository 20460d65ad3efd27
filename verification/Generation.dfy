/** Replacing generated files: prepare everything beside the targets, rename
    into place, and undo on failure. */
module Generation {
  import opened Common

  // ---------- The file system ----------

  type Path = seq<string>

  datatype File = File(data: string, mode: nat)

  datatype Fs = Fs(files: map<Path, File>, dirs: set<Path>)

  const NEW_MODE: nat := 0x1A4 // 0644
  const PRIVATE_MODE: nat := 0x180 // 0600

  function Parent(p: Path): Path { if p == [] then [] else p[..|p| - 1] }

  predicate WellFormed(fs: Fs) {
    && [] in fs.dirs
    && (forall p :: p in fs.files ==> p != [] && Parent(p) in fs.dirs && p !in fs.dirs)
    && (forall d :: d in fs.dirs && d != [] ==> Parent(d) in fs.dirs)
  }

  predicate Exists(fs: Fs, p: Path) { p in fs.files || p in fs.dirs }

  predicate Empty(fs: Fs, d: Path) {
    (forall p :: p in fs.files ==> Parent(p) != d) && (forall e :: e in fs.dirs && e != [] ==> Parent(e) != d)
  }

  /** An operation succeeds, is refused for a reason in the file system, or
      fails for an outside reason. */
  datatype Status = Done | Rejected | Fault

  /** The disk under the project root. Any operation may fail; `faults` counts
      the failures that come from outside, and `undoFaults` those of them that
      hit a step of the rollback or of the cleanup. */
  class Disk {
    var fs: Fs
    ghost var faults: nat
    ghost var undoFaults: nat

    /** Whether an outside condition holds: no cancellation, a readable file, an
        unchanged root, a completed sync. */
    method Check() returns (ok: bool)
      modifies this`faults
      ensures faults == old(faults) + (if ok then 0 else 1)
    {
      ok := *;
      if !ok { faults := faults + 1; }
    }

    method Mkdir(p: Path) returns (r: Status)
      modifies this`fs, this`faults
      ensures faults == old(faults) + (if r.Fault? then 1 else 0)
      ensures r.Done? ==> !Exists(old(fs), p) && p != [] && Parent(p) in old(fs).dirs && fs == Fs(old(fs).files, old(fs).dirs + {p})
      ensures !r.Done? ==> fs == old(fs)
      ensures r.Rejected? ==> Exists(fs, p) || p == [] || Parent(p) !in fs.dirs
    {
      var ok := Check();
      if !ok { return Fault; }
      if Exists(fs, p) || p == [] || Parent(p) !in fs.dirs { return Rejected; }
      fs := Fs(fs.files, fs.dirs + {p});
      return Done;
    }

    /** Open a file that must not exist yet. */
    method Create(p: Path) returns (r: Status)
      modifies this`fs, this`faults
      ensures faults == old(faults) + (if r.Fault? then 1 else 0)
      ensures r.Done? ==> !Exists(old(fs), p) && p != [] && Parent(p) in old(fs).dirs
      ensures r.Done? ==> fs == Fs(old(fs).files[p := File("", PRIVATE_MODE)], old(fs).dirs)
      ensures !r.Done? ==> fs == old(fs)
    {
      var ok := Check();
      if !ok { return Fault; }
      if Exists(fs, p) || p == [] || Parent(p) !in fs.dirs { return Rejected; }
      fs := Fs(fs.files[p := File("", PRIVATE_MODE)], fs.dirs);
      return Done;
    }

    /** A failed write may leave anything in the file. */
    method Write(p: Path, data: string, mode: nat) returns (ok: bool, ghost left: File)
      requires p in fs.files
      modifies this`fs, this`faults
      ensures faults == old(faults) + (if ok then 0 else 1)
      ensures fs == Fs(old(fs).files[p := left], old(fs).dirs)
      ensures ok ==> left == File(data, mode)
    {
      ok := Check();
      var content: File := *;
      if ok { content := File(data, mode); }
      fs := Fs(fs.files[p := content], fs.dirs);
      left := content;
    }

    method Rename(a: Path, b: Path) returns (r: Status)
      modifies this`fs, this`faults
      ensures faults == old(faults) + (if r.Fault? then 1 else 0)
      ensures r.Done? ==> a in old(fs).files && b !in old(fs).dirs && b != [] && Parent(b) in old(fs).dirs
      ensures r.Done? ==> fs == Fs((old(fs).files - {a})[b := old(fs).files[a]], old(fs).dirs)
      ensures !r.Done? ==> fs == old(fs)
      ensures r.Rejected? ==> a !in fs.files || !Writable(fs, b)
    {
      var ok := Check();
      if !ok { return Fault; }
      if a !in fs.files || !Writable(fs, b) { return Rejected; }
      fs := Fs((fs.files - {a})[b := fs.files[a]], fs.dirs);
      return Done;
    }

    /** Removing what is missing counts as done; a directory must be empty. */
    method Remove(p: Path) returns (r: Status)
      modifies this`fs, this`faults
      ensures faults == old(faults) + (if r.Fault? then 1 else 0)
      ensures r.Done? ==> fs == Fs(old(fs).files - {p}, old(fs).dirs - {p})
      ensures !r.Done? ==> fs == old(fs)
      ensures r.Rejected? ==> p == [] || (p in fs.dirs && !Empty(fs, p))
    {
      var ok := Check();
      if !ok { return Fault; }
      if p == [] || (p in fs.dirs && !Empty(fs, p)) { return Rejected; }
      fs := Fs(fs.files - {p}, fs.dirs - {p});
      return Done;
    }
  }

  /** A file can be put at the path. */
  predicate Writable(fs: Fs, path: Path) {
    path != [] && path !in fs.dirs && Parent(path) in fs.dirs
  }

  // ---------- Artifacts and their replacements ----------

  datatype Artifact = Artifact(path: Path, data: string)

  datatype Change = Change(artifact: Artifact, previous: Option<File>, temporary: Option<Path>, installed: bool)

  predicate Distinct(artifacts: seq<Artifact>) {
    forall i, j :: 0 <= i < j < |artifacts| ==> artifacts[i].path != artifacts[j].path
  }

  predicate DistinctChanges(cs: seq<Change>) {
    forall i, j :: 0 <= i < j < |cs| ==> cs[i].artifact.path != cs[j].artifact.path
  }

  /** The first `k` replacements laid over the original files. */
  function Overlay(files: map<Path, File>, cs: seq<Change>, k: nat): map<Path, File>
    requires k <= |cs|
  {
    if k == 0 then files
    else Overlay(files, cs, k - 1)[cs[k - 1].artifact.path := File(cs[k - 1].artifact.data, NEW_MODE)]
  }

  function Temps(cs: seq<Change>): set<Path> {
    set i | 0 <= i < |cs| && cs[i].temporary.Some? :: cs[i].temporary.value
  }

  /** A target, or a directory above one. */
  predicate IsTarget(cs: seq<Change>, p: Path) {
    exists i :: 0 <= i < |cs| && p <= cs[i].artifact.path
  }

  /** Temporary files are new, no targets, and pairwise different. */
  predicate TempsOk(files: map<Path, File>, cs: seq<Change>) {
    && (forall p :: p in Temps(cs) ==> p !in files && !IsTarget(cs, p))
    && (forall i, j :: 0 <= i < j < |cs| && cs[i].temporary.Some? && cs[j].temporary.Some? ==>
          cs[i].temporary.value != cs[j].temporary.value)
  }

  /** What each change remembers of the original files. */
  predicate Remembers(files: map<Path, File>, cs: seq<Change>) {
    forall i :: 0 <= i < |cs| ==> cs[i].previous == Find(files, cs[i].artifact.path)
  }

  /** Directories created in order, each below an existing or earlier one. */
  predicate CreatedOk(start: Fs, created: seq<Path>) {
    forall i :: 0 <= i < |created| ==> CreatedAt(start, created, i)
  }

  predicate CreatedAt(start: Fs, created: seq<Path>, i: nat)
    requires i < |created|
  {
    && created[i] != [] && !Exists(start, created[i]) && created[i] !in created[..i]
    && (Parent(created[i]) in start.dirs || Parent(created[i]) in created[..i])
  }

  function Made(created: seq<Path>): set<Path> { set d | d in created }

  /** Files during a generation: originals with the first `k` changes laid over
      them, and the temporary files. */
  predicate FilesOk(start: map<Path, File>, files: map<Path, File>, cs: seq<Change>, k: nat) {
    && k <= |cs| && DistinctChanges(cs) && Remembers(start, cs) && TempsOk(start, cs)
    && Temps(cs) <= files.Keys && files - Temps(cs) == Overlay(start, cs, k)
  }

  predicate FlagsOk(cs: seq<Change>, k: nat) {
    forall i :: 0 <= i < |cs| ==> (cs[i].installed <==> i < k) && (i < k ==> cs[i].temporary.None?)
  }

  predicate DirsOk(start: Fs, dirs: set<Path>, created: seq<Path>) {
    dirs == start.dirs + Made(created) && CreatedOk(start, created)
  }

  /** Installed targets are files in existing directories. */
  predicate TargetsOk(dirs: set<Path>, cs: seq<Change>, k: nat) {
    k <= |cs| && forall i :: 0 <= i < k ==>
      cs[i].artifact.path != [] && cs[i].artifact.path !in dirs && Parent(cs[i].artifact.path) in dirs
  }

  predicate During(start: Fs, fs: Fs, cs: seq<Change>, k: nat, created: seq<Path>) {
    && FilesOk(start.files, fs.files, cs, k) && FlagsOk(cs, k) && DirsOk(start, fs.dirs, created)
    && TargetsOk(fs.dirs, cs, k) && Apart(fs.dirs, cs)
  }

  /** Temporary files are not directories. */
  predicate Apart(dirs: set<Path>, cs: seq<Change>) {
    [] !in Temps(cs) && dirs !! Temps(cs)
  }

  // ---------- Steps ----------

  predicate SameArtifacts(a: seq<Change>, b: seq<Change>) {
    |a| == |b| && forall i :: 0 <= i < |a| ==> a[i].artifact == b[i].artifact && a[i].previous == b[i].previous
  }

  lemma {:induction false} OverlaySame(files: map<Path, File>, a: seq<Change>, b: seq<Change>, k: nat)
    requires SameArtifacts(a, b) && k <= |a|
    ensures Overlay(files, a, k) == Overlay(files, b, k)
  {
    if k > 0 { OverlaySame(files, a, b, k - 1); }
  }

  lemma {:induction false} OverlayMisses(files: map<Path, File>, cs: seq<Change>, k: nat, p: Path)
    requires k <= |cs| && forall i :: 0 <= i < k ==> cs[i].artifact.path != p
    ensures Find(Overlay(files, cs, k), p) == Find(files, p)
  {
    if k > 0 { OverlayMisses(files, cs, k - 1, p); }
  }

  lemma {:induction false} OverlayKeys(files: map<Path, File>, cs: seq<Change>, k: nat, p: Path)
    requires k <= |cs|
    ensures p in Overlay(files, cs, k) <==> p in files || exists i :: 0 <= i < k && cs[i].artifact.path == p
  {
    if k > 0 { OverlayKeys(files, cs, k - 1, p); }
  }

  lemma {:induction false} OverlayHolds(files: map<Path, File>, cs: seq<Change>, k: nat, i: nat)
    requires DistinctChanges(cs) && i < k <= |cs|
    ensures Find(Overlay(files, cs, k), cs[i].artifact.path) == Some(File(cs[i].artifact.data, NEW_MODE))
  {
    if i < k - 1 {
      OverlayHolds(files, cs, k - 1, i);
      assert cs[i].artifact.path != cs[k - 1].artifact.path;
    }
  }

  lemma TargetsSame(a: seq<Change>, b: seq<Change>, p: Path)
    requires SameArtifacts(a, b)
    ensures IsTarget(a, p) <==> IsTarget(b, p)
  {
    if IsTarget(a, p) { var i :| 0 <= i < |a| && p <= a[i].artifact.path; assert p <= b[i].artifact.path; }
    if IsTarget(b, p) { var i :| 0 <= i < |b| && p <= b[i].artifact.path; assert p <= a[i].artifact.path; }
  }

  /** Forgetting a temporary file. */
  lemma TempGone(cs: seq<Change>, i: nat, flag: bool)
    requires i < |cs| && cs[i].temporary.Some?
    requires forall a, b :: 0 <= a < b < |cs| && cs[a].temporary.Some? && cs[b].temporary.Some? ==>
               cs[a].temporary.value != cs[b].temporary.value
    ensures Temps(cs[i := cs[i].(temporary := None, installed := flag)]) == Temps(cs) - {cs[i].temporary.value}
  {
    var t, cs' := cs[i].temporary.value, cs[i := cs[i].(temporary := None, installed := flag)];
    forall p ensures p in Temps(cs') <==> p in Temps(cs) && p != t {
      if p in Temps(cs) && p != t {
        var j :| 0 <= j < |cs| && cs[j].temporary == Some(p);
        assert cs'[j].temporary == Some(p);
      }
      if p in Temps(cs') {
        var j :| 0 <= j < |cs'| && cs'[j].temporary == Some(p);
        assert cs[j].temporary == Some(p) && j != i;
      }
    }
  }

  lemma TempKept(cs: seq<Change>, i: nat, c: Change)
    requires i < |cs| && c.temporary == cs[i].temporary
    ensures Temps(cs[i := c]) == Temps(cs)
  {
    var cs' := cs[i := c];
    forall p ensures p in Temps(cs') <==> p in Temps(cs) {
      if p in Temps(cs) { var j :| 0 <= j < |cs| && cs[j].temporary == Some(p); assert cs'[j].temporary == Some(p); }
      if p in Temps(cs') { var j :| 0 <= j < |cs'| && cs'[j].temporary == Some(p); assert cs[j].temporary == Some(p); }
    }
  }

  lemma TempAdded(cs: seq<Change>, i: nat, t: Path)
    requires i < |cs| && cs[i].temporary.None?
    ensures Temps(cs[i := cs[i].(temporary := Some(t))]) == Temps(cs) + {t}
  {
    var cs' := cs[i := cs[i].(temporary := Some(t))];
    forall p ensures p in Temps(cs') <==> p in Temps(cs) || p == t {
      if p in Temps(cs) { var j :| 0 <= j < |cs| && cs[j].temporary == Some(p); assert cs'[j].temporary == Some(p); }
      if p == t { assert cs'[i].temporary == Some(p); }
      if p in Temps(cs') && p != t { var j :| 0 <= j < |cs'| && cs'[j].temporary == Some(p); assert cs[j].temporary == Some(p); }
    }
  }

  lemma TempsStillOk(files: map<Path, File>, a: seq<Change>, b: seq<Change>)
    requires TempsOk(files, a) && SameArtifacts(a, b) && Temps(b) <= Temps(a)
    requires forall i :: 0 <= i < |b| ==> b[i].temporary.None? || b[i].temporary == a[i].temporary
    ensures TempsOk(files, b)
  {
    forall p | p in Temps(b) ensures p !in files && !IsTarget(b, p) { TargetsSame(a, b, p); }
  }

  function SetChange(cs: seq<Change>, i: nat, temporary: Option<Path>, installed: bool): (r: seq<Change>)
    requires i < |cs|
    ensures SameArtifacts(cs, r)
  {
    cs[i := cs[i].(temporary := temporary, installed := installed)]
  }

  lemma ChangesKept(files: map<Path, File>, a: seq<Change>, b: seq<Change>)
    requires SameArtifacts(a, b) && DistinctChanges(a) && Remembers(files, a)
    ensures DistinctChanges(b) && Remembers(files, b)
  {
  }

  /** A rename installs the next change. */
  lemma InstallFiles(start: map<Path, File>, files: map<Path, File>, cs: seq<Change>, k: nat, t: Path)
    requires FilesOk(start, files, cs, k) && k < |cs| && cs[k].temporary == Some(t)
    requires t in files && files[t] == File(cs[k].artifact.data, NEW_MODE)
    ensures FilesOk(start, (files - {t})[cs[k].artifact.path := files[t]], SetChange(cs, k, None, true), k + 1)
  {
    var cs', p := SetChange(cs, k, None, true), cs[k].artifact.path;
    TempGone(cs, k, true);
    assert t in Temps(cs);
    TempsStillOk(start, cs, cs');
    ChangesKept(start, cs, cs');
    OverlaySame(start, cs, cs', k);
    assert p !in Temps(cs) by { assert IsTarget(cs, p); }
    Moved(files, Temps(cs), t, p);
  }

  lemma Moved(files: map<Path, File>, temps: set<Path>, t: Path, p: Path)
    requires t in files && t in temps && p !in temps
    ensures (files - {t})[p := files[t]] - (temps - {t}) == (files - temps)[p := files[t]]
    ensures temps <= files.Keys ==> temps - {t} <= (files - {t})[p := files[t]].Keys
  {
  }

  function Restored(files: map<Path, File>, p: Path, previous: Option<File>): map<Path, File> {
    match previous
    case None => files - {p}
    case Some(f) => files[p := f]
  }

  /** Undoing the last installed change. */
  lemma RestoreFiles(start: map<Path, File>, files: map<Path, File>, cs: seq<Change>, k: nat)
    requires k < |cs| && FilesOk(start, files, cs, k + 1) && cs[k].temporary.None?
    ensures FilesOk(start, Restored(files, cs[k].artifact.path, cs[k].previous), SetChange(cs, k, None, false), k)
  {
    var cs', p := SetChange(cs, k, None, false), cs[k].artifact.path;
    TempKept(cs, k, cs'[k]);
    TempsStillOk(start, cs, cs');
    ChangesKept(start, cs, cs');
    OverlaySame(start, cs, cs', k);
    assert p !in Temps(cs) by { assert IsTarget(cs, p); }
    forall i | 0 <= i < k ensures cs[i].artifact.path != p {}
    OverlayMisses(start, cs, k, p);
    Unmoved(files, Temps(cs), p, cs[k].previous, Overlay(start, cs, k), File(cs[k].artifact.data, NEW_MODE));
  }

  lemma Unmoved(files: map<Path, File>, temps: set<Path>, p: Path, previous: Option<File>, below: map<Path, File>, f: File)
    requires p !in temps && files - temps == below[p := f] && previous == Find(below, p)
    ensures Restored(files, p, previous) - temps == below
    ensures temps <= files.Keys ==> temps <= Restored(files, p, previous).Keys
  {
    var r := Restored(files, p, previous) - temps;
    forall q ensures q in r <==> q in below {
      assert q in files - temps <==> q in below[p := f];
    }
    forall q | q in below ensures r[q] == below[q] {
      if q != p { assert (files - temps)[q] == below[p := f][q]; }
    }
  }

  lemma DropTempFiles(start: map<Path, File>, files: map<Path, File>, cs: seq<Change>, k: nat, i: nat)
    requires FilesOk(start, files, cs, k) && i < |cs| && cs[i].temporary.Some?
    ensures FilesOk(start, files - {cs[i].temporary.value}, SetChange(cs, i, None, cs[i].installed), k)
  {
    var cs', t := SetChange(cs, i, None, cs[i].installed), cs[i].temporary.value;
    TempGone(cs, i, cs[i].installed);
    assert t in Temps(cs);
    TempsStillOk(start, cs, cs');
    ChangesKept(start, cs, cs');
    OverlaySame(start, cs, cs', k);
    assert (files - {t}) - Temps(cs') == files - Temps(cs);
  }

  lemma AddTempFiles(start: map<Path, File>, files: map<Path, File>, cs: seq<Change>, k: nat, i: nat, t: Path, f: File)
    requires FilesOk(start, files, cs, k) && i < |cs| && cs[i].temporary.None?
    requires t !in files && !IsTarget(cs, t)
    ensures FilesOk(start, files[t := f], SetChange(cs, i, Some(t), cs[i].installed), k)
  {
    var cs' := SetChange(cs, i, Some(t), cs[i].installed);
    assert cs' == cs[i := cs[i].(temporary := Some(t))];
    TempAdded(cs, i, t);
    ChangesKept(start, cs, cs');
    OverlaySame(start, cs, cs', k);
    OverlayKeys(start, cs, k, t);
    assert t !in start by { assert t !in files - Temps(cs); }
    AddedTempsOk(start, cs, cs', i, t);
    assert files[t := f] - Temps(cs') == files - Temps(cs);
  }

  lemma AddedTempsOk(start: map<Path, File>, cs: seq<Change>, cs': seq<Change>, i: nat, t: Path)
    requires TempsOk(start, cs) && i < |cs| && cs[i].temporary.None? && t !in start && !IsTarget(cs, t) && t !in Temps(cs)
    requires cs' == cs[i := cs[i].(temporary := Some(t))] && Temps(cs') == Temps(cs) + {t}
    ensures TempsOk(start, cs')
  {
    forall p | p in Temps(cs') ensures p !in start && !IsTarget(cs', p) { TargetsSame(cs, cs', p); }
    forall a, b | 0 <= a < b < |cs'| && cs'[a].temporary.Some? && cs'[b].temporary.Some?
      ensures cs'[a].temporary.value != cs'[b].temporary.value
    {
      if a == i { assert cs[b].temporary.value in Temps(cs); }
      if b == i { assert cs[a].temporary.value in Temps(cs); }
    }
  }

  lemma RewriteTempFiles(start: map<Path, File>, files: map<Path, File>, cs: seq<Change>, k: nat, i: nat, f: File)
    requires FilesOk(start, files, cs, k) && i < |cs| && cs[i].temporary.Some?
    ensures FilesOk(start, files[cs[i].temporary.value := f], cs, k)
  {
    var t := cs[i].temporary.value;
    assert t in Temps(cs);
    assert files[t := f] - Temps(cs) == files - Temps(cs);
  }

  lemma MakeDir(start: Fs, dirs: set<Path>, created: seq<Path>, d: Path)
    requires DirsOk(start, dirs, created) && d != [] && d !in dirs && d !in start.files && Parent(d) in dirs
    ensures DirsOk(start, dirs + {d}, created + [d])
  {
    var more := created + [d];
    assert Made(more) == Made(created) + {d};
    forall i | 0 <= i < |more| ensures CreatedAt(start, more, i) {
      assert more[..i] == if i < |created| then created[..i] else created;
      assert i < |created| ==> CreatedAt(start, created, i);
    }
  }

  lemma FrontOfCreated(start: Fs, dirs: set<Path>, created: seq<Path>)
    requires DirsOk(start, dirs, created) && created != []
    ensures var n := |created| - 1; DirsOk(start, dirs - {created[n]}, created[..n])
  {
    var n := |created| - 1;
    var d, front := created[n], created[..n];
    assert CreatedAt(start, created, n);
    assert Made(created) == Made(front) + {d} by { assert created == front + [d]; }
    assert dirs - {d} == start.dirs + Made(front);
    forall i | 0 <= i < |front| ensures CreatedAt(start, front, i) {
      assert CreatedAt(start, created, i) && front[..i] == created[..i];
    }
  }

  /** With the original files back, the last created directory is empty. */
  lemma LastDirEmpty(start: Fs, fs: Fs, created: seq<Path>)
    requires WellFormed(start) && fs.files == start.files && created != [] && DirsOk(start, fs.dirs, created)
    ensures var d := created[|created| - 1]; d != [] && d in fs.dirs && d !in fs.files && Empty(fs, d)
  {
    var n := |created| - 1;
    var d := created[n];
    assert CreatedAt(start, created, n);
    assert d in Made(created);
    forall e | e in fs.dirs && e != [] ensures Parent(e) != d {
      if e in Made(created) {
        var i :| 0 <= i < |created| && created[i] == e;
        assert CreatedAt(start, created, i);
        NotEarlier(created, n, i);
      }
    }
  }

  lemma NotEarlier(created: seq<Path>, n: nat, i: nat)
    requires i <= n < |created| && created[n] !in created[..n]
    ensures created[n] !in created[..i]
  {
    assert forall x :: x in created[..i] ==> x in created[..n];
  }

  // ---------- Baselines ----------

  predicate Current(files: map<Path, File>, a: Artifact) {
    a.path in files && files[a.path].data == a.data
  }

  /** The artifacts that must be replaced, with what was there before. */
  function Changes(files: map<Path, File>, artifacts: seq<Artifact>): seq<Change> {
    if artifacts == [] then []
    else
      var rest, a := Changes(files, artifacts[..|artifacts| - 1]), artifacts[|artifacts| - 1];
      if Current(files, a) then rest else rest + [Change(a, Find(files, a.path), None, false)]
  }

  lemma {:induction false} ChangesFrom(files: map<Path, File>, artifacts: seq<Artifact>, i: nat)
    requires i < |Changes(files, artifacts)|
    ensures exists j :: 0 <= j < |artifacts| && Changes(files, artifacts)[i] == Change(artifacts[j], Find(files, artifacts[j].path), None, false)
                        && !Current(files, artifacts[j])
  {
    var n := |artifacts| - 1;
    var rest := Changes(files, artifacts[..n]);
    if i < |rest| {
      ChangesFrom(files, artifacts[..n], i);
      var j :| 0 <= j < n && rest[i] == Change(artifacts[..n][j], Find(files, artifacts[..n][j].path), None, false) && !Current(files, artifacts[..n][j]);
      assert artifacts[j] == artifacts[..n][j];
    } else {
      assert artifacts[n] == artifacts[n];
    }
  }

  lemma {:induction false} ChangesOk(files: map<Path, File>, artifacts: seq<Artifact>)
    requires Distinct(artifacts)
    ensures var cs := Changes(files, artifacts); DistinctChanges(cs) && Remembers(files, cs) && Temps(cs) == {} && FlagsOk(cs, 0)
  {
    var cs := Changes(files, artifacts);
    forall i | 0 <= i < |cs| ensures cs[i].previous == Find(files, cs[i].artifact.path) && cs[i].temporary.None? && !cs[i].installed {
      ChangesFrom(files, artifacts, i);
    }
    DistinctFrom(files, artifacts);
  }

  lemma {:induction false} DistinctFrom(files: map<Path, File>, artifacts: seq<Artifact>)
    requires Distinct(artifacts)
    ensures DistinctChanges(Changes(files, artifacts))
  {
    if artifacts != [] {
      var n := |artifacts| - 1;
      DistinctFrom(files, artifacts[..n]);
      var rest := Changes(files, artifacts[..n]);
      forall i | 0 <= i < |rest| ensures rest[i].artifact.path != artifacts[n].path {
        ChangesFrom(files, artifacts[..n], i);
        var j :| 0 <= j < n && rest[i].artifact == artifacts[..n][j];
        assert artifacts[j].path != artifacts[n].path;
      }
    }
  }

  lemma {:induction false} ChangesCover(files: map<Path, File>, artifacts: seq<Artifact>, j: nat)
    requires j < |artifacts| && !Current(files, artifacts[j])
    ensures exists i :: 0 <= i < |Changes(files, artifacts)| && Changes(files, artifacts)[i].artifact == artifacts[j]
  {
    var n := |artifacts| - 1;
    var cs, rest := Changes(files, artifacts), Changes(files, artifacts[..n]);
    if j < n {
      ChangesCover(files, artifacts[..n], j);
      var i :| 0 <= i < |rest| && rest[i].artifact == artifacts[..n][j];
      assert cs[i].artifact == artifacts[j];
    } else {
      assert cs[|rest|].artifact == artifacts[j];
    }
  }

  /** After all changes every artifact holds its bytes and no other file differs. */
  lemma OverlayMeans(files: map<Path, File>, artifacts: seq<Artifact>)
    requires Distinct(artifacts)
    ensures var cs := Changes(files, artifacts);
            var after := Overlay(files, cs, |cs|);
            && (forall j :: 0 <= j < |artifacts| ==> artifacts[j].path in after && after[artifacts[j].path].data == artifacts[j].data)
            && (forall p :: (forall j :: 0 <= j < |artifacts| ==> artifacts[j].path != p) ==> Find(after, p) == Find(files, p))
  {
    var cs := Changes(files, artifacts);
    var after := Overlay(files, cs, |cs|);
    ChangesOk(files, artifacts);
    forall j | 0 <= j < |artifacts| ensures artifacts[j].path in after && after[artifacts[j].path].data == artifacts[j].data {
      var p := artifacts[j].path;
      if Current(files, artifacts[j]) {
        forall i | 0 <= i < |cs| ensures cs[i].artifact.path != p {
          ChangesFrom(files, artifacts, i);
          var k :| 0 <= k < |artifacts| && cs[i].artifact == artifacts[k] && !Current(files, artifacts[k]);
        }
        OverlayMisses(files, cs, |cs|, p);
      } else {
        ChangesCover(files, artifacts, j);
        var i :| 0 <= i < |cs| && cs[i].artifact == artifacts[j];
        OverlayHolds(files, cs, |cs|, i);
      }
    }
    forall p | forall j :: 0 <= j < |artifacts| ==> artifacts[j].path != p ensures Find(after, p) == Find(files, p) {
      forall i | 0 <= i < |cs| ensures cs[i].artifact.path != p { ChangesFrom(files, artifacts, i); }
      OverlayMisses(files, cs, |cs|, p);
    }
  }

  // ---------- Preparing ----------

  lemma StartIsKept(start: map<Path, File>, files: map<Path, File>, cs: seq<Change>, p: Path)
    requires FilesOk(start, files, cs, 0) && p in start
    ensures p in files
  {
    assert p in files - Temps(cs);
  }

  method EnsureDirectories(disk: Disk, directory: Path, ghost start: Fs, ghost cs: seq<Change>, ghost before: seq<Path>)
    returns (ok: bool, created: seq<Path>)
    requires During(start, disk.fs, cs, 0, before) && [] in disk.fs.dirs
    modifies disk`fs, disk`faults
    ensures During(start, disk.fs, cs, 0, before + created) && old(disk.fs).dirs <= disk.fs.dirs
    ensures disk.fs.files == old(disk.fs).files && forall d :: d in created ==> d <= directory
    ensures disk.faults >= old(disk.faults) && (ok ==> disk.faults == old(disk.faults) && directory in disk.fs.dirs)
    ensures !ok ==> disk.faults > old(disk.faults) || exists n :: 0 <= n <= |directory| && directory[..n] in disk.fs.files
  {
    created := [];
    assert before + created == before;
    for i := 0 to |directory|
      invariant During(start, disk.fs, cs, 0, before + created) && disk.fs.files == old(disk.fs).files
      invariant old(disk.fs).dirs <= disk.fs.dirs && directory[..i] in disk.fs.dirs
      invariant disk.faults == old(disk.faults) && forall d :: d in created ==> d <= directory
    {
      var current := directory[..i + 1];
      assert Parent(current) == directory[..i];
      var inspected := disk.Check();
      if !inspected || current in disk.fs.files { return false, created; }
      if current !in disk.fs.dirs {
        ghost var fs := disk.fs;
        var r := disk.Mkdir(current);
        if !r.Done? { return false, created; }
        if current in start.files { StartIsKept(start.files, fs.files, cs, current); }
        MakeDir(start, fs.dirs, before + created, current);
        Grow(before, created, current);
        created := created + [current];
      }
    }
    assert directory[..|directory|] == directory;
    return true, created;
  }

  lemma Grow(a: seq<Path>, b: seq<Path>, d: Path)
    ensures (a + b) + [d] == a + (b + [d])
  {
  }

  /** A new file beside the target, under a name that no artifact has. */
  method CreateSibling(disk: Disk, target: Path, targets: set<Path>) returns (t: Option<Path>)
    modifies disk`fs, disk`faults
    ensures t.None? ==> disk.fs == old(disk.fs) && disk.faults > old(disk.faults)
    ensures t.Some? ==> disk.faults == old(disk.faults)
    ensures t.Some? ==> t.value != [] && !Exists(old(disk.fs), t.value) && t.value !in targets
    ensures t.Some? ==> disk.fs == Fs(old(disk.fs).files[t.value := File("", PRIVATE_MODE)], old(disk.fs).dirs)
  {
    for attempt := 0 to 32
      invariant disk.fs == old(disk.fs) && disk.faults == old(disk.faults)
    {
      var name: string := *;
      var candidate := Parent(target) + [name];
      if candidate !in targets {
        var r := disk.Create(candidate);
        if r.Done? { return Some(candidate); }
        if r.Fault? { return None; }
      }
    }
    disk.faults := disk.faults + 1;
    return None;
  }

  function TargetSet(cs: seq<Change>): (r: set<Path>)
    ensures forall p :: p in r <==> IsTarget(cs, p)
  {
    var r := set i, n | 0 <= i < |cs| && 0 <= n <= |cs[i].artifact.path| :: cs[i].artifact.path[..n];
    assert forall p :: IsTarget(cs, p) ==> p in r by {
      forall p | IsTarget(cs, p) ensures p in r {
        var i :| 0 <= i < |cs| && p <= cs[i].artifact.path;
        assert p == cs[i].artifact.path[..|p|];
      }
    }
    r
  }

  /** Changes `from..upto` have complete temporary files. */
  predicate Ready(files: map<Path, File>, cs: seq<Change>, from: nat, upto: nat) {
    upto <= |cs| && forall i :: from <= i < upto ==>
      cs[i].temporary.Some? && cs[i].temporary.value in files && files[cs[i].temporary.value] == File(cs[i].artifact.data, NEW_MODE)
  }

  /** Create and fill the temporary file of change `i`. */
  method PrepareTemporary(disk: Disk, cs: seq<Change>, i: nat, ghost start: Fs, ghost created: seq<Path>)
    returns (ok: bool, after: seq<Change>)
    requires During(start, disk.fs, cs, 0, created) && i < |cs| && Ready(disk.fs.files, cs, 0, i) && cs[i].temporary.None?
    modifies disk`fs, disk`faults
    ensures During(start, disk.fs, after, 0, created) && SameArtifacts(cs, after)
    ensures forall j :: i < j < |cs| ==> after[j] == cs[j]
    ensures disk.fs.dirs == old(disk.fs).dirs
    ensures if ok then disk.faults == old(disk.faults) else disk.faults > old(disk.faults)
    ensures ok ==> Ready(disk.fs.files, after, 0, i + 1)
  {
    after := cs;
    ghost var fs0 := disk.fs;
    var t := CreateSibling(disk, cs[i].artifact.path, TargetSet(cs));
    if t.None? { return false, cs; }
    AddTempFiles(start.files, fs0.files, cs, 0, i, t.value, File("", PRIVATE_MODE));
    after := SetChange(cs, i, t, false);
    TempAdded(cs, i, t.value);
    assert after == cs[i := cs[i].(temporary := t)];
    ghost var fs1 := disk.fs;
    ghost var left;
    ok, left := disk.Write(t.value, cs[i].artifact.data, NEW_MODE);
    RewriteTempFiles(start.files, fs1.files, after, 0, i, left);
    if ok { StillReady(fs0.files, cs, i, t.value, after, disk.fs.files); }
  }

  lemma StillReady(files: map<Path, File>, cs: seq<Change>, i: nat, t: Path, after: seq<Change>, now: map<Path, File>)
    requires Ready(files, cs, 0, i) && i < |cs| && t !in files && after == SetChange(cs, i, Some(t), false)
    requires t in now && now[t] == File(cs[i].artifact.data, NEW_MODE)
    requires forall p :: p in files ==> p in now && (p != t ==> now[p] == files[p])
    ensures Ready(now, after, 0, i + 1)
  {
  }

  /** Some directory above a target is a file. */
  predicate Obstructed(files: map<Path, File>, cs: seq<Change>) {
    exists i, n :: 0 <= i < |cs| && 0 <= n < |cs[i].artifact.path| && cs[i].artifact.path[..n] in files
  }

  lemma ObstructedAtStart(start: map<Path, File>, files: map<Path, File>, cs: seq<Change>, i: nat, n: nat)
    requires FilesOk(start, files, cs, 0) && i < |cs|
    requires n <= |Parent(cs[i].artifact.path)| && Parent(cs[i].artifact.path)[..n] in files && cs[i].artifact.path != []
    ensures Obstructed(start, cs)
  {
    var p := cs[i].artifact.path[..n];
    assert p == Parent(cs[i].artifact.path)[..n];
    assert p <= cs[i].artifact.path;
    assert IsTarget(cs, p);
    assert p in files - Temps(cs);
  }

  /** Created directories lie above targets. */
  predicate Needed(cs: seq<Change>, created: seq<Path>) {
    forall d :: d in created ==> exists i :: 0 <= i < |cs| && d <= Parent(cs[i].artifact.path)
  }

  lemma NeededMore(a: seq<Change>, b: seq<Change>, i: nat, created: seq<Path>, made: seq<Path>)
    requires SameArtifacts(a, b) && i < |a| && Needed(a, created) && forall d :: d in made ==> d <= Parent(a[i].artifact.path)
    ensures Needed(b, created + made)
  {
    forall d | d in created + made ensures exists j :: 0 <= j < |b| && d <= Parent(b[j].artifact.path) {
      if d in created {
        var j :| 0 <= j < |a| && d <= Parent(a[j].artifact.path);
        assert d <= Parent(b[j].artifact.path);
      } else {
        assert d <= Parent(b[i].artifact.path);
      }
    }
  }

  predicate ParentsExist(dirs: set<Path>, cs: seq<Change>, upto: nat) {
    upto <= |cs| && forall i :: 0 <= i < upto ==> Parent(cs[i].artifact.path) in dirs
  }

  /** Directories and temporary file of change `i`. */
  method PrepareOne(disk: Disk, cs: seq<Change>, i: nat, created: seq<Path>, ghost start: Fs)
    returns (ok: bool, after: seq<Change>, more: seq<Path>)
    requires During(start, disk.fs, cs, 0, created) && [] in disk.fs.dirs && Needed(cs, created)
    requires i < |cs| && Ready(disk.fs.files, cs, 0, i) && cs[i].temporary.None? && cs[i].artifact.path != []
    modifies disk`fs, disk`faults
    ensures During(start, disk.fs, after, 0, more) && SameArtifacts(cs, after) && Needed(after, more)
    ensures old(disk.fs).dirs <= disk.fs.dirs && forall j :: i < j < |cs| ==> after[j] == cs[j]
    ensures ok ==> Ready(disk.fs.files, after, 0, i + 1) && Parent(cs[i].artifact.path) in disk.fs.dirs
    ensures disk.faults >= old(disk.faults)
    ensures if ok then disk.faults == old(disk.faults) else disk.faults > old(disk.faults) || Obstructed(start.files, after)
  {
    var made;
    after, more := cs, created;
    ok, made := EnsureDirectories(disk, Parent(cs[i].artifact.path), start, cs, created);
    NeededMore(cs, cs, i, created, made);
    more := created + made;
    if !ok {
      if disk.faults == old(disk.faults) {
        ghost var n :| 0 <= n <= |Parent(cs[i].artifact.path)| && Parent(cs[i].artifact.path)[..n] in disk.fs.files;
        ObstructedAtStart(start.files, disk.fs.files, cs, i, n);
      }
      return;
    }
    ok, after := PrepareTemporary(disk, cs, i, start, more);
    NeededMore(cs, after, i, more, []);
    assert more + [] == more;
  }

  method PrepareAll(disk: Disk, cs: seq<Change>, ghost start: Fs) returns (ok: bool, after: seq<Change>, created: seq<Path>)
    requires During(start, disk.fs, cs, 0, []) && [] in disk.fs.dirs
    requires forall i :: 0 <= i < |cs| ==> cs[i].temporary.None? && cs[i].artifact.path != []
    modifies disk`fs, disk`faults
    ensures During(start, disk.fs, after, 0, created) && SameArtifacts(cs, after) && Needed(after, created)
    ensures ok ==> Ready(disk.fs.files, after, 0, |after|) && ParentsExist(disk.fs.dirs, after, |after|)
    ensures disk.faults >= old(disk.faults)
    ensures if ok then disk.faults == old(disk.faults) else disk.faults > old(disk.faults) || Obstructed(start.files, after)
  {
    after, created := cs, [];
    for i := 0 to |cs|
      invariant During(start, disk.fs, after, 0, created) && SameArtifacts(cs, after) && Needed(after, created)
      invariant forall j :: i <= j < |cs| ==> after[j].temporary.None?
      invariant Ready(disk.fs.files, after, 0, i) && ParentsExist(disk.fs.dirs, after, i)
      invariant [] in disk.fs.dirs && disk.faults == old(disk.faults)
    {
      var going := disk.Check();
      if !going { return false, after, created; }
      ok, after, created := PrepareOne(disk, after, i, created, start);
      if !ok { return false, after, created; }
    }
    return true, after, created;
  }

  // ---------- Installing and undoing ----------

  /** Rename one temporary file into place after another; stop at a failure. */
  method Install(disk: Disk, cs: seq<Change>, ghost start: Fs, ghost created: seq<Path>) returns (after: seq<Change>, k: nat)
    requires During(start, disk.fs, cs, 0, created) && Ready(disk.fs.files, cs, 0, |cs|)
    modifies disk`fs, disk`faults
    ensures During(start, disk.fs, after, k, created) && SameArtifacts(cs, after) && disk.fs.dirs == old(disk.fs).dirs
    ensures disk.faults >= old(disk.faults)
    ensures if k == |cs| then disk.faults == old(disk.faults)
            else disk.faults > old(disk.faults) || !Writable(disk.fs, cs[k].artifact.path)
  {
    after, k := cs, 0;
    while k < |cs|
      invariant k <= |cs| && SameArtifacts(cs, after) && disk.fs.dirs == old(disk.fs).dirs && disk.faults == old(disk.faults)
      invariant During(start, disk.fs, after, k, created) && Ready(disk.fs.files, after, k, |cs|)
    {
      var t := after[k].temporary.value;
      ghost var fs := disk.fs;
      var r := disk.Rename(t, after[k].artifact.path);
      if !r.Done? { return; }
      Installed(start, fs, after, k, created);
      after := SetChange(after, k, None, true);
      k := k + 1;
    }
  }

  lemma Installed(start: Fs, fs: Fs, cs: seq<Change>, k: nat, created: seq<Path>)
    requires During(start, fs, cs, k, created) && k < |cs| && Ready(fs.files, cs, k, |cs|) && Writable(fs, cs[k].artifact.path)
    ensures var t := cs[k].temporary.value;
            var now := Fs((fs.files - {t})[cs[k].artifact.path := fs.files[t]], fs.dirs);
            && During(start, now, SetChange(cs, k, None, true), k + 1, created)
            && Ready(now.files, SetChange(cs, k, None, true), k + 1, |cs|)
  {
    var t := cs[k].temporary.value;
    InstallFiles(start.files, fs.files, cs, k, t);
    OthersReady(fs.files, cs, k, t, start.files);
    TempGone(cs, k, true);
  }

  lemma OthersReady(files: map<Path, File>, cs: seq<Change>, k: nat, t: Path, start: map<Path, File>)
    requires k < |cs| && cs[k].temporary == Some(t) && t in files && TempsOk(start, cs) && Ready(files, cs, k, |cs|)
    ensures Ready((files - {t})[cs[k].artifact.path := files[t]], SetChange(cs, k, None, true), k + 1, |cs|)
  {
    forall i | k < i < |cs| ensures cs[i].temporary.value != t && cs[i].temporary.value != cs[k].artifact.path {
      assert cs[i].temporary.value in Temps(cs);
      assert IsTarget(cs, cs[k].artifact.path);
    }
  }

  /** Put the previous content back under a fresh file and rename it over. */
  method Recreate(disk: Disk, path: Path, previous: File, targets: set<Path>) returns (faulted: bool)
    modifies disk`fs, disk`faults
    ensures disk.faults >= old(disk.faults) && (faulted <==> disk.faults > old(disk.faults))
    ensures !faulted && Writable(old(disk.fs), path) ==> disk.fs == Fs(old(disk.fs).files[path := previous], old(disk.fs).dirs)
  {
    var t := CreateSibling(disk, path, targets);
    if t.None? { return true; }
    ghost var left;
    var ok;
    ok, left := disk.Write(t.value, previous.data, previous.mode);
    var r := Fault;
    if ok { r := disk.Rename(t.value, path); }
    if r.Done? {
      assert left == previous;
      Replaced(old(disk.fs).files, t.value, path, previous);
      return false;
    }
    var removed := disk.Remove(t.value);
    return r.Fault? || removed.Fault?;
  }

  lemma Replaced(files: map<Path, File>, t: Path, p: Path, f: File)
    requires t !in files
    ensures (files[t := File("", PRIVATE_MODE)][t := f] - {t})[p := f] == files[p := f]
  {
  }

  /** Undo one installed change; `faulted` tells that the undo itself failed. */
  method UndoOne(disk: Disk, cs: seq<Change>, k: nat, ghost start: Fs, ghost created: seq<Path>) returns (faulted: bool)
    requires k < |cs|
    modifies disk`fs, disk`faults
    ensures disk.faults >= old(disk.faults) && (faulted <==> disk.faults > old(disk.faults))
    ensures !faulted && During(start, old(disk.fs), cs, k + 1, created) ==>
              During(start, disk.fs, SetChange(cs, k, None, false), k, created)
  {
    var path := cs[k].artifact.path;
    ghost var fs := disk.fs;
    ghost var expected := During(start, fs, cs, k + 1, created);
    if expected {
      RestoreFiles(start.files, fs.files, cs, k);
      TempKept(cs, k, cs[k].(temporary := None, installed := false));
    }
    if cs[k].previous.None? {
      var r := disk.Remove(path);
      assert expected ==> fs.dirs - {path} == fs.dirs;
      return r.Fault?;
    }
    faulted := Recreate(disk, path, cs[k].previous.value, TargetSet(cs));
  }

  /** Undo installed changes last to first, going on after a failure. */
  method Rollback(disk: Disk, cs: seq<Change>, k: nat, ghost start: Fs, ghost created: seq<Path>)
    returns (after: seq<Change>, undone: bool)
    requires During(start, disk.fs, cs, k, created)
    modifies disk
    ensures undone ==> During(start, disk.fs, after, 0, created)
    ensures disk.faults >= old(disk.faults) && (undone <==> disk.faults == old(disk.faults))
    ensures disk.undoFaults == old(disk.undoFaults) + (disk.faults - old(disk.faults))
  {
    after, undone := cs, true;
    ghost var before := disk.faults;
    var index: nat := k;
    while index > 0
      invariant index <= k && |after| == |cs|
      invariant disk.faults >= old(disk.faults) && (undone <==> disk.faults == old(disk.faults))
      invariant undone ==> During(start, disk.fs, after, index, created)
      invariant disk.undoFaults == old(disk.undoFaults)
    {
      index := index - 1;
      var faulted := UndoOne(disk, after, index, start, created);
      after := SetChange(after, index, None, false);
      undone := undone && !faulted;
    }
    if k > 0 {
      var synced := disk.Check();
      undone := undone && synced;
    }
    disk.undoFaults := disk.undoFaults + (disk.faults - before);
  }

  /** Remove temporary files, then created directories. */
  method CleanupPrepared(disk: Disk, cs: seq<Change>, created: seq<Path>, ghost start: Fs) returns (undone: bool)
    requires WellFormed(start)
    modifies disk
    ensures undone && During(start, old(disk.fs), cs, 0, created) ==> disk.fs == start
    ensures disk.faults >= old(disk.faults) && (undone <==> disk.faults == old(disk.faults))
    ensures disk.undoFaults == old(disk.undoFaults) + (disk.faults - old(disk.faults))
  {
    var after, removed;
    ghost var before := disk.faults;
    after, undone := RemoveTemporaries(disk, cs, created, start);
    removed := RemoveEmptyDirectories(disk, created, start);
    undone := undone && removed;
    disk.undoFaults := disk.undoFaults + (disk.faults - before);
  }

  lemma OneDirFewer(start: Fs, fs: Fs, created: seq<Path>, n: nat)
    requires WellFormed(start) && 0 < n <= |created| && fs.files == start.files && DirsOk(start, fs.dirs, created[..n])
    ensures var d := created[n - 1];
            && d != [] && d in fs.dirs && Empty(fs, d) && fs.files - {d} == start.files
            && DirsOk(start, fs.dirs - {d}, created[..n - 1])
  {
    LastDirEmpty(start, fs, created[..n]);
    FrontOfCreated(start, fs.dirs, created[..n]);
    assert created[..n][..n - 1] == created[..n - 1];
  }

  /** Created directories go last to first; none of them can be in use. */
  method RemoveEmptyDirectories(disk: Disk, created: seq<Path>, ghost start: Fs) returns (removed: bool)
    requires WellFormed(start)
    modifies disk`fs, disk`faults
    ensures removed && old(disk.fs).files == start.files && DirsOk(start, old(disk.fs).dirs, created) ==> disk.fs == start
    ensures disk.faults >= old(disk.faults) && (removed <==> disk.faults == old(disk.faults))
  {
    removed := true;
    var n: nat := |created|;
    ghost var clean := disk.fs.files == start.files && DirsOk(start, disk.fs.dirs, created);
    assert created[..n] == created;
    while n > 0
      invariant n <= |created|
      invariant disk.faults >= old(disk.faults) && (removed <==> disk.faults == old(disk.faults))
      invariant clean && removed ==> disk.fs.files == start.files && DirsOk(start, disk.fs.dirs, created[..n])
    {
      if clean && removed { OneDirFewer(start, disk.fs, created, n); }
      var r := disk.Remove(created[n - 1]);
      n := n - 1;
      removed := removed && !r.Fault?;
    }
    assert Made(created[..0]) == {};
  }

  method RemoveTemporaries(disk: Disk, cs: seq<Change>, ghost created: seq<Path>, ghost start: Fs)
    returns (after: seq<Change>, undone: bool)
    modifies disk`fs, disk`faults
    ensures undone && During(start, old(disk.fs), cs, 0, created) ==>
              disk.fs.files == start.files && DirsOk(start, disk.fs.dirs, created)
    ensures disk.faults >= old(disk.faults) && (undone <==> disk.faults == old(disk.faults))
  {
    after, undone := cs, true;
    ghost var expected := During(start, disk.fs, cs, 0, created);
    for i := 0 to |cs|
      invariant |after| == |cs| && forall j :: i <= j < |cs| ==> after[j] == cs[j]
      invariant disk.faults >= old(disk.faults) && (undone <==> disk.faults == old(disk.faults))
      invariant expected && undone ==> During(start, disk.fs, after, 0, created) && forall j :: 0 <= j < i ==> after[j].temporary.None?
    {
      if cs[i].temporary.Some? {
        var t := cs[i].temporary.value;
        ghost var fs := disk.fs;
        var r := disk.Remove(t);
        if expected && undone { TemporaryGone(start, fs, after, i, created); }
        after := SetChange(after, i, None, after[i].installed);
        undone := undone && !r.Fault?;
      }
    }
    if expected && undone { assert Temps(after) == {}; }
  }

  lemma TemporaryGone(start: Fs, fs: Fs, cs: seq<Change>, i: nat, created: seq<Path>)
    requires During(start, fs, cs, 0, created) && i < |cs| && cs[i].temporary.Some?
    ensures var t := cs[i].temporary.value;
            && t != [] && t !in fs.dirs
            && During(start, Fs(fs.files - {t}, fs.dirs - {t}), SetChange(cs, i, None, cs[i].installed), 0, created)
  {
    var t := cs[i].temporary.value;
    assert t in Temps(cs);
    assert fs.dirs - {t} == fs.dirs;
    DropTempFiles(start.files, fs.files, cs, 0, i);
    TempGone(cs, i, cs[i].installed);
  }

  // ---------- The whole operation ----------

  function Targets(cs: seq<Change>): (r: seq<Path>)
    ensures |r| == |cs| && forall i :: 0 <= i < |r| ==> r[i] == cs[i].artifact.path
  {
    seq(|cs|, i requires 0 <= i < |cs| => cs[i].artifact.path)
  }

  datatype Outcome = Generated(written: seq<Path>, same: seq<Path>) | Failed(undone: bool)

  method ReadBaselines(disk: Disk, artifacts: seq<Artifact>) returns (ok: bool, cs: seq<Change>, same: seq<Path>)
    modifies disk`faults
    ensures ok ==> cs == Changes(disk.fs.files, artifacts) && forall j :: 0 <= j < |artifacts| ==> artifacts[j].path !in disk.fs.dirs
    ensures if ok then disk.faults == old(disk.faults)
            else disk.faults > old(disk.faults) || exists j :: 0 <= j < |artifacts| && artifacts[j].path in disk.fs.dirs
  {
    cs, same := [], [];
    for i := 0 to |artifacts|
      invariant cs == Changes(disk.fs.files, artifacts[..i]) && disk.faults == old(disk.faults)
      invariant forall j :: 0 <= j < i ==> artifacts[j].path !in disk.fs.dirs
    {
      var a := artifacts[i];
      var readable := disk.Check();
      assert artifacts[..i + 1][..i] == artifacts[..i];
      if !readable || a.path in disk.fs.dirs { return false, cs, same; }
      if a.path in disk.fs.files && disk.fs.files[a.path].data == a.data {
        same := same + [a.path];
      } else {
        cs := cs + [Change(a, Find(disk.fs.files, a.path), None, false)];
      }
    }
    assert artifacts[..|artifacts|] == artifacts;
    return true, cs, same;
  }

  lemma Begin(fs: Fs, artifacts: seq<Artifact>)
    requires Distinct(artifacts)
    ensures During(fs, fs, Changes(fs.files, artifacts), 0, []) && Temps(Changes(fs.files, artifacts)) == {}
    ensures forall i :: 0 <= i < |Changes(fs.files, artifacts)| ==> Changes(fs.files, artifacts)[i].temporary.None?
  {
    var cs := Changes(fs.files, artifacts);
    ChangesOk(fs.files, artifacts);
    assert fs.files - {} == fs.files;
    assert Made([]) == {};
    forall i | 0 <= i < |cs| ensures cs[i].temporary.None? { ChangesFrom(fs.files, artifacts, i); }
  }

  /** Undo whatever was installed and remove whatever was prepared. */
  method Abandon(disk: Disk, cs: seq<Change>, k: nat, created: seq<Path>, ghost start: Fs) returns (undone: bool)
    requires WellFormed(start) && During(start, disk.fs, cs, k, created)
    modifies disk
    ensures disk.undoFaults == old(disk.undoFaults) ==> disk.fs == start
    ensures disk.undoFaults >= old(disk.undoFaults) && (undone <==> disk.undoFaults == old(disk.undoFaults))
    ensures disk.faults >= old(disk.faults)
  {
    var after, rolledBack := Rollback(disk, cs, k, start, created);
    var cleaned := CleanupPrepared(disk, after, created, start);
    undone := rolledBack && cleaned;
  }

  lemma Finished(start: Fs, fs: Fs, cs: seq<Change>, created: seq<Path>, artifacts: seq<Artifact>)
    requires During(start, fs, cs, |cs|, created) && SameArtifacts(Changes(start.files, artifacts), cs)
    ensures fs.files == Overlay(start.files, Changes(start.files, artifacts), |cs|) && start.dirs <= fs.dirs
  {
    assert Temps(cs) == {};
    assert fs.files - {} == fs.files;
    OverlaySame(start.files, Changes(start.files, artifacts), cs, |cs|);
  }

  /** No path contains another, none is a directory, and no file is where a
      directory is needed. */
  predicate Clear(fs: Fs, artifacts: seq<Artifact>) {
    && (forall i, j :: 0 <= i < |artifacts| && 0 <= j < |artifacts| && i != j ==> !(artifacts[i].path <= artifacts[j].path))
    && (forall i :: 0 <= i < |artifacts| ==> artifacts[i].path !in fs.dirs)
    && (forall i, n :: 0 <= i < |artifacts| && 0 <= n < |artifacts[i].path| ==> artifacts[i].path[..n] !in fs.files)
  }

  lemma ClearIsUnobstructed(fs: Fs, artifacts: seq<Artifact>, cs: seq<Change>)
    requires Clear(fs, artifacts) && SameArtifacts(Changes(fs.files, artifacts), cs)
    ensures !Obstructed(fs.files, cs)
  {
    forall i, n | 0 <= i < |cs| && 0 <= n < |cs[i].artifact.path| ensures cs[i].artifact.path[..n] !in fs.files {
      ChangesFrom(fs.files, artifacts, i);
      var j :| 0 <= j < |artifacts| && cs[i].artifact == artifacts[j];
    }
  }

  lemma ClearIsWritable(start: Fs, fs: Fs, artifacts: seq<Artifact>, cs: seq<Change>, created: seq<Path>, k: nat)
    requires Clear(start, artifacts) && SameArtifacts(Changes(start.files, artifacts), cs) && [] in start.dirs
    requires DirsOk(start, fs.dirs, created) && Needed(cs, created) && ParentsExist(fs.dirs, cs, |cs|) && k < |cs|
    ensures Writable(fs, cs[k].artifact.path)
  {
    var p := cs[k].artifact.path;
    ChangesFrom(start.files, artifacts, k);
    var a :| 0 <= a < |artifacts| && cs[k].artifact == artifacts[a];
    if p in created {
      var i :| 0 <= i < |cs| && p <= Parent(cs[i].artifact.path);
      ChangesFrom(start.files, artifacts, i);
      var b :| 0 <= b < |artifacts| && cs[i].artifact == artifacts[b];
      BelowParent(p, artifacts[b].path);
    }
  }

  lemma BelowParent(p: Path, q: Path)
    requires p <= Parent(q) && p != []
    ensures p <= q && p != q
  {
    assert Parent(q) <= q;
  }

  /** Write all artifacts or none: on success exactly the differing ones are
      replaced; on failure, whatever caused it, the file system is what it was
      unless a step of the rollback or cleanup itself failed from outside; and
      with nothing in the way and nothing failing from outside it succeeds. */
  method GenerateContext(disk: Disk, artifacts: seq<Artifact>) returns (r: Outcome)
    requires WellFormed(disk.fs) && Distinct(artifacts)
    modifies disk
    ensures r.Generated? ==>
      var cs := Changes(old(disk.fs).files, artifacts);
      && disk.fs.files == Overlay(old(disk.fs).files, cs, |cs|) && old(disk.fs).dirs <= disk.fs.dirs
      && r.written == Targets(cs)
    ensures r.Failed? && disk.undoFaults == old(disk.undoFaults) ==> disk.fs == old(disk.fs)
    ensures r.Failed? ==> (r.undone <==> disk.undoFaults == old(disk.undoFaults))
    ensures disk.faults == old(disk.faults) && Clear(old(disk.fs), artifacts) ==> r.Generated?
  {
    ghost var start := disk.fs;
    var ok, cs, same := ReadBaselines(disk, artifacts);
    if !ok { return Failed(true); }
    Begin(start, artifacts);
    NoEmptyPath(start, artifacts);
    if cs == [] { return Generated([], same); }
    ghost var all := cs;
    var created;
    ok, cs, created := PrepareAll(disk, cs, start);
    if ok { ok := disk.Check(); }
    if !ok {
      if Clear(start, artifacts) { ClearIsUnobstructed(start, artifacts, cs); }
      var undone := Abandon(disk, cs, 0, created, start);
      return Failed(undone);
    }
    var done, undone := Replace(disk, cs, created, artifacts, start);
    if !done { return Failed(undone); }
    assert Targets(cs) == Targets(all);
    return Generated(Targets(cs), same);
  }

  /** The part without cancellation: rename everything into place, or undo. */
  method Replace(disk: Disk, cs: seq<Change>, created: seq<Path>, ghost artifacts: seq<Artifact>, ghost start: Fs)
    returns (done: bool, undone: bool)
    requires WellFormed(start) && During(start, disk.fs, cs, 0, created) && SameArtifacts(Changes(start.files, artifacts), cs)
    requires Ready(disk.fs.files, cs, 0, |cs|) && ParentsExist(disk.fs.dirs, cs, |cs|) && Needed(cs, created)
    modifies disk
    ensures done ==> disk.fs.files == Overlay(start.files, Changes(start.files, artifacts), |cs|) && start.dirs <= disk.fs.dirs
    ensures !done && disk.undoFaults == old(disk.undoFaults) ==> disk.fs == start
    ensures disk.undoFaults >= old(disk.undoFaults) && (!done ==> (undone <==> disk.undoFaults == old(disk.undoFaults)))
    ensures disk.faults >= old(disk.faults)
    ensures !done && Clear(start, artifacts) ==> disk.faults > old(disk.faults)
  {
    var after, k := Install(disk, cs, start, created);
    done := k == |cs|;
    if done { done := disk.Check(); }
    if done {
      ReplacedAll(cs, after, artifacts, start);
      Finished(start, disk.fs, after, created, artifacts);
      return true, true;
    }
    if Clear(start, artifacts) && k < |cs| { ClearIsWritable(start, disk.fs, artifacts, cs, created, k); }
    undone := Abandon(disk, after, k, created, start);
  }

  lemma ReplacedAll(cs: seq<Change>, after: seq<Change>, artifacts: seq<Artifact>, start: Fs)
    requires SameArtifacts(Changes(start.files, artifacts), cs) && SameArtifacts(cs, after)
    ensures SameArtifacts(Changes(start.files, artifacts), after)
  {
  }

  lemma NoEmptyPath(fs: Fs, artifacts: seq<Artifact>)
    requires WellFormed(fs) && forall j :: 0 <= j < |artifacts| ==> artifacts[j].path !in fs.dirs
    ensures forall i :: 0 <= i < |Changes(fs.files, artifacts)| ==> Changes(fs.files, artifacts)[i].artifact.path != []
  {
    var cs := Changes(fs.files, artifacts);
    forall i | 0 <= i < |cs| ensures cs[i].artifact.path != [] { ChangesFrom(fs.files, artifacts, i); }
  }
}
