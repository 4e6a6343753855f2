/**
 * The data directory (daemon/src/db.c): collecting files nobody needs, and
 * opening the database again. The blob directory lies in it, and the walk over
 * the blob directory's two-character entries takes ".." for one of them.
 */
module Disk {
  import opened Bytes
  import opened Schema
  import Sha256
  import Store

  // ---- paths, seen from the blob directory ----------------------------------------------

  const UP: bytes := [46, 46]                  // ..
  const TMP: bytes := [46, 116, 109, 112, 46]  // .tmp.

  /** A file of the data directory. */
  function Beside(n: bytes): bytes { UP + [47] + n }

  /** A temporary file; the process id that ends its name plays no part. */
  function TempPath(h: digest): bytes { Store.BlobName(h) + TMP }

  /** The top-level entry a path goes through; only those of two characters are walked. */
  function DirOf(path: bytes): bytes { if |path| < 2 then path else path[..2] }

  /** The name in that directory starts with something else than a dot. */
  predicate Visible(path: bytes) { |path| > 3 && path[3] != 46 }

  predicate HasAt(path: bytes, i: nat, w: bytes) { i + |w| <= |path| && path[i..i + |w|] == w }

  predicate IsTemp(path: bytes) { exists i: nat :: 3 <= i <= |path| && HasAt(path, i, TMP) }

  function OnDisk(files: set<bytes>, temps: set<digest>, beside: set<bytes>): set<bytes> {
    files + (set h | h in temps :: TempPath(h)) + set n | n in beside :: Beside(n)
  }

  lemma {:induction false} HexHasNoDot(h: bytes)
    ensures forall c :: c in Store.Hex(h) ==> c != 46
  {
    if h != [] { HexHasNoDot(h[1..]); }
  }

  lemma NotAt(path: bytes, i: nat)
    requires i < |path| && path[i] != 46
    ensures !HasAt(path, i, TMP)
  {
    assert TMP[0] == 46;
  }

  lemma BlobPath(h: digest)
    ensures var n := Store.BlobName(h);
            && |n| == 67 && |DirOf(n)| == 2 && DirOf(n) != UP && Visible(n) && !IsTemp(n)
    ensures Visible(TempPath(h)) && IsTemp(TempPath(h)) && |DirOf(TempPath(h))| == 2
  {
    HexHasNoDot(h);
    hide Store.Hex;
    var (n, x) := (Store.BlobName(h), Store.Hex(h));
    assert forall i :: 0 <= i < |x| ==> x[i] in x;
    assert n[0] == x[0] && n[3..] == x && n[3] == x[0];
    forall i: nat | 3 <= i <= |n| ensures !HasAt(n, i, TMP) {
      if i < |n| {
        assert n[i] == x[i - 3];
        NotAt(n, i);
      }
    }
    assert HasAt(TempPath(h), 67, TMP);
  }

  lemma FilePath(n: bytes, data: bytes, u: iset<bytes>)
    requires Store.FileOk(n, data, u)
    ensures |DirOf(n)| == 2 && DirOf(n) != UP && Visible(n) && !IsTemp(n)
  {
    hide Store.BlobName, DirOf, Visible, IsTemp, Sha256.Digest;
    Store.DigestLength(data);
    BlobPath(Sha256.Digest(data));
  }

  lemma BesidePath(n: bytes)
    ensures DirOf(Beside(n)) == UP && (Visible(Beside(n)) <==> n != [] && n[0] != 46)
  {
  }

  // ---- the walk -----------------------------------------------------------------------------

  /** Files that the walk comes upon and unlinks: temporary ones, and those no row is found to name. */
  predicate Goes(t: Tables, path: bytes, faults: set<Store.Fault>) {
    && Visible(path) && (IsTemp(path) || Store.Ask(path) in faults || !Store.Referenced(t, path))
    && Store.Unlink(path) !in faults
  }

  /** The walk enters the entries of two characters that it is told of and can open. */
  predicate Enters(dir: bytes, faults: set<Store.Fault>) { |dir| == 2 && Store.Skip(dir) !in faults }

  function GoneOf(t: Tables, paths: set<bytes>, faults: set<Store.Fault>): set<bytes> {
    set p | p in paths && Goes(t, p, faults)
  }

  /** Everything the walk unlinks. */
  function Gone(t: Tables, disk: set<bytes>, faults: set<Store.Fault>): set<bytes> {
    set p | p in disk && Enters(DirOf(p), faults) && Goes(t, p, faults)
  }

  function TempsWithout(temps: set<digest>, gone: set<bytes>): set<digest> { set h | h in temps && TempPath(h) !in gone }
  function BesideWithout(beside: set<bytes>, gone: set<bytes>): set<bytes> { set n | n in beside && Beside(n) !in gone }

  method Remove(db: Db, path: bytes)
    modifies db`files, db`temps, db`beside
    ensures db.files == old(db.files) - {path}
    ensures db.temps == TempsWithout(old(db.temps), {path}) && db.beside == BesideWithout(old(db.beside), {path})
  {
    db.files := db.files - {path};
    db.temps := set h | h in db.temps && TempPath(h) != path;
    db.beside := set n | n in db.beside && Beside(n) != path;
  }

  lemma GoneMore(files: map<bytes, bytes>, temps: set<digest>, beside: set<bytes>, gone: set<bytes>, more: set<bytes>)
    ensures files - gone - more == files - (gone + more)
    ensures TempsWithout(TempsWithout(temps, gone), more) == TempsWithout(temps, gone + more)
    ensures BesideWithout(BesideWithout(beside, gone), more) == BesideWithout(beside, gone + more)
    ensures files - {} == files && TempsWithout(temps, {}) == temps && BesideWithout(beside, {}) == beside
  {
    hide TempPath, Beside;
  }

  /** One directory. */
  method SweepDir(db: Db, names: set<bytes>, faults: set<Store.Fault>)
    modifies db`files, db`temps, db`beside
    ensures var gone := GoneOf(db.t, names, faults);
            && db.files == old(db.files) - gone
            && db.temps == TempsWithout(old(db.temps), gone) && db.beside == BesideWithout(old(db.beside), gone)
  {
    hide *;
    var left := names;
    NoneGone(db.t, faults, left);
    GoneMore(db.files, db.temps, db.beside, {}, {});
    while left != {}
      invariant left <= names
      invariant db.files == old(db.files) - GoneOf(db.t, names - left, faults)
      invariant db.temps == TempsWithout(old(db.temps), GoneOf(db.t, names - left, faults))
      invariant db.beside == BesideWithout(old(db.beside), GoneOf(db.t, names - left, faults))
    {
      var p :| p in left;
      OneGone(db.t, names - left, p, faults);
      GoneMore(old(db.files), old(db.temps), old(db.beside), GoneOf(db.t, names - left, faults), {p});
      assert names - (left - {p}) == names - left + {p};
      left := left - {p};
      if Visible(p) {
        var garbage := IsTemp(p) || Store.Ask(p) in faults || !Store.Referenced(db.t, p);
        if garbage && Store.Unlink(p) !in faults {
          Remove(db, p);
        }
      }
    }
    assert names - left == names;
  }

  lemma NoneGone(t: Tables, faults: set<Store.Fault>, names: set<bytes>)
    ensures names - names == {} && GoneOf(t, {}, faults) == {}
  {
  }

  lemma OneGone(t: Tables, names: set<bytes>, p: bytes, faults: set<Store.Fault>)
    ensures Goes(t, p, faults) <==> Visible(p) && (IsTemp(p) || Store.Ask(p) in faults || !Store.Referenced(t, p))
                                    && Store.Unlink(p) !in faults
    ensures GoneOf(t, names + {p}, faults) == GoneOf(t, names, faults) + if Goes(t, p, faults) then {p} else {}
    ensures GoneOf(t, names, faults) + {} == GoneOf(t, names, faults)
  {
    hide Visible, IsTemp, Store.Referenced;
  }

  function InDir(disk: set<bytes>, dir: bytes): set<bytes> { set p | p in disk && DirOf(p) == dir }

  function InDirs(disk: set<bytes>, dirs: set<bytes>): set<bytes> { set p | p in disk && DirOf(p) in dirs }

  /** What the walk unlinks in these directories. */
  function GoneIn(t: Tables, disk: set<bytes>, dirs: set<bytes>, faults: set<Store.Fault>): set<bytes> {
    set p | p in InDirs(disk, dirs) && Enters(DirOf(p), faults) && Goes(t, p, faults)
  }

  /** The whole walk: what the blob directory lists includes ".." unless something is wrong. */
  method Sweep(db: Db, faults: set<Store.Fault>)
    modifies db`files, db`temps, db`beside
    ensures var gone := Gone(db.t, OnDisk(old(db.files).Keys, old(db.temps), old(db.beside)), faults);
            && db.files == old(db.files) - gone
            && db.temps == TempsWithout(old(db.temps), gone) && db.beside == BesideWithout(old(db.beside), gone)
  {
    hide *;
    var disk := OnDisk(db.files.Keys, db.temps, db.beside);
    var dirs := {[46], UP} + set p | p in disk :: DirOf(p);
    var left := dirs;
    NoDirs(db.t, disk, dirs, faults);
    GoneMore(db.files, db.temps, db.beside, {}, {});
    while left != {}
      invariant left <= dirs
      invariant db.files == old(db.files) - GoneIn(db.t, disk, dirs - left, faults)
      invariant db.temps == TempsWithout(old(db.temps), GoneIn(db.t, disk, dirs - left, faults))
      invariant db.beside == BesideWithout(old(db.beside), GoneIn(db.t, disk, dirs - left, faults))
    {
      var e :| e in left;
      OneDir(db.t, disk, dirs - left, e, faults);
      GoneMore(old(db.files), old(db.temps), old(db.beside), GoneIn(db.t, disk, dirs - left, faults),
               GoneOf(db.t, InDir(disk, e), faults));
      assert dirs - (left - {e}) == dirs - left + {e};
      left := left - {e};
      if |e| == 2 && Store.Skip(e) !in faults {
        SweepDir(db, InDir(disk, e), faults);
      }
    }
    assert dirs - left == dirs;
  }

  lemma NoDirs(t: Tables, disk: set<bytes>, dirs: set<bytes>, faults: set<Store.Fault>)
    requires forall p :: p in disk ==> DirOf(p) in dirs
    ensures dirs - dirs == {} && GoneIn(t, disk, {}, faults) == {}
    ensures GoneIn(t, disk, dirs, faults) == Gone(t, disk, faults)
  {
    hide DirOf, Goes, Enters;
  }

  lemma OneDir(t: Tables, disk: set<bytes>, dirs: set<bytes>, e: bytes, faults: set<Store.Fault>)
    ensures Enters(e, faults) <==> |e| == 2 && Store.Skip(e) !in faults
    ensures GoneIn(t, disk, dirs + {e}, faults)
         == GoneIn(t, disk, dirs, faults) + if Enters(e, faults) then GoneOf(t, InDir(disk, e), faults) else {}
    ensures GoneIn(t, disk, dirs, faults) + {} == GoneIn(t, disk, dirs, faults)
  {
    hide DirOf, Goes;
  }

  // ---- what goes --------------------------------------------------------------------------------

  /** The blobs the walk comes upon. */
  function Walked(names: set<bytes>, faults: set<Store.Fault>): set<bytes> {
    if Store.OpenDir in faults then {} else set n | n in names && Store.Skip(DirOf(n)) !in faults
  }

  /** Of the files beside the blob directory, those that go with them. */
  function Swept(beside: set<bytes>, faults: set<Store.Fault>): set<bytes> {
    if Store.OpenDir in faults || Store.Skip(UP) in faults then {}
    else set n | n in beside && n != [] && n[0] != 46 && Store.Unlink(Beside(n)) !in faults
  }

  /** Is the walk told of ".." and can it unlink the database file? */
  predicate SweepsDatabase(faults: set<Store.Fault>) {
    Store.OpenDir !in faults && Store.Skip(UP) !in faults && Store.Unlink(Beside(DB_FILE)) !in faults
  }

  /** Whether collecting now would take a blob that is still used. */
  predicate CollectHarms(t: Tables, files: map<bytes, bytes>, faults: set<Store.Fault>) {
    Store.Lost(t, Walked(files.Keys, faults), faults) != {}
  }

  /** No row names a file outside the blob directory. */
  lemma NotReferenced(t: Tables, files: map<bytes, bytes>, n: bytes, u: iset<bytes>)
    requires Store.PayloadsOk(t, files, u) && Store.FilesOk(files, u)
    ensures !Store.Referenced(t, Beside(n))
  {
    hide Store.PayloadsOk, Store.FileOk, Store.Referenced, DirOf, Visible, IsTemp, Beside;
    BesidePath(n);
    if Beside(n) in files {
      FilePath(Beside(n), files[Beside(n)], u);
    } else {
      NotThere(t, files, Beside(n), u);
    }
  }

  lemma NotThere(t: Tables, files: map<bytes, bytes>, n: bytes, u: iset<bytes>)
    requires Store.PayloadsOk(t, files, u) && n !in files
    ensures !Store.Referenced(t, n)
  {
    hide Store.PayloadsOk, Store.Referenced;
    if Store.Referenced(t, n) { Store.ReferencedIsThere(t, files, n, u); }
  }

  lemma FilesGone(t: Tables, files: map<bytes, bytes>, disk: set<bytes>, faults: set<Store.Fault>, u: iset<bytes>)
    requires Store.FilesOk(files, u) && files.Keys <= disk && Store.OpenDir !in faults
    ensures files - Gone(t, disk, faults) == files - Store.Unlinked(t, Walked(files.Keys, faults), faults)
  {
    hide Store.FileOk, Store.Referenced, DirOf, Visible, IsTemp;
    forall n | n in files
      ensures n in Gone(t, disk, faults) <==> n in Store.Unlinked(t, Walked(files.Keys, faults), faults)
    {
      FilePath(n, files[n], u);
    }
  }

  lemma BesideGone(t: Tables, files: map<bytes, bytes>, beside: set<bytes>, disk: set<bytes>, faults: set<Store.Fault>, u: iset<bytes>)
    requires Store.PayloadsOk(t, files, u) && Store.FilesOk(files, u) && Store.OpenDir !in faults
    requires forall n :: n in beside ==> Beside(n) in disk
    ensures BesideWithout(beside, Gone(t, disk, faults)) == beside - Swept(beside, faults)
  {
    hide Store.PayloadsOk, Store.FilesOk, Store.Referenced, DirOf, Visible, IsTemp, Beside;
    forall n | n in beside ensures Beside(n) in Gone(t, disk, faults) <==> n in Swept(beside, faults) {
      BesidePath(n);
      NotReferenced(t, files, n, u);
    }
  }

  lemma TempsGone(t: Tables, temps: set<digest>, disk: set<bytes>)
    requires forall h :: h in temps ==> TempPath(h) in disk
    ensures TempsWithout(temps, Gone(t, disk, {})) == {}
  {
    hide DirOf, Visible, IsTemp, TempPath, Store.Referenced;
    forall h | h in temps ensures TempPath(h) in Gone(t, disk, {}) {
      BlobPath(h);
    }
  }

  lemma DiskHas(files: set<bytes>, temps: set<digest>, beside: set<bytes>)
    ensures var disk := OnDisk(files, temps, beside);
            && files <= disk && (forall h :: h in temps ==> TempPath(h) in disk) && (forall n :: n in beside ==> Beside(n) in disk)
  {
    hide TempPath, Beside;
  }

  lemma SweptIs(beside: set<bytes>, faults: set<Store.Fault>)
    ensures DB_FILE in beside - Swept(beside, faults) <==> DB_FILE in beside && !SweepsDatabase(faults)
    ensures Store.OpenDir in faults ==> beside - Swept(beside, faults) == beside && Walked({}, faults) == {}
    ensures faults == {} ==> forall n :: n in beside - Swept(beside, faults) ==> n == [] || n[0] == 46
  {
    hide Beside;
  }

  lemma WalkedIs(t: Tables, files: map<bytes, bytes>, faults: set<Store.Fault>)
    ensures CollectHarms(t, files, faults) <==> Store.Lost(t, Walked(files.Keys, faults), faults) != {}
    ensures Store.OpenDir in faults ==> Walked(files.Keys, faults) == {} && Store.Unlinked(t, {}, faults) == {}
    ensures faults == {} ==> Walked(files.Keys, faults) == files.Keys && Store.Lost(t, files.Keys, faults) == {}
    ensures Walked(files.Keys, faults) <= files.Keys && files - {} == files
  {
    hide Store.Referenced, DirOf;
  }

  /**
   * Garbage collection. In the blob directory exactly the files no row names go,
   * with every temporary one, and no clip loses a byte, unless a failing query
   * passes a used file for an unused one. But every visible file of the data
   * directory goes with them, the database file first of all, unless the walk is
   * not told of ".." or cannot unlink it.
   */
  method Collect(db: Db, faults: set<Store.Fault>, ghost u: iset<bytes>)
    requires Store.Valid(db, u)
    modifies db`files, db`temps, db`beside
    ensures db.files == old(db.files) - Store.Unlinked(db.t, Walked(old(db.files).Keys, faults), faults)
    ensures db.beside == old(db.beside) - Swept(old(db.beside), faults)
    ensures DB_FILE in db.beside <==> DB_FILE in old(db.beside) && !SweepsDatabase(faults)
    ensures Store.Valid(db, u) <==> !CollectHarms(db.t, old(db.files), faults)
    ensures Store.Valid(db, u) <==> Store.AllThere(db.t, db.files)
    ensures Store.Valid(db, u) ==> Store.Contents(db.t, db.files) == old(Store.Contents(db.t, db.files))
    ensures faults == {} ==>
              && Store.Valid(db, u) && db.temps == {} && (forall n :: n in db.files <==> Store.Referenced(db.t, n))
              && forall n :: n in db.beside ==> n == [] || n[0] == 46
    ensures db.temps <= old(db.temps)
  {
    hide *;
    Store.ValidParts(db, u);
    SweptIs(db.beside, faults);
    WalkedIs(db.t, db.files, faults);
    Store.UnlinkedIs(db.t, Walked(db.files.Keys, faults), faults);
    Store.SpareIff(db.t, db.files, Walked(db.files.Keys, faults), faults, u);
    if Store.OpenDir in faults {
      return;
    }
    ghost var disk := OnDisk(db.files.Keys, db.temps, db.beside);
    DiskHas(db.files.Keys, db.temps, db.beside);
    FilesGone(db.t, db.files, disk, faults, u);
    BesideGone(db.t, db.files, db.beside, disk, faults, u);
    TempsGone(db.t, db.temps, disk);
    FewerTemps(db.temps, Gone(db.t, disk, faults));
    if faults == {} {
      forall n | Store.Referenced(db.t, n) ensures n in db.files {
        Store.ReferencedIsThere(db.t, db.files, n, u);
      }
    }
    Sweep(db, faults);
    Store.ValidIff(db, u);
  }

  lemma FewerTemps(temps: set<digest>, gone: set<bytes>)
    ensures TempsWithout(temps, gone) <= temps
  {
    hide TempPath;
  }

  // ---- closing and opening -------------------------------------------------------------------

  lemma EmptyIsSound(files: map<bytes, bytes>, u: iset<bytes>)
    ensures Store.PayloadsOk(NoTables(), files, u) && KeysOk(NoTables().clips) && RefsOk(NoTables())
    ensures Store.Contents(NoTables(), files) == map[]
  {
    hide Store.ClipOk, Store.Loads, Apart, GroupIn;
  }

  /**
   * Closing writes the log back into the database file and removes the log;
   * opening creates what is not there. A process whose database file was unlinked
   * goes on with it, but this is where its tables end.
   */
  method Reopen(db: Db, ghost u: iset<bytes>)
    requires Store.Valid(db, u)
    modifies db`t, db`beside
    ensures Store.Valid(db, u)
    ensures db.t == if DB_FILE in old(db.beside) then old(db.t) else NoTables()
    ensures Store.Contents(db.t, db.files) == if DB_FILE in old(db.beside) then old(Store.Contents(db.t, db.files)) else map[]
    ensures db.beside == old(db.beside) + {DB_FILE, WAL_FILE, SHM_FILE}
  {
    hide *;
    Store.ValidParts(db, u);
    EmptyIsSound(db.files, u);
    db.beside := db.beside - {WAL_FILE, SHM_FILE};
    FilesDiffer();
    if DB_FILE !in db.beside {
      db.t := NoTables();
    }
    db.beside := db.beside + {DB_FILE, WAL_FILE, SHM_FILE};
    Store.PartsValid(db, u);
  }

  lemma FilesDiffer()
    ensures DB_FILE != WAL_FILE && DB_FILE != SHM_FILE
  {
    assert |WAL_FILE| != |DB_FILE| && |SHM_FILE| != |DB_FILE|;
  }
}
