/**
 * Clips and their payloads (daemon/src/db.c, db_edit.c, blob.c): rows that may
 * roll back, files that may not, and a hash that tells payloads apart.
 */
module Store {
  import opened Bytes
  import opened Schema
  import opened ContentHash
  import Order
  import Sha256
  import Utf8

  const INLINE_MAX: nat := 65536

  predicate IsImage(mime: bytes) { [105, 109, 97, 103, 101, 47] <= mime }

  predicate AsBlob(mime: bytes, n: nat) { IsImage(mime) || n > INLINE_MAX }

  // ---- names ------------------------------------------------------------------

  function HexDigit(v: nat): byte
    requires v < 16
  {
    if v < 10 then 48 + v else 87 + v
  }

  function Hex(h: bytes): (x: bytes)
    ensures |x| == 2 * |h|
  {
    if h == [] then [] else [HexDigit(h[0] / 16), HexDigit(h[0] % 16)] + Hex(h[1..])
  }

  /** A blob lies in a directory named after its first two digits. */
  function BlobName(h: bytes): bytes {
    var x := Hex(h);
    (if |x| > 2 then x[..2] else x) + [47] + x
  }

  /** A hash is written byte by byte in lower-case hexadecimal digits, high digit first. */
  lemma {:induction false} HexIs(h: bytes, k: nat)
    requires k < |h|
    ensures var (x, d) := (Hex(h), (v: int) => if v < 10 then '0' as int + v else 'a' as int + (v - 10));
            x[2 * k] as int == d(h[k] / 16) && x[2 * k + 1] as int == d(h[k] % 16)
  {
    if k > 0 {
      HexIs(h[1..], k - 1);
      assert Hex(h)[2..] == Hex(h[1..]);
    }
  }

  /** Its file lies in the directory of the first two digits, under the whole name. */
  lemma BlobNameIs(h: bytes)
    requires |h| > 1
    ensures var n := BlobName(h); |n| == 3 + 2 * |h| && n[..2] == Hex(h)[..2] && n[2] == '/' as int && n[3..] == Hex(h)
  {
    hide Hex;
  }

  lemma HexDigitIsInjective(v: nat, w: nat)
    requires v < 16 && w < 16 && HexDigit(v) == HexDigit(w)
    ensures v == w
  {
  }

  lemma {:induction false} HexIsInjective(g: bytes, h: bytes)
    requires Hex(g) == Hex(h)
    ensures g == h
  {
    if g != [] && h != [] {
      var (x, y) := (Hex(g), Hex(h));
      assert x[0] == y[0] && x[1] == y[1] && x[2..] == y[2..];
      HexDigitIsInjective(g[0] / 16, h[0] / 16);
      HexDigitIsInjective(g[0] % 16, h[0] % 16);
      HexIsInjective(g[1..], h[1..]);
      assert g == [g[0]] + g[1..] && h == [h[0]] + h[1..];
    }
  }

  lemma NameIsInjective(g: bytes, h: bytes)
    requires |g| == |h| && BlobName(g) == BlobName(h)
    ensures g == h
  {
    hide Hex;
    var n := |BlobName(g)| - |Hex(g)|;
    assert BlobName(g)[n..] == Hex(g) && BlobName(h)[n..] == Hex(h);
    HexIsInjective(g, h);
  }

  // ---- what is sound ------------------------------------------------------------

  /** SHA-256 tells the payloads in u, and the records hashed for them, apart. */
  ghost predicate NoCollision(u: iset<bytes>) {
    forall x, y :: x in u && y in u && Sha256.Digest(x) == Sha256.Digest(y) ==> x == y
  }

  lemma Told(u: iset<bytes>, x: bytes, y: bytes)
    requires NoCollision(u) && x in u && y in u && Sha256.Digest(x) == Sha256.Digest(y)
    ensures x == y
  {
    hide Sha256.Digest;
  }

  lemma DigestLength(x: bytes)
    ensures |Sha256.Digest(x)| == 32
  {
    hide Sha256.HashBlocks, Sha256.Padded;
  }

  function HashOf(data: bytes): digest {
    DigestLength(data);
    Sha256.Digest(data)
  }

  function NameOf(data: bytes): bytes { BlobName(Sha256.Digest(data)) }

  ghost predicate FileOk(name: bytes, data: bytes, u: iset<bytes>) {
    data in u && name == NameOf(data)
  }

  ghost predicate FilesOk(files: map<bytes, bytes>, u: iset<bytes>) {
    forall n :: n in files ==> FileOk(n, files[n], u)
  }

  lemma SameFile(name: bytes, x: bytes, y: bytes, u: iset<bytes>)
    requires NoCollision(u) && FileOk(name, x, u) && FileOk(name, y, u)
    ensures x == y
  {
    hide Sha256.Digest, BlobName, NoCollision;
    DigestLength(x);
    DigestLength(y);
    NameIsInjective(Sha256.Digest(x), Sha256.Digest(y));
    Told(u, x, y);
  }

  /** The bytes a row gives, were its file missing none. */
  function BytesOf(r: FormatRow, files: map<bytes, bytes>): bytes {
    if r.blob.Some? then
      if r.blob.value in files then files[r.blob.value] else []
    else if r.data.Some? then r.data.value else []
  }

  ghost predicate RowOk(r: FormatRow, files: map<bytes, bytes>, u: iset<bytes>) {
    var b := BytesOf(r, files);
    && (r.blob.Some? ==> r.data.None? && r.blob.value in files)
    && (r.blob.None? ==> r.data.Some?)
    && b in u && r.size == |b| && r.hash == Sha256.Digest(b)
    && (r.blob.Some? <==> AsBlob(r.mime, |b|))
  }

  ghost predicate RowsOk(rows: seq<FormatRow>, files: map<bytes, bytes>, u: iset<bytes>) {
    forall k :: 0 <= k < |rows| ==> RowOk(rows[k], files, u)
  }

  function Loads(rows: seq<FormatRow>, files: map<bytes, bytes>): (fs: seq<Format>)
    ensures |fs| == |rows|
  {
    seq(|rows|, k requires 0 <= k < |rows| => Format(rows[k].mime, BytesOf(rows[k], files)))
  }

  function RecordsOf(fs: seq<Format>, idx: seq<nat>): bytes
    requires Qsorted(fs, idx)
  {
    Serialised(Arrange(fs, idx))
  }

  /** h is the content hash of these formats. */
  ghost predicate Identity(fs: seq<Format>, h: bytes, u: iset<bytes>) {
    Offered(fs) && exists idx :: Qsorted(fs, idx) && RecordsOf(fs, idx) in u && h == Sha256.Digest(RecordsOf(fs, idx))
  }

  ghost predicate ClipOk(h: bytes, rows: seq<FormatRow>, files: map<bytes, bytes>, u: iset<bytes>) {
    rows != [] && RowsOk(rows, files, u) && Identity(Loads(rows, files), h, u)
  }

  ghost predicate PayloadsOk(t: Tables, files: map<bytes, bytes>, u: iset<bytes>) {
    && t.formats.Keys == t.clips.Keys && 0 !in t.clips
    && forall id :: id in t.clips ==> ClipOk(t.clips[id].hash, t.formats[id], files, u)
  }

  ghost predicate Valid(db: Db, u: iset<bytes>)
    reads db`t, db`files
  {
    && NoCollision(u) && FilesOk(db.files, u) && PayloadsOk(db.t, db.files, u)
    && KeysOk(db.t.clips) && RefsOk(db.t)
  }

  /** What the store holds: for every clip the formats it was given, in order. */
  function Contents(t: Tables, files: map<bytes, bytes>): map<nat, seq<Format>> {
    map id | id in t.formats :: Loads(t.formats[id], files)
  }

  // ---- when files change ----------------------------------------------------------

  predicate RefIn(rows: seq<FormatRow>, name: bytes) {
    exists k :: 0 <= k < |rows| && rows[k].blob == Some(name)
  }

  predicate Referenced(t: Tables, name: bytes) {
    exists id :: id in t.formats && RefIn(t.formats[id], name)
  }

  /** Every file some row names is in both and the same. */
  ghost predicate SameRefs(t: Tables, files: map<bytes, bytes>, files2: map<bytes, bytes>) {
    forall n :: n in files && Referenced(t, n) ==> n in files2 && files2[n] == files[n]
  }

  lemma RowsKept(rows: seq<FormatRow>, files: map<bytes, bytes>, files2: map<bytes, bytes>, u: iset<bytes>)
    requires RowsOk(rows, files, u)
    requires forall n :: n in files && RefIn(rows, n) ==> n in files2 && files2[n] == files[n]
    ensures RowsOk(rows, files2, u) && Loads(rows, files2) == Loads(rows, files)
  {
    hide Sha256.Digest, AsBlob;
    forall k | 0 <= k < |rows| ensures RowOk(rows[k], files2, u) && BytesOf(rows[k], files2) == BytesOf(rows[k], files) {
      assert RowOk(rows[k], files, u);
      if rows[k].blob.Some? {
        assert RefIn(rows, rows[k].blob.value);
      }
    }
  }

  lemma PayloadsKept(t: Tables, files: map<bytes, bytes>, files2: map<bytes, bytes>, u: iset<bytes>)
    requires PayloadsOk(t, files, u) && SameRefs(t, files, files2)
    ensures PayloadsOk(t, files2, u) && Contents(t, files2) == Contents(t, files)
  {
    hide RowsOk, Loads, Identity, RefIn;
    forall id | id in t.clips
      ensures ClipOk(t.clips[id].hash, t.formats[id], files2, u) && Loads(t.formats[id], files2) == Loads(t.formats[id], files)
    {
      assert ClipOk(t.clips[id].hash, t.formats[id], files, u);
      forall n | n in files && RefIn(t.formats[id], n) ensures n in files2 && files2[n] == files[n] {
        assert Referenced(t, n);
      }
      RowsKept(t.formats[id], files, files2, u);
    }
  }

  /** Rows may go, and clip columns other than the hash may change. */
  lemma PayloadsOfRest(t: Tables, t2: Tables, files: map<bytes, bytes>, u: iset<bytes>)
    requires t2.formats.Keys == t2.clips.Keys && t2.clips.Keys <= t.clips.Keys == t.formats.Keys
    requires forall id :: id in t2.clips ==> t2.clips[id].hash == t.clips[id].hash && t2.formats[id] == t.formats[id]
    requires PayloadsOk(t, files, u)
    ensures PayloadsOk(t2, files, u)
    ensures forall id :: id in t2.clips ==> Contents(t2, files)[id] == Contents(t, files)[id]
  {
    hide ClipOk, Loads;
  }

  // ---- writing formats ---------------------------------------------------------------

  /**
   * Where something goes wrong. Exists: the look-up that comes first fails.
   * Query: stepping the transaction's first query fails. Ask(name): stepping
   * the query for references to a file fails, which the source reads as "none".
   * Unlink(name): the file is not listed, not asked about, or not unlinked.
   * Skip(dir): a directory is not listed or cannot be opened. Unlisted(id): the
   * clip is not reported. Map(k), Row(k): reading row k fails.
   */
  datatype Fault = Begin | Commit | Prepare(n: nat) | Exists | Query | Statement(n: nat) | Write(k: nat) | Insert(k: nat)
                 | LeftTemp(k: nat) | Ask(name: bytes) | Unlink(name: bytes) | OpenDir | Skip(dir: bytes) | Unlisted(id: nat)
                 | Map(k: nat) | Row(k: nat)

  function RowFor(f: Format): FormatRow {
    var h := Sha256.Digest(f.data);
    if AsBlob(f.mime, |f.data|) then FormatRow(f.mime, |f.data|, h, None, Some(BlobName(h)))
    else FormatRow(f.mime, |f.data|, h, Some(f.data), None)
  }

  /** Pictures, and whatever is larger than 64 KiB, go to a file; anything else stays in its row. */
  lemma InlineOrFile(f: Format)
    ensures var picture := |f.mime| >= 6 && f.mime[..6] == ['i' as int, 'm' as int, 'a' as int, 'g' as int, 'e' as int, '/' as int];
            var r := RowFor(f);
            && r.mime == f.mime && r.size == |f.data| && r.hash == Sha256.Digest(f.data)
            && if picture || |f.data| > 64 * 1024 then r.data == None && r.blob == Some(BlobName(r.hash))
               else r.data == Some(f.data) && r.blob == None
  {
    hide BlobName, Sha256.Digest;
  }

  function RowsFor(fs: seq<Format>): (rows: seq<FormatRow>)
    ensures |rows| == |fs|
  {
    seq(|fs|, k requires 0 <= k < |fs| => RowFor(fs[k]))
  }

  /** The files a clip's formats need. */
  ghost predicate Stored(fs: seq<Format>, files: map<bytes, bytes>) {
    forall k :: 0 <= k < |fs| && AsBlob(fs[k].mime, |fs[k].data|) ==> FileHas(files, fs[k].data)
  }

  /** The files after these formats were written one by one. */
  function PutAll(files: map<bytes, bytes>, fs: seq<Format>): map<bytes, bytes> {
    if fs == [] then files else
      var (p, f) := (PutAll(files, fs[..|fs| - 1]), fs[|fs| - 1]);
      if AsBlob(f.mime, |f.data|) then p[NameOf(f.data) := f.data] else p
  }

  ghost predicate PutSome(files: map<bytes, bytes>, fs: seq<Format>, files2: map<bytes, bytes>) {
    exists k :: 0 <= k <= |fs| && files2 == PutAll(files, fs[..k])
  }

  predicate FileHas(files: map<bytes, bytes>, data: bytes) {
    NameOf(data) in files && files[NameOf(data)] == data
  }

  ghost predicate Grown(files: map<bytes, bytes>, files2: map<bytes, bytes>) {
    forall n :: n in files ==> n in files2 && files2[n] == files[n]
  }

  predicate Distinct(fs: seq<Format>) { forall i, j :: 0 <= i < j < |fs| ==> fs[i].mime != fs[j].mime }

  /** What a caller can hand in: C strings for mimes and payloads the hash tells apart. */
  ghost predicate Given(fs: seq<Format>, u: iset<bytes>) {
    forall f :: f in fs ==> 0 !in f.mime && |f.data| < Sha256.TWO64 && f.data in u
  }

  lemma RowForLoads(f: Format, files: map<bytes, bytes>, u: iset<bytes>)
    requires f.data in u && (AsBlob(f.mime, |f.data|) ==> FileHas(files, f.data))
    ensures RowOk(RowFor(f), files, u) && BytesOf(RowFor(f), files) == f.data && RowFor(f).mime == f.mime
  {
    hide Sha256.Digest, BlobName, AsBlob;
  }

  lemma RowsForLoad(fs: seq<Format>, files: map<bytes, bytes>, u: iset<bytes>)
    requires Given(fs, u) && Stored(fs, files)
    ensures RowsOk(RowsFor(fs), files, u) && Loads(RowsFor(fs), files) == fs
  {
    hide RowOk, RowFor, AsBlob, FileHas, BytesOf;
    forall k | 0 <= k < |fs|
      ensures RowOk(RowFor(fs[k]), files, u) && Format(RowFor(fs[k]).mime, BytesOf(RowFor(fs[k]), files)) == fs[k]
    {
      assert fs[k] in fs;
      RowForLoads(fs[k], files, u);
    }
  }

  lemma ClipStored(fs: seq<Format>, idx: seq<nat>, files: map<bytes, bytes>, u: iset<bytes>)
    requires fs != [] && Given(fs, u) && Distinct(fs) && Stored(fs, files)
    requires Qsorted(fs, idx) && RecordsOf(fs, idx) in u
    ensures ClipOk(Sha256.Digest(RecordsOf(fs, idx)), RowsFor(fs), files, u) && Loads(RowsFor(fs), files) == fs
  {
    hide RowsOk, RowsFor, Loads, Stored, Sha256.Digest, RecordsOf;
    RowsForLoad(fs, files, u);
  }

  method BlobPut(db: Db, data: bytes, faults: set<Fault>, k: nat, ghost u: iset<bytes>) returns (ok: bool)
    requires NoCollision(u) && FilesOk(db.files, u) && data in u
    modifies db`files, db`temps
    ensures FilesOk(db.files, u) && Grown(old(db.files), db.files)
    ensures db.files == if ok then old(db.files)[NameOf(data) := data] else old(db.files)
    ensures ok ==> FileHas(db.files, data) && db.temps == old(db.temps)
    ensures ok <==> Write(k) !in faults || NameOf(data) in old(db.files)
    ensures db.temps == old(db.temps) + if !ok && LeftTemp(k) in faults then {HashOf(data)} else {}
  {
    hide NoCollision, NameOf, HashOf;
    var name := NameOf(data);
    assert FileOk(name, data, u);
    if name in db.files {
      SameFile(name, db.files[name], data, u);
    }
    if name in db.files && |db.files[name]| == |data| {
      assert db.files == db.files[name := data];
      return true;
    }
    if Write(k) in faults {
      if LeftTemp(k) in faults {
        db.temps := db.temps + {HashOf(data)};
      }
      return false;
    }
    db.files := db.files[name := data];
    return true;
  }

  /** A blob is written unless the write fails and the file is not there already. */
  predicate BlobGoes(files: map<bytes, bytes>, f: Format, k: nat, faults: set<Fault>) {
    AsBlob(f.mime, |f.data|) ==> Write(k) !in faults || NameOf(f.data) in files
  }

  predicate FormatGoes(files: map<bytes, bytes>, fs: seq<Format>, k: nat, faults: set<Fault>)
    requires k < |fs|
  {
    Insert(k) !in faults && BlobGoes(PutAll(files, fs[..k]), fs[k], k, faults)
  }

  predicate GoesUpTo(files: map<bytes, bytes>, fs: seq<Format>, n: nat, faults: set<Fault>)
    requires n <= |fs|
  {
    forall k :: 0 <= k < n ==> FormatGoes(files, fs, k, faults)
  }

  /** The formats are written exactly when none of these goes wrong. */
  predicate FormatsGo(files: map<bytes, bytes>, fs: seq<Format>, faults: set<Fault>) {
    Distinct(fs) && Prepare(10) !in faults && GoesUpTo(files, fs, |fs|, faults)
  }

  /** A clip's formats, small ones inline, images and big ones as blobs. */
  method InsertFormats(db: Db, id: nat, fs: seq<Format>, faults: set<Fault>, ghost u: iset<bytes>) returns (ok: bool)
    requires NoCollision(u) && FilesOk(db.files, u) && Given(fs, u)
    requires id in db.t.formats && db.t.formats[id] == []
    modifies db`t, db`files, db`temps
    ensures FilesOk(db.files, u) && Grown(old(db.files), db.files)
    ensures ok ==> Distinct(fs) && Stored(fs, db.files) && db.files == PutAll(old(db.files), fs)
    ensures PutSome(old(db.files), fs, db.files)
    ensures ok ==> db.t == old(db.t).(formats := old(db.t).formats[id := RowsFor(fs)])
    ensures ok <==> FormatsGo(old(db.files), fs, faults)
  {
    hide *;
    ghost var was := db.t;
    InsertStart(fs, db.files, was, id);
    PutIs(db.files, fs, 0);
    GoesStart(db.files, fs, faults);
    if Prepare(10) in faults {
      return false;
    }
    for i := 0 to |fs|
      invariant FilesOk(db.files, u) && Grown(old(db.files), db.files)
      invariant Distinct(fs[..i]) && Stored(fs[..i], db.files)
      invariant db.files == PutAll(old(db.files), fs[..i]) && PutSome(old(db.files), fs, db.files)
      invariant GoesUpTo(old(db.files), fs, i, faults)
      invariant id in db.t.formats && db.t.formats[id] == RowsFor(fs[..i])
      invariant db.t == was.(formats := was.formats[id := RowsFor(fs[..i])])
    {
      var f := fs[i];
      GivenOne(fs, i, u);
      GoesStep(old(db.files), fs, i, faults);
      label before:
      if AsBlob(f.mime, |f.data|) {
        var put := BlobPut(db, f.data, faults, i, u);
        if !put {
          GrownTwice(old(db.files), old@before(db.files), db.files);
          return false;
        }
      }
      StoredMore(fs, i, old@before(db.files), db.files);
      GrownTwice(old(db.files), old@before(db.files), db.files);
      PutMore(old(db.files), fs, i);
      PutIs(old(db.files), fs, i + 1);
      var rows := db.t.formats[id];
      PrimaryKey(fs, i);
      if Insert(i) in faults || exists k :: 0 <= k < |rows| && rows[k].mime == f.mime {
        return false;
      }
      db.t := db.t.(formats := db.t.formats[id := rows + [RowFor(f)]]);
    }
    assert fs[..|fs|] == fs;
    return true;
  }

  lemma GoesStart(files: map<bytes, bytes>, fs: seq<Format>, faults: set<Fault>)
    ensures GoesUpTo(files, fs, 0, faults)
    ensures FormatsGo(files, fs, faults) <==> Distinct(fs) && Prepare(10) !in faults && GoesUpTo(files, fs, |fs|, faults)
  {
    hide FormatGoes, Distinct;
  }

  lemma GoesStep(files: map<bytes, bytes>, fs: seq<Format>, i: nat, faults: set<Fault>)
    requires i < |fs| && GoesUpTo(files, fs, i, faults)
    ensures Insert(i) !in faults && BlobGoes(PutAll(files, fs[..i]), fs[i], i, faults) ==> GoesUpTo(files, fs, i + 1, faults)
    ensures GoesUpTo(files, fs, |fs|, faults) ==> Insert(i) !in faults && BlobGoes(PutAll(files, fs[..i]), fs[i], i, faults)
    ensures BlobGoes(PutAll(files, fs[..i]), fs[i], i, faults) <==>
              (AsBlob(fs[i].mime, |fs[i].data|) ==> Write(i) !in faults || NameOf(fs[i].data) in PutAll(files, fs[..i]))
  {
    hide PutAll, AsBlob, NameOf;
    assert FormatGoes(files, fs, i, faults) <==> Insert(i) !in faults && BlobGoes(PutAll(files, fs[..i]), fs[i], i, faults);
  }

  /** Without such faults only the primary key can refuse. */
  lemma GoesUnlessFault(files: map<bytes, bytes>, fs: seq<Format>, faults: set<Fault>)
    requires NoFault(faults)
    ensures FormatsGo(files, fs, faults) <==> Distinct(fs)
  {
    hide PutAll, AsBlob, NameOf, Distinct;
  }

  lemma InsertStart(fs: seq<Format>, files: map<bytes, bytes>, t: Tables, id: nat)
    requires id in t.formats && t.formats[id] == []
    ensures Distinct(fs[..0]) && Stored(fs[..0], files) && Grown(files, files) && RowsFor(fs[..0]) == []
    ensures PutAll(files, fs[..0]) == files
    ensures t == t.(formats := t.formats[id := []])
  {
    hide RowFor, FileHas;
    assert t.formats == t.formats[id := []];
  }

  lemma PutMore(files: map<bytes, bytes>, fs: seq<Format>, i: nat)
    requires i < |fs|
    ensures PutAll(files, fs[..i + 1]) ==
            if AsBlob(fs[i].mime, |fs[i].data|) then PutAll(files, fs[..i])[NameOf(fs[i].data) := fs[i].data]
            else PutAll(files, fs[..i])
  {
    hide AsBlob, NameOf;
    assert fs[..i + 1][..i] == fs[..i];
  }

  lemma PutIs(files: map<bytes, bytes>, fs: seq<Format>, k: nat)
    requires k <= |fs|
    ensures PutSome(files, fs, PutAll(files, fs[..k]))
  {
    hide PutAll;
  }

  lemma GivenOne(fs: seq<Format>, i: nat, u: iset<bytes>)
    requires i < |fs| && Given(fs, u)
    ensures fs[i].data in u
  {
    assert fs[i] in fs;
  }

  lemma GrownTwice(a: map<bytes, bytes>, b: map<bytes, bytes>, c: map<bytes, bytes>)
    requires Grown(a, b)
    ensures Grown(b, c) ==> Grown(a, c)
    ensures b == c ==> Grown(b, c)
  {
  }

  lemma StoredMore(fs: seq<Format>, i: nat, files: map<bytes, bytes>, files2: map<bytes, bytes>)
    requires i < |fs| && Stored(fs[..i], files)
    requires files == files2 || Grown(files, files2)
    requires AsBlob(fs[i].mime, |fs[i].data|) ==> FileHas(files2, fs[i].data)
    ensures Stored(fs[..i + 1], files2)
  {
    hide AsBlob, NameOf;
    forall k | 0 <= k < i && AsBlob(fs[k].mime, |fs[k].data|) ensures FileHas(files2, fs[k].data) {
      assert fs[..i][k] == fs[k];
    }
  }

  /** The primary key is what keeps mimes apart. */
  lemma PrimaryKey(fs: seq<Format>, i: nat)
    requires i < |fs| && Distinct(fs[..i])
    ensures RowsFor(fs[..i]) + [RowFor(fs[i])] == RowsFor(fs[..i + 1])
    ensures (forall k :: 0 <= k < i ==> RowsFor(fs[..i])[k].mime != fs[i].mime) ==> Distinct(fs[..i + 1])
    ensures Distinct(fs) ==> forall k :: 0 <= k < i ==> RowsFor(fs[..i])[k].mime != fs[i].mime
  {
    hide RowFor;
    forall k | 0 <= k < i ensures RowsFor(fs[..i])[k].mime == fs[k].mime {
      RowForMime(fs[k]);
    }
  }

  lemma RowForMime(f: Format)
    ensures RowFor(f).mime == f.mime
  {
    hide Sha256.Digest, AsBlob;
  }

  // ---- identity -------------------------------------------------------------------------

  /** Equal hashes are equal contents. */
  lemma IdentityTells(fs: seq<Format>, idx: seq<nat>, gs: seq<Format>, h: bytes, u: iset<bytes>)
    requires NoCollision(u) && Given(fs, u) && Qsorted(fs, idx) && RecordsOf(fs, idx) in u && Identity(gs, h, u)
    ensures h == Sha256.Digest(RecordsOf(fs, idx)) ==> Pairs(fs) == Pairs(gs) && Distinct(fs)
    ensures Distinct(fs) && Pairs(fs) == Pairs(gs) ==> h == Sha256.Digest(RecordsOf(fs, idx))
  {
    hide Sha256.Digest, Qsorted, Arrange, Serialised, NoCollision, Pairs;
    var j :| Qsorted(gs, j) && RecordsOf(gs, j) in u && h == Sha256.Digest(RecordsOf(gs, j));
    QsortedInRange(fs, idx);
    QsortedInRange(gs, j);
    ArrangedKeepsPairs(fs, idx);
    ArrangedKeepsPairs(gs, j);
    if h == Sha256.Digest(RecordsOf(fs, idx)) {
      Told(u, RecordsOf(fs, idx), RecordsOf(gs, j));
      ArrangedTyped(fs, idx);
      ArrangedTyped(gs, j);
      SerialisedIsInjective(Arrange(fs, idx), Arrange(gs, j));
      ArrangedIsInOrder(gs, j);
      OrderedIsDistinct(fs, idx);
    }
    if Distinct(fs) && Pairs(fs) == Pairs(gs) {
      SameBytesIffSamePairs(fs, idx, gs, j);
    }
  }

  lemma OrderedIsDistinct(fs: seq<Format>, idx: seq<nat>)
    requires Qsorted(fs, idx) && InOrder(Arrange(fs, idx))
    ensures Distinct(fs)
  {
    hide Before, Arrange, UpTo;
    var used, all := Order.Members(idx), UpTo(|fs|);
    Order.MembersCount(idx);
    assert used <= all;
    Exhausted(used, all);
    forall i, k | 0 <= i < k < |fs| ensures fs[i].mime != fs[k].mime {
      assert i in used && k in used;
      var a :| 0 <= a < |idx| && idx[a] == i;
      var b :| 0 <= b < |idx| && idx[b] == k;
      Arranged(fs, idx, a);
      Arranged(fs, idx, b);
      BeforeIsTotal(fs[i].mime, fs[k].mime);
    }
  }

  lemma ArrangedTyped(fs: seq<Format>, idx: seq<nat>)
    requires Qsorted(fs, idx) && forall f :: f in fs ==> 0 !in f.mime && |f.data| < Sha256.TWO64
    ensures forall f :: f in Arrange(fs, idx) ==> 0 !in f.mime && |f.data| < Sha256.TWO64
  {
  }

  lemma ClipTells(t: Tables, files: map<bytes, bytes>, id: nat, fs: seq<Format>, idx: seq<nat>, u: iset<bytes>)
    requires NoCollision(u) && PayloadsOk(t, files, u) && id in t.clips
    requires Given(fs, u) && Qsorted(fs, idx) && RecordsOf(fs, idx) in u
    ensures id in Contents(t, files)
    ensures t.clips[id].hash == Sha256.Digest(RecordsOf(fs, idx)) ==> Pairs(fs) == Pairs(Contents(t, files)[id]) && Distinct(fs)
    ensures Distinct(fs) && Pairs(fs) == Pairs(Contents(t, files)[id]) ==> t.clips[id].hash == Sha256.Digest(RecordsOf(fs, idx))
  {
    hide Sha256.Digest, Qsorted, RecordsOf, NoCollision, Given, Pairs, Distinct, RowsOk, Identity, Loads;
    assert ClipOk(t.clips[id].hash, t.formats[id], files, u);
    IdentityTells(fs, idx, Loads(t.formats[id], files), t.clips[id].hash, u);
  }

  /** Some clip already holds exactly these formats. */
  ghost predicate Holds(t: Tables, files: map<bytes, bytes>, fs: seq<Format>) {
    exists id :: id in Contents(t, files) && Pairs(Contents(t, files)[id]) == Pairs(fs)
  }

  predicate HasHash(clips: map<nat, Clip>, h: bytes) { exists id :: id in clips && clips[id].hash == h }

  lemma HoldsIffHash(t: Tables, files: map<bytes, bytes>, fs: seq<Format>, idx: seq<nat>, u: iset<bytes>)
    requires NoCollision(u) && PayloadsOk(t, files, u)
    requires Given(fs, u) && Qsorted(fs, idx) && RecordsOf(fs, idx) in u
    ensures HasHash(t.clips, Sha256.Digest(RecordsOf(fs, idx))) ==> Holds(t, files, fs)
    ensures Distinct(fs) && Holds(t, files, fs) ==> HasHash(t.clips, Sha256.Digest(RecordsOf(fs, idx)))
  {
    hide Sha256.Digest, Qsorted, RecordsOf, NoCollision, Given, Pairs, Distinct, ClipOk, Loads;
    forall id | id in t.clips
      ensures id in Contents(t, files)
      ensures t.clips[id].hash == Sha256.Digest(RecordsOf(fs, idx)) ==> Pairs(fs) == Pairs(Contents(t, files)[id])
      ensures Distinct(fs) && Pairs(fs) == Pairs(Contents(t, files)[id]) ==> t.clips[id].hash == Sha256.Digest(RecordsOf(fs, idx))
    {
      ClipTells(t, files, id, fs, idx, u);
    }
  }

  // ---- adding ------------------------------------------------------------------------------

  datatype AddResult = Failed | New(id: nat) | Dup(id: nat)

  /** The columns that do not come from the formats; 0 stands for an unset time or group. */
  datatype Origin = Origin(uuid: bytes, created: int, used: int, app: Option<bytes>, title: Option<bytes>, group: nat)

  function CreatedAt(o: Origin, now: int): int { if o.created != 0 then o.created else now }
  function UsedAt(o: Origin, now: int): int { if o.used != 0 then o.used else CreatedAt(o, now) }

  function Total(fs: seq<Format>): nat {
    if fs == [] then 0 else Total(fs[..|fs| - 1]) + |fs[|fs| - 1].data|
  }

  function ClipFor(fs: seq<Format>, h: bytes, o: Origin, plain: Option<bytes>, now: int): Clip {
    Clip(o.uuid, h, Total(fs), CreatedAt(o, now), UsedAt(o, now), 0, o.app, o.title, plain,
         if o.group != 0 then Some(o.group) else None, None, false, None)
  }

  /** A clip copied again moves up, never down, and keeps its source if none is given. */
  function Reused(c: Clip, o: Origin, now: int): Clip {
    c.(used := if c.used > UsedAt(o, now) then c.used else UsedAt(o, now),
       app := if o.app.Some? then o.app else c.app)
  }

  /**
   * A clip copied again is at least as recent as it was and as this copy is, and
   * no more; its source becomes the one given, if one is. Nothing else changes.
   */
  lemma CopiedAgain(c: Clip, o: Origin, now: int)
    ensures var at := if o.used != 0 then o.used else if o.created != 0 then o.created else now;
            var d := Reused(c, o, now);
            && d.used >= c.used && d.used >= at && (d.used == c.used || d.used == at)
            && (o.app == None ==> d.app == c.app) && (o.app != None ==> d.app == o.app)
            && d == c.(used := d.used, app := d.app)
  {
  }

  /** A clip copied for the first time: as large as its formats together, never pasted, and nothing the user would set. */
  lemma CopiedFirst(fs: seq<Format>, h: bytes, o: Origin, plain: Option<bytes>, now: int)
    ensures var c := ClipFor(fs, h, o, plain, now);
            && c.uuid == o.uuid && c.hash == h && c.size == |Concat(seq(|fs|, k requires 0 <= k < |fs| => fs[k].data))|
            && c.created == (if o.created == 0 then now else o.created)
            && c.used == (if o.used == 0 then c.created else o.used)
            && c.pastes == 0 && c.app == o.app && c.title == o.title && c.plain == plain
            && (o.group == 0 ==> c.group == None) && (o.group != 0 ==> c.group == Some(o.group))
            && c.sticky == None && !c.locked && c.quick == None
  {
    TotalIsAll(fs);
  }

  lemma {:induction false} TotalIsAll(fs: seq<Format>)
    ensures Total(fs) == |Concat(seq(|fs|, k requires 0 <= k < |fs| => fs[k].data))|
  {
    var all := seq(|fs|, k requires 0 <= k < |fs| => fs[k].data);
    if fs != [] {
      var n := |fs| - 1;
      TotalIsAll(fs[..n]);
      assert all[..n] == seq(|fs[..n]|, k requires 0 <= k < |fs[..n]| => fs[..n][k].data);
    }
  }

  ghost predicate CanInsert(t: Tables, c: Clip) {
    (forall i :: i in t.clips ==> Apart(t.clips[i], c) && Apart(c, t.clips[i])) && GroupIn(c, t.groups)
  }

  function Inserted(t: Tables, id: nat, c: Clip, rows: seq<FormatRow>): Tables {
    t.(clips := t.clips[id := c], formats := t.formats[id := rows])
  }

  lemma InsertKeeps(t: Tables, files: map<bytes, bytes>, id: nat, c: Clip, fs: seq<Format>, u: iset<bytes>)
    requires PayloadsOk(t, files, u) && KeysOk(t.clips) && RefsOk(t) && CanInsert(t, c)
    requires id !in t.clips && id != 0
    requires ClipOk(c.hash, RowsFor(fs), files, u) && Loads(RowsFor(fs), files) == fs
    ensures var t2 := Inserted(t, id, c, RowsFor(fs));
            && PayloadsOk(t2, files, u) && KeysOk(t2.clips) && RefsOk(t2)
            && Contents(t2, files) == Contents(t, files)[id := fs]
  {
    hide ClipOk, RowsFor, Loads, Contents, KeysOk, RefsOk, PayloadsOk, CanInsert;
    InsertKeepsKeys(t, id, c, RowsFor(fs));
    ClipPut(t, Inserted(t, id, c, RowsFor(fs)), files, id, c.hash, RowsFor(fs), u);
  }

  lemma InsertKeepsKeys(t: Tables, id: nat, c: Clip, rows: seq<FormatRow>)
    requires KeysOk(t.clips) && RefsOk(t) && CanInsert(t, c) && id !in t.clips
    ensures KeysOk(Inserted(t, id, c, rows).clips) && RefsOk(Inserted(t, id, c, rows))
  {
    hide Apart, GroupIn;
  }

  /** A clip whose rows and hash are sound goes in, or takes the place of what it was. */
  lemma LoadsPut(t: Tables, files: map<bytes, bytes>, id: nat, rows: seq<FormatRow>)
    ensures forall t2: Tables :: t2.formats == t.formats[id := rows] ==>
              Contents(t2, files) == Contents(t, files)[id := Loads(rows, files)]
  {
    hide Loads;
  }

  lemma ClipPut(t: Tables, t2: Tables, files: map<bytes, bytes>, id: nat, h: bytes, rows: seq<FormatRow>, u: iset<bytes>)
    requires PayloadsOk(t, files, u) && id != 0 && ClipOk(h, rows, files, u)
    requires t2.clips.Keys == t.clips.Keys + {id} && t2.clips[id].hash == h && t2.formats == t.formats[id := rows]
    requires forall k :: k in t.clips && k != id ==> t2.clips[k].hash == t.clips[k].hash
    ensures PayloadsOk(t2, files, u) && Contents(t2, files) == Contents(t, files)[id := Loads(rows, files)]
  {
    hide ClipOk, Loads;
    assert t2.formats.Keys == t2.clips.Keys;
    LoadsPut(t, files, id, rows);
    hide Contents;
    forall k | k in t2.clips ensures ClipOk(t2.clips[k].hash, t2.formats[k], files, u) {
      if k != id {
        assert k in t.clips && ClipOk(t.clips[k].hash, t.formats[k], files, u);
      }
    }
  }

  lemma UpdateKeeps(t: Tables, files: map<bytes, bytes>, id: nat, c: Clip, u: iset<bytes>)
    requires PayloadsOk(t, files, u) && KeysOk(t.clips) && RefsOk(t) && id in t.clips
    requires c.uuid == t.clips[id].uuid && c.hash == t.clips[id].hash && c.quick == t.clips[id].quick && c.group == t.clips[id].group
    ensures var t2 := t.(clips := t.clips[id := c]);
            PayloadsOk(t2, files, u) && KeysOk(t2.clips) && RefsOk(t2) && Contents(t2, files) == Contents(t, files)
  {
    hide ClipOk, Loads, KeysOk, GroupIn;
    SameColumnsApart(t.clips, id, c);
    GroupInSame(t, id, c);
    EditKeeps(t, files, id, c, u);
  }

  lemma SameColumnsApart(clips: map<nat, Clip>, id: nat, c: Clip)
    requires KeysOk(clips) && id in clips && c.uuid == clips[id].uuid && c.hash == clips[id].hash && c.quick == clips[id].quick
    ensures forall i :: i in clips && i != id ==> Apart(clips[i], c) && Apart(c, clips[i])
  {
    forall i | i in clips && i != id ensures Apart(clips[i], c) && Apart(c, clips[i]) {
      assert Apart(clips[i], clips[id]) && Apart(clips[id], clips[i]);
    }
  }

  lemma GroupInSame(t: Tables, id: nat, c: Clip)
    requires RefsOk(t) && id in t.clips && c.group == t.clips[id].group
    ensures GroupIn(c, t.groups)
  {
    assert GroupIn(t.clips[id], t.groups);
  }

  /** Any UPDATE of other columns that the constraints let through keeps every payload. */
  lemma EditKeeps(t: Tables, files: map<bytes, bytes>, id: nat, c: Clip, u: iset<bytes>)
    requires PayloadsOk(t, files, u) && KeysOk(t.clips) && RefsOk(t) && id in t.clips && c.hash == t.clips[id].hash
    requires (forall i :: i in t.clips && i != id ==> Apart(t.clips[i], c) && Apart(c, t.clips[i])) && GroupIn(c, t.groups)
    ensures var t2 := t.(clips := t.clips[id := c]);
            PayloadsOk(t2, files, u) && KeysOk(t2.clips) && RefsOk(t2) && Contents(t2, files) == Contents(t, files)
  {
    hide ClipOk, Loads, Apart, GroupIn;
  }

  // ---- the other columns -----------------------------------------------------------------------

  /** One of the columns the user or a paste may set, with its new value. */
  datatype Column =
    | Title(title: Option<bytes>)
    | QuickPaste(word: Option<bytes>)
    | Locked(locked: bool)
    | Sticky(order: Option<real>)
    | InGroup(group: Option<nat>)
    | Touched(now: int, pasted: bool)

  function With(c: Clip, col: Column): Clip {
    match col
    case Title(title) => c.(title := title)
    case QuickPaste(word) => c.(quick := word)
    case Locked(locked) => c.(locked := locked)
    case Sticky(order) => c.(sticky := order)
    case InGroup(group) => c.(group := group)
    case Touched(now, pasted) => c.(used := now, pastes := c.pastes + if pasted then 1 else 0)
  }

  /** Setting a column sets that one; a paste counts, a mere use does not. */
  lemma OnlyThatColumn(c: Clip, col: Column)
    ensures var d := With(c, col);
            && d == c.(title := d.title, quick := d.quick, locked := d.locked, sticky := d.sticky, group := d.group,
                       used := d.used, pastes := d.pastes)
            && d.title == (if col.Title? then col.title else c.title)
            && d.quick == (if col.QuickPaste? then col.word else c.quick)
            && d.locked == (if col.Locked? then col.locked else c.locked)
            && d.sticky == (if col.Sticky? then col.order else c.sticky)
            && d.group == (if col.InGroup? then col.group else c.group)
            && d.used == (if col.Touched? then col.now else c.used)
            && d.pastes == (if col.Touched? && col.pasted then c.pastes + 1 else c.pastes)
  {
  }

  predicate CanUpdate(t: Tables, id: nat, c: Clip) {
    (forall i :: i in t.clips && i != id ==> Apart(t.clips[i], c) && Apart(c, t.clips[i])) && GroupIn(c, t.groups)
  }

  datatype ColumnResult = Set | Absent | Conflict | Broken

  /** UPDATE of one column: nothing a clip holds changes, and a taken quick-paste word or a missing group refuses. */
  method SetColumn(db: Db, id: nat, col: Column, faults: set<Fault>, ghost u: iset<bytes>) returns (r: ColumnResult)
    requires Valid(db, u)
    modifies db`t
    ensures Valid(db, u) && Contents(db.t, db.files) == old(Contents(db.t, db.files)) && db.t.groups == old(db.t).groups
    ensures r.Absent? <==> id !in old(db.t).clips || Exists in faults
    ensures r.Broken? <==> !r.Absent? && Statement(1) in faults
    ensures r.Conflict? <==> !r.Absent? && !r.Broken? && !CanUpdate(old(db.t), id, With(old(db.t).clips[id], col))
    ensures r.Set? ==> db.t == old(db.t).(clips := old(db.t).clips[id := With(old(db.t).clips[id], col)])
    ensures !r.Set? ==> db.t == old(db.t)
  {
    hide *;
    ValidParts(db, u);
    if id !in db.t.clips || Exists in faults {
      return Absent;
    }
    if Statement(1) in faults {
      return Broken;
    }
    var c := With(db.t.clips[id], col);
    if !CanUpdate(db.t, id, c) {
      return Conflict;
    }
    WithKeepsHash(db.t.clips[id], col);
    CanUpdateMeans(db.t, id, c);
    EditKeeps(db.t, db.files, id, c, u);
    db.t := db.t.(clips := db.t.clips[id := c]);
    PartsValid(db, u);
    return Set;
  }

  lemma WithKeepsHash(c: Clip, col: Column)
    ensures With(c, col).hash == c.hash
  {
  }

  lemma CanUpdateMeans(t: Tables, id: nat, c: Clip)
    ensures CanUpdate(t, id, c) <==>
              (forall i :: i in t.clips && i != id ==> Apart(t.clips[i], c) && Apart(c, t.clips[i])) && GroupIn(c, t.groups)
  {
    hide Apart, GroupIn;
  }

  /** Which clip a copy buffer holds; the foreign key refuses one that is not there. */
  method SetSlot(db: Db, slot: nat, clip: nat, faults: set<Fault>, ghost u: iset<bytes>) returns (ok: bool)
    requires Valid(db, u)
    modifies db`t
    ensures Valid(db, u) && Contents(db.t, db.files) == old(Contents(db.t, db.files)) && db.t.groups == old(db.t).groups
    ensures ok <==> clip in old(db.t).clips && Statement(1) !in faults
    ensures db.t == if ok then old(db.t).(buffers := old(db.t).buffers[slot := clip]) else old(db.t)
  {
    hide *;
    ValidParts(db, u);
    if Statement(1) in faults || clip !in db.t.clips {
      return false;
    }
    SlotKeeps(db.t, db.files, slot, clip, db.t.bound, u);
    db.t := db.t.(buffers := db.t.buffers[slot := clip]);
    PartsValid(db, u);
    return true;
  }

  /** Buffers and hotkeys say nothing about what a clip holds. */
  lemma SlotKeeps(t: Tables, files: map<bytes, bytes>, slot: nat, clip: nat, bound: set<bytes>, u: iset<bytes>)
    requires PayloadsOk(t, files, u) && KeysOk(t.clips) && RefsOk(t)
    ensures clip in t.clips ==>
              var t2 := t.(buffers := t.buffers[slot := clip]);
              PayloadsOk(t2, files, u) && KeysOk(t2.clips) && RefsOk(t2) && Contents(t2, files) == Contents(t, files)
    ensures var t3 := t.(bound := bound);
            PayloadsOk(t3, files, u) && KeysOk(t3.clips) && RefsOk(t3) && Contents(t3, files) == Contents(t, files)
  {
    hide ClipOk, Loads, GroupIn;
  }

  ghost predicate NoFault(faults: set<Fault>) {
    forall f :: f in faults ==> f.LeftTemp? || f.Unlink? || f.Ask? || f.OpenDir? || f.Skip? || f.Unlisted?
  }

  /** The look-up answers and finds this hash, and the update of its clip goes through. */
  predicate Reuses(clips: map<nat, Clip>, h: bytes, faults: set<Fault>) {
    && Prepare(0) !in faults && Query !in faults && HasHash(clips, h)
    && Prepare(1) !in faults && Statement(1) !in faults
  }

  /** No clip is found, the constraints allow the row, and it and its formats go in. */
  ghost predicate Inserts(t: Tables, files: map<bytes, bytes>, fs: seq<Format>, c: Clip, faults: set<Fault>) {
    && Prepare(0) !in faults && (Query in faults || !HasHash(t.clips, c.hash))
    && Prepare(2) !in faults && Statement(2) !in faults && CanInsert(t, c) && FormatsGo(files, fs, faults)
  }

  lemma OutcomesAre(t: Tables, files: map<bytes, bytes>, fs: seq<Format>, c: Clip, faults: set<Fault>)
    ensures Reuses(t.clips, c.hash, faults) <==>
              && Prepare(0) !in faults && Query !in faults && HasHash(t.clips, c.hash)
              && Prepare(1) !in faults && Statement(1) !in faults
    ensures Inserts(t, files, fs, c, faults) <==>
              && Prepare(0) !in faults && (Query in faults || !HasHash(t.clips, c.hash))
              && Prepare(2) !in faults && Statement(2) !in faults && CanInsert(t, c) && FormatsGo(files, fs, faults)
    ensures HasHash(t.clips, c.hash) ==> !CanInsert(t, c)
  {
    hide CanInsert, HasHash, FormatsGo;
    CannotIf(t, c);
  }

  /** The body of the transaction; what it leaves behind on failure is rolled back. */
  method AddTx(db: Db, fs: seq<Format>, h: bytes, o: Origin, plain: Option<bytes>, now: int, faults: set<Fault>, ghost u: iset<bytes>)
    returns (r: AddResult)
    requires NoCollision(u) && FilesOk(db.files, u) && Given(fs, u) && 0 !in db.t.clips
    requires db.t.formats.Keys == db.t.clips.Keys
    modifies db`t, db`files, db`temps
    ensures FilesOk(db.files, u) && Grown(old(db.files), db.files)
    ensures db.files == old(db.files) || PutSome(old(db.files), fs, db.files)
    ensures r.New? ==> db.files == PutAll(old(db.files), fs)
    ensures r.Dup? ==>
              && r.id in old(db.t).clips && old(db.t).clips[r.id].hash == h && db.files == old(db.files)
              && db.t == old(db.t).(clips := old(db.t).clips[r.id := Reused(old(db.t).clips[r.id], o, now)])
    ensures r.New? ==>
              && CanInsert(old(db.t), ClipFor(fs, h, o, plain, now)) && IsNext(old(db.t).clips.Keys, r.id)
              && r.id !in old(db.t).clips && r.id != 0 && Distinct(fs) && Stored(fs, db.files)
              && db.t == Inserted(old(db.t), r.id, ClipFor(fs, h, o, plain, now), RowsFor(fs))
    ensures NoFault(faults) && HasHash(old(db.t).clips, h) ==> r.Dup?
    ensures NoFault(faults) && !HasHash(old(db.t).clips, h) ==>
              (r.New? <==> CanInsert(old(db.t), ClipFor(fs, h, o, plain, now)) && Distinct(fs))
    ensures r.Dup? <==> Reuses(old(db.t).clips, h, faults)
    ensures r.New? <==> Inserts(old(db.t), old(db.files), fs, ClipFor(fs, h, o, plain, now), faults)
  {
    hide FormatsGo, Reuses, Inserts, NoCollision, FilesOk, Given, Distinct, Stored, RowsFor, ClipFor, Reused, CanInsert, HasHash, Inserted, IsNext, Grown, PutAll, PutSome;
    assert Grown(db.files, db.files) by { GrownSelf(db.files); }
    OutcomesAre(db.t, db.files, fs, ClipFor(fs, h, o, plain, now), faults);
    ClipForHash(fs, h, o, plain, now);
    if Prepare(0) in faults {
      return Failed;
    }
    if Query !in faults && HasHash(db.t.clips, h) {
      var id := WithHash(db.t.clips, h);
      if Prepare(1) in faults || Statement(1) in faults {
        return Failed;
      }
      db.t := db.t.(clips := db.t.clips[id := Reused(db.t.clips[id], o, now)]);
      return Dup(id);
    }
    var c := ClipFor(fs, h, o, plain, now);
    r := InsertClip(db, c, fs, faults, u);
  }

  method WithHash(clips: map<nat, Clip>, h: bytes) returns (id: nat)
    requires HasHash(clips, h)
    ensures id in clips && clips[id].hash == h
  {
    id :| id in clips && clips[id].hash == h;
  }

  lemma CannotIf(t: Tables, c: Clip)
    ensures HasHash(t.clips, c.hash) ==> !CanInsert(t, c)
  {
    if HasHash(t.clips, c.hash) {
      CannotInsert(t, c);
    }
  }

  /** INSERT INTO clips, its constraints, and the formats. */
  method InsertClip(db: Db, c: Clip, fs: seq<Format>, faults: set<Fault>, ghost u: iset<bytes>) returns (r: AddResult)
    requires NoCollision(u) && FilesOk(db.files, u) && Given(fs, u) && 0 !in db.t.clips
    requires db.t.formats.Keys == db.t.clips.Keys
    modifies db`t, db`files, db`temps
    ensures FilesOk(db.files, u) && Grown(old(db.files), db.files) && !r.Dup?
    ensures db.files == old(db.files) || PutSome(old(db.files), fs, db.files)
    ensures r.New? ==> db.files == PutAll(old(db.files), fs)
    ensures r.New? ==>
              && CanInsert(old(db.t), c) && IsNext(old(db.t).clips.Keys, r.id)
              && r.id !in old(db.t).clips && r.id != 0 && Distinct(fs) && Stored(fs, db.files)
              && db.t == Inserted(old(db.t), r.id, c, RowsFor(fs))
    ensures NoFault(faults) ==> (r.New? <==> CanInsert(old(db.t), c) && Distinct(fs))
    ensures r.New? <==> Prepare(2) !in faults && Statement(2) !in faults && CanInsert(old(db.t), c) && FormatsGo(old(db.files), fs, faults)
  {
    hide *;
    GrownSelf(db.files);
    FaultsNone(faults);
    CanIs(db.t, c);
    if Prepare(2) in faults || Statement(2) in faults {
      return Failed;
    }
    if (exists i :: i in db.t.clips && !(Apart(db.t.clips[i], c) && Apart(c, db.t.clips[i]))) || !GroupIn(c, db.t.groups) {
      return Failed;
    }
    ghost var was := db.t;
    var id := NextRowid(db.t.clips.Keys);
    NextIs(db.t.clips.Keys, id);
    InsertedIs(db.t, id, c, RowsFor(fs));
    db.t := db.t.(clips := db.t.clips[id := c], formats := db.t.formats[id := []]);
    if NoFault(faults) {
      GoesUnlessFault(db.files, fs, faults);
    }
    var ok := InsertFormats(db, id, fs, faults, u);
    if !ok {
      return Failed;
    }
    return New(id);
  }

  lemma CanIs(t: Tables, c: Clip)
    ensures CanInsert(t, c) <==>
              !((exists i :: i in t.clips && !(Apart(t.clips[i], c) && Apart(c, t.clips[i]))) || !GroupIn(c, t.groups))
  {
    hide Apart, GroupIn;
  }

  lemma NextIs(used: set<nat>, id: nat)
    requires IsNext(used, id)
    ensures id != 0 && id !in used
  {
  }

  lemma InsertedIs(t: Tables, id: nat, c: Clip, rows: seq<FormatRow>)
    ensures Inserted(t, id, c, rows)
         == t.(clips := t.clips[id := c], formats := t.formats[id := []]).(formats := t.formats[id := []][id := rows])
  {
  }

  lemma GrownSelf(files: map<bytes, bytes>)
    ensures Grown(files, files)
  {
  }

  /**
   * Stores a clip, or moves the one that holds exactly these formats up. idx is
   * the order qsort puts them in.
   */
  method Add(db: Db, fs: seq<Format>, idx: seq<nat>, o: Origin, plain: Option<bytes>, now: int, faults: set<Fault>, ghost u: iset<bytes>)
    returns (r: AddResult)
    requires Valid(db, u) && Given(fs, u) && Qsorted(fs, idx) && RecordsOf(fs, idx) in u
    modifies db`t, db`files, db`temps
    ensures Valid(db, u) && (db.files == old(db.files) || PutSome(old(db.files), fs, db.files))
    ensures r.New? ==> db.files == PutAll(old(db.files), fs)
    ensures r.Dup? ==> db.files == old(db.files)
    ensures r.Failed? ==> db.t == old(db.t) && Contents(db.t, db.files) == old(Contents(db.t, db.files))
    ensures r.Dup? ==> var was := old(Contents(db.t, db.files));
              && r.id in was && r.id in old(db.t).clips && Pairs(was[r.id]) == Pairs(fs) && Contents(db.t, db.files) == was
              && db.t == old(db.t).(clips := old(db.t).clips[r.id := Reused(old(db.t).clips[r.id], o, now)])
    ensures r.New? ==> var was := old(Contents(db.t, db.files));
              && r.id !in was && Contents(db.t, db.files) == was[r.id := fs]
              && IsNext(old(db.t).clips.Keys, r.id) && !old(Holds(db.t, db.files, fs))
              && db.t == Inserted(old(db.t), r.id, ClipFor(fs, Sha256.Digest(RecordsOf(fs, idx)), o, plain, now), RowsFor(fs))
    ensures !r.Failed? ==> fs != [] && Distinct(fs)
    ensures NoFault(faults) && fs != [] && Distinct(fs) ==> (r.Dup? <==> old(Holds(db.t, db.files, fs)))
    ensures NoFault(faults) && fs != [] && Distinct(fs) && !old(Holds(db.t, db.files, fs)) ==>
              (r.New? <==> old(CanInsert(db.t, ClipFor(fs, Sha256.Digest(RecordsOf(fs, idx)), o, plain, now))))
    ensures r.Dup? <==>
              && fs != [] && Begin !in faults && Commit !in faults
              && Reuses(old(db.t).clips, Sha256.Digest(RecordsOf(fs, idx)), faults)
    ensures r.New? <==>
              && fs != [] && Begin !in faults && Commit !in faults
              && Inserts(old(db.t), old(db.files), fs, ClipFor(fs, Sha256.Digest(RecordsOf(fs, idx)), o, plain, now), faults)
  {
    hide *;
    ValidParts(db, u);
    GrownSelf(db.files);
    if fs == [] {
      return Failed;
    }
    var h := Sha256.Digest(RecordsOf(fs, idx));
    HoldsIffHash(db.t, db.files, fs, idx, u);
    FaultParts(faults);
    if Begin in faults {
      return Failed;
    }
    ghost var files := db.files;
    var saved := db.t;
    r := AddTx(db, fs, h, o, plain, now, faults, u);
    AfterAdd(saved, files, db.files, fs, idx, h, o, plain, now, r, u);
    if r.Dup? {
      HashIsHeld(saved, r.id);
    }
    if r.Failed? || Commit in faults {
      db.t := saved;
      PartsValid(db, u);
      return Failed;
    }
    PartsValid(db, u);
  }

  lemma FaultParts(faults: set<Fault>)
    ensures NoFault(faults) ==> Begin !in faults && Commit !in faults
  {
  }

  lemma ValidParts(db: Db, u: iset<bytes>)
    requires Valid(db, u)
    ensures NoCollision(u) && FilesOk(db.files, u) && PayloadsOk(db.t, db.files, u) && KeysOk(db.t.clips) && RefsOk(db.t)
    ensures db.t.formats.Keys == db.t.clips.Keys && 0 !in db.t.clips
  {
  }

  lemma PartsValid(db: Db, u: iset<bytes>)
    requires NoCollision(u) && FilesOk(db.files, u) && PayloadsOk(db.t, db.files, u) && KeysOk(db.t.clips) && RefsOk(db.t)
    ensures Valid(db, u)
  {
  }

  lemma GrownSameRefs(t: Tables, files: map<bytes, bytes>, files2: map<bytes, bytes>)
    requires Grown(files, files2)
    ensures SameRefs(t, files, files2)
  {
    hide Referenced;
  }

  lemma HashIsHeld(t: Tables, id: nat)
    requires id in t.clips
    ensures HasHash(t.clips, t.clips[id].hash)
  {
  }

  lemma CannotInsert(t: Tables, c: Clip)
    requires HasHash(t.clips, c.hash)
    ensures !CanInsert(t, c)
  {
  }

  /** Whichever way the transaction ends, the tables it leaves and those it found stay sound. */
  lemma AfterAdd(t: Tables, files: map<bytes, bytes>, files2: map<bytes, bytes>, fs: seq<Format>, idx: seq<nat>, h: bytes,
                 o: Origin, plain: Option<bytes>, now: int, r: AddResult, u: iset<bytes>)
    requires NoCollision(u) && PayloadsOk(t, files, u) && KeysOk(t.clips) && RefsOk(t) && Grown(files, files2)
    requires fs != [] && Given(fs, u) && Qsorted(fs, idx) && RecordsOf(fs, idx) in u && h == Sha256.Digest(RecordsOf(fs, idx))
    requires r.Dup? ==> r.id in t.clips && t.clips[r.id].hash == h
    requires r.New? ==> r.id !in t.clips && r.id != 0 && Distinct(fs) && Stored(fs, files2) && CanInsert(t, ClipFor(fs, h, o, plain, now))
    ensures PayloadsOk(t, files2, u) && Contents(t, files2) == Contents(t, files)
    ensures r.Dup? ==> var t2 := t.(clips := t.clips[r.id := Reused(t.clips[r.id], o, now)]);
              && PayloadsOk(t2, files2, u) && KeysOk(t2.clips) && RefsOk(t2) && Contents(t2, files2) == Contents(t, files)
              && r.id in Contents(t, files) && Pairs(Contents(t, files)[r.id]) == Pairs(fs) && Distinct(fs)
    ensures r.New? ==> var t2 := Inserted(t, r.id, ClipFor(fs, h, o, plain, now), RowsFor(fs));
              && PayloadsOk(t2, files2, u) && KeysOk(t2.clips) && RefsOk(t2)
              && Contents(t2, files2) == Contents(t, files)[r.id := fs] && r.id !in Contents(t, files) && !HasHash(t.clips, h)
  {
    hide *;
    GrownSameRefs(t, files, files2);
    PayloadsKept(t, files, files2, u);
    if r.Dup? {
      ClipTells(t, files, r.id, fs, idx, u);
      ReusedKeeps(t.clips[r.id], o, now);
      UpdateKeeps(t, files2, r.id, Reused(t.clips[r.id], o, now), u);
    }
    if r.New? {
      ClipStored(fs, idx, files2, u);
      var c := ClipFor(fs, h, o, plain, now);
      ClipForHash(fs, h, o, plain, now);
      InsertKeeps(t, files2, r.id, c, fs, u);
      NotListed(t, files, r.id, u);
      if HasHash(t.clips, h) {
        CannotInsert(t, c);
      }
    }
  }

  lemma NotListed(t: Tables, files: map<bytes, bytes>, id: nat, u: iset<bytes>)
    requires PayloadsOk(t, files, u) && id !in t.clips
    ensures id !in Contents(t, files)
  {
    hide ClipOk, Loads;
  }

  lemma ReusedKeeps(c: Clip, o: Origin, now: int)
    ensures var d := Reused(c, o, now); d.uuid == c.uuid && d.hash == c.hash && d.quick == c.quick && d.group == c.group
  {
  }

  lemma ClipForHash(fs: seq<Format>, h: bytes, o: Origin, plain: Option<bytes>, now: int)
    ensures ClipFor(fs, h, o, plain, now).hash == h
  {
    hide Total;
  }

  // ---- files nobody needs ---------------------------------------------------------------

  /** What is unlinked of these names: those that no row uses, and those whose query failed. */
  function Unlinked(t: Tables, names: set<bytes>, faults: set<Fault>): set<bytes> {
    set n | n in names && (!Referenced(t, n) || Ask(n) in faults) && Unlink(n) !in faults
  }

  /** The names among these that a row still uses and that are unlinked all the same. */
  function Lost(t: Tables, names: set<bytes>, faults: set<Fault>): set<bytes> {
    set n | n in names && Referenced(t, n) && Ask(n) in faults && Unlink(n) !in faults
  }

  lemma FewerFilesOk(files: map<bytes, bytes>, gone: set<bytes>, u: iset<bytes>)
    requires FilesOk(files, u)
    ensures FilesOk(files - gone, u)
  {
    hide FileOk;
  }

  method UnlinkUnused(db: Db, names: set<bytes>, faults: set<Fault>)
    modifies db`files
    ensures db.files == old(db.files) - Unlinked(db.t, names, faults)
  {
    hide Referenced;
    var left := names;
    while left != {}
      invariant left <= names && db.t == old(db.t)
      invariant db.files == old(db.files) - Unlinked(db.t, names - left, faults)
    {
      var n :| n in left;
      left := left - {n};
      var used := Ask(n) !in faults && Referenced(db.t, n);
      if !used && Unlink(n) !in faults {
        db.files := db.files - {n};
      }
      assert Unlinked(db.t, names - left, faults)
          == Unlinked(db.t, names - left - {n}, faults) + if !used && Unlink(n) !in faults then {n} else {};
    }
    assert names - left == names;
  }

  /** The files a row names are there. */
  lemma ReferencedIsThere(t: Tables, files: map<bytes, bytes>, n: bytes, u: iset<bytes>)
    requires PayloadsOk(t, files, u) && Referenced(t, n)
    ensures n in files
  {
    hide Identity, Loads, Sha256.Digest, AsBlob, BytesOf;
    var id :| id in t.formats && RefIn(t.formats[id], n);
    var k :| 0 <= k < |t.formats[id]| && t.formats[id][k].blob == Some(n);
    assert ClipOk(t.clips[id].hash, t.formats[id], files, u);
    assert RowOk(t.formats[id][k], files, u);
  }

  /** No row names a missing file. */
  predicate AllThere(t: Tables, files: map<bytes, bytes>) {
    forall id :: id in t.formats ==> RowsThere(t.formats[id], files)
  }

  predicate RowsThere(rows: seq<FormatRow>, files: map<bytes, bytes>) {
    forall k :: 0 <= k < |rows| && rows[k].blob.Some? ==> rows[k].blob.value in files
  }

  lemma SoundIsThere(t: Tables, files: map<bytes, bytes>, u: iset<bytes>)
    requires PayloadsOk(t, files, u)
    ensures AllThere(t, files)
  {
    hide ClipOk;
    forall id | id in t.formats ensures RowsThere(t.formats[id], files) {
      forall k | 0 <= k < |t.formats[id]| && t.formats[id][k].blob.Some? ensures t.formats[id][k].blob.value in files {
        RowIsThere(t, files, id, k, u);
      }
    }
  }

  lemma MissingIsNotThere(t: Tables, files: map<bytes, bytes>, n: bytes)
    requires Referenced(t, n) && n !in files
    ensures !AllThere(t, files)
  {
  }

  /**
   * Unlinking keeps the store sound exactly when no name that is still used has
   * a failing query and a working unlink.
   */
  lemma SpareIff(t: Tables, files: map<bytes, bytes>, names: set<bytes>, faults: set<Fault>, u: iset<bytes>)
    requires PayloadsOk(t, files, u) && FilesOk(files, u)
    ensures PayloadsOk(t, files - Unlinked(t, names, faults), u) <==> Lost(t, names, faults) == {}
    ensures Lost(t, names, faults) == {} ==> Contents(t, files - Unlinked(t, names, faults)) == Contents(t, files)
    ensures FilesOk(files - Unlinked(t, names, faults), u)
    ensures Lost(t, names, faults) == {} <==> AllThere(t, files - Unlinked(t, names, faults))
  {
    hide PayloadsOk, Contents, Referenced, FilesOk, AllThere;
    var rest := files - Unlinked(t, names, faults);
    FewerFilesOk(files, Unlinked(t, names, faults), u);
    if Lost(t, names, faults) == {} {
      forall n | n in files && Referenced(t, n) ensures n in rest {
        assert n !in Lost(t, names, faults);
      }
      PayloadsKept(t, files, rest, u);
      SoundIsThere(t, rest, u);
    } else {
      var n :| n in Lost(t, names, faults);
      MissingIsNotThere(t, rest, n);
      if PayloadsOk(t, rest, u) {
        ReferencedIsThere(t, rest, n, u);
      }
    }
  }

  /** Even then exactly the clips with a lost file are lost. */
  lemma LosesExactly(t: Tables, files: map<bytes, bytes>, names: set<bytes>, faults: set<Fault>, id: nat, u: iset<bytes>)
    requires PayloadsOk(t, files, u) && id in t.clips
    ensures ClipOk(t.clips[id].hash, t.formats[id], files - Unlinked(t, names, faults), u) <==>
              forall n :: n in Lost(t, names, faults) ==> !RefIn(t.formats[id], n)
  {
    hide Identity, Loads, RowsOk, RefIn, Referenced;
    var (rows, rest) := (t.formats[id], files - Unlinked(t, names, faults));
    assert ClipOk(t.clips[id].hash, rows, files, u);
    if n :| n in Lost(t, names, faults) && RefIn(rows, n) {
      NotOkWithout(rows, rest, n, u);
    } else {
      forall n | n in files && RefIn(rows, n) ensures n in rest {
        RefIsReferenced(t, id, n);
      }
      RowsKept(rows, files, rest, u);
    }
  }

  lemma NotOkWithout(rows: seq<FormatRow>, files: map<bytes, bytes>, n: bytes, u: iset<bytes>)
    requires RefIn(rows, n) && n !in files
    ensures !RowsOk(rows, files, u)
  {
    hide Sha256.Digest, AsBlob, BytesOf;
    var k :| 0 <= k < |rows| && rows[k].blob == Some(n);
    assert !RowOk(rows[k], files, u);
  }

  lemma RefIsReferenced(t: Tables, id: nat, n: bytes)
    requires id in t.formats && RefIn(t.formats[id], n)
    ensures Referenced(t, n)
  {
  }

  lemma UnlinkedIs(t: Tables, names: set<bytes>, faults: set<Fault>)
    ensures faults == {} ==> forall n :: n in Unlinked(t, names, faults) <==> n in names && !Referenced(t, n)
  {
    hide Referenced;
  }

  lemma ValidIff(db: Db, u: iset<bytes>)
    requires NoCollision(u) && FilesOk(db.files, u) && KeysOk(db.t.clips) && RefsOk(db.t)
    ensures Valid(db, u) <==> PayloadsOk(db.t, db.files, u)
  {
  }

  // ---- deleting ------------------------------------------------------------------------

  function BlobsOf(rows: seq<FormatRow>): set<bytes> {
    set k | 0 <= k < |rows| && rows[k].blob.Some? :: rows[k].blob.value
  }

  datatype Deleted = Done | NotFound | Error

  predicate DeleteWorks(faults: set<Fault>) {
    Begin !in faults && Prepare(0) !in faults && Prepare(1) !in faults && Statement(1) !in faults && Commit !in faults
  }

  /** Whether deleting this clip would take a file that another clip still uses. */
  predicate DeleteHarms(t: Tables, id: nat, faults: set<Fault>) {
    && id in t.clips && id in t.formats && DeleteWorks(faults)
    && Lost(WithoutClips(t, {id}), BlobsOf(t.formats[id]), faults) != {}
  }

  /** The clip and its formats go, and of its files those that no other row shares. */
  method Delete(db: Db, id: nat, faults: set<Fault>, ghost u: iset<bytes>) returns (r: Deleted)
    requires Valid(db, u)
    modifies db`t, db`files
    ensures Valid(db, u) <==> !DeleteHarms(old(db.t), id, faults)
    ensures Valid(db, u) <==> AllThere(db.t, db.files)
    ensures r.Done? <==> id in old(db.t).clips && DeleteWorks(faults)
    ensures r.Done? ==>
              && db.t == WithoutClips(old(db.t), {id})
              && db.files == old(db.files) - Unlinked(db.t, BlobsOf(old(db.t).formats[id]), faults)
              && (Valid(db, u) ==> Contents(db.t, db.files) == old(Contents(db.t, db.files)) - {id})
    ensures !r.Done? ==> db.t == old(db.t) && db.files == old(db.files)
    ensures r.NotFound? ==> id !in db.t.clips
    ensures NoFault(faults) ==> !r.Error?
  {
    hide *;
    ValidParts(db, u);
    FaultsNone(faults);
    DeleteHarmIs(db.t, id, faults);
    SoundIsThere(db.t, db.files, u);
    if Begin in faults || Prepare(0) in faults {
      return Error;
    }
    var saved := db.t;
    var blobs := if id in db.t.formats then BlobsOf(db.t.formats[id]) else {};
    if Prepare(1) in faults || Statement(1) in faults {
      return Error;
    }
    DeleteIs(db.t, db.files, {id}, u);
    db.t := WithoutClips(db.t, {id});
    if id !in saved.clips {
      db.t := saved;
      PartsValid(db, u);
      return NotFound;
    }
    if Commit in faults {
      db.t := saved;
      PartsValid(db, u);
      return Error;
    }
    SpareIff(db.t, db.files, blobs, faults, u);
    UnlinkUnused(db, blobs, faults);
    ValidIff(db, u);
    return Done;
  }

  lemma DeleteHarmIs(t: Tables, id: nat, faults: set<Fault>)
    ensures DeleteWorks(faults) <==>
              Begin !in faults && Prepare(0) !in faults && Prepare(1) !in faults && Statement(1) !in faults && Commit !in faults
    ensures DeleteHarms(t, id, faults) <==>
              && id in t.clips && id in t.formats && DeleteWorks(faults)
              && Lost(WithoutClips(t, {id}), BlobsOf(t.formats[id]), faults) != {}
  {
    hide Lost, BlobsOf, WithoutClips;
  }

  lemma FaultsNone(faults: set<Fault>)
    ensures NoFault(faults) ==> Begin !in faults && Commit !in faults && Query !in faults && Exists !in faults
    ensures NoFault(faults) ==> forall n :: Prepare(n) !in faults && Statement(n) !in faults
  {
  }

  lemma DeleteIs(t: Tables, files: map<bytes, bytes>, ids: set<nat>, u: iset<bytes>)
    requires PayloadsOk(t, files, u) && KeysOk(t.clips) && RefsOk(t)
    ensures var t2 := WithoutClips(t, ids);
            && PayloadsOk(t2, files, u) && KeysOk(t2.clips) && RefsOk(t2) && Contents(t2, files) == Contents(t, files) - ids
  {
    hide ClipOk, Loads, KeysOk, RefsOk;
    var t2 := WithoutClips(t, ids);
    DeleteKeepsKeys(t, ids);
    PayloadsOfRest(t, t2, files, u);
    assert Contents(t2, files).Keys == Contents(t, files).Keys - ids;
  }

  // ---- loading --------------------------------------------------------------------------

  /** One format's bytes, if its file is there. */
  method FormatBytes(db: Db, r: FormatRow) returns (b: Option<bytes>)
    ensures b.None? <==> r.blob.Some? && r.blob.value !in db.files
    ensures b.Some? ==> b.value == BytesOf(r, db.files)
  {
    if r.blob.Some? {
      if r.blob.value !in db.files {
        return None;
      }
      return Some(db.files[r.blob.value]);
    }
    return Some(if r.data.Some? then r.data.value else []);
  }

  /** How many rows are read before stepping the query fails or there are no more. */
  function ReadUpTo(k: nat, n: nat, faults: set<Fault>): (r: nat)
    requires k <= n
    ensures k <= r <= n && (forall i :: k <= i < r ==> Row(i) !in faults) && (r < n ==> Row(r) in faults)
    decreases n - k
  {
    if k == n || Row(k) in faults then k else ReadUpTo(k + 1, n, faults)
  }

  predicate LoadGoes(rows: seq<FormatRow>, faults: set<Fault>) {
    var r := ReadUpTo(0, |rows|, faults);
    && Prepare(0) !in faults && Query !in faults && Prepare(1) !in faults
    && r > 0 && forall k :: 0 <= k < r ==> Map(k) !in faults
  }

  /**
   * In a sound store every clip loads, and exactly as it was stored. A query
   * that fails midway ends the loop and passes for the end of the rows: then
   * the formats before it are all that is loaded.
   */
  method LoadPayload(db: Db, id: nat, faults: set<Fault>, ghost u: iset<bytes>) returns (p: Option<seq<Format>>)
    ensures p.Some? ==>
              && id in db.t.clips && id in db.t.formats && id in Contents(db.t, db.files)
              && p.value == Contents(db.t, db.files)[id][..ReadUpTo(0, |db.t.formats[id]|, faults)] != []
    ensures p.Some? ==>
              (p.value == Contents(db.t, db.files)[id] <==> forall k :: 0 <= k < |db.t.formats[id]| ==> Row(k) !in faults)
    ensures Valid(db, u) ==> (p.Some? <==> id in db.t.clips && id in db.t.formats && LoadGoes(db.t.formats[id], faults))
    ensures Valid(db, u) && faults == {} ==> (p.Some? <==> id in db.t.clips)
  {
    hide *;
    if id !in db.t.clips || Prepare(0) in faults || Query in faults || Prepare(1) in faults || id !in db.t.formats {
      LoadStops(db, id, faults, u);
      return None;
    }
    var rows := db.t.formats[id];
    LoadIs(rows, faults);
    ghost var r := ReadUpTo(0, |rows|, faults);
    ContentsAt(db.t, db.files, id, u);
    if Valid(db, u) { ValidParts(db, u); }
    var fs: seq<Format> := [];
    LoadsStart(rows, db.files);
    var k := 0;
    while k < |rows| && Row(k) !in faults
      invariant k <= r <= |rows| && fs == Loads(rows[..k], db.files) && |fs| == k
      invariant forall i :: 0 <= i < k ==> Map(i) !in faults
    {
      var b := FormatBytes(db, rows[k]);
      if b.None? || Map(k) in faults {
        if Valid(db, u) {
          RowIsThere(db.t, db.files, id, k, u);
        }
        return None;
      }
      LoadsMore(rows, db.files, k);
      fs := fs + [Format(rows[k].mime, b.value)];
      k := k + 1;
    }
    assert k == r;
    if |fs| == 0 {
      return None;
    }
    LoadsPrefix(rows, k, db.files);
    return Some(fs);
  }

  lemma LoadStops(db: Db, id: nat, faults: set<Fault>, u: iset<bytes>)
    requires id !in db.t.clips || Prepare(0) in faults || Query in faults || Prepare(1) in faults || id !in db.t.formats
    ensures id in db.t.formats ==> id !in db.t.clips || !LoadGoes(db.t.formats[id], faults)
    ensures Valid(db, u) ==> (id in db.t.clips <==> id in db.t.formats)
  {
    hide NoCollision, FilesOk, KeysOk, RefsOk, ClipOk;
  }

  lemma LoadIs(rows: seq<FormatRow>, faults: set<Fault>)
    ensures LoadGoes(rows, faults) <==>
              && Prepare(0) !in faults && Query !in faults && Prepare(1) !in faults && ReadUpTo(0, |rows|, faults) > 0
              && forall k :: 0 <= k < ReadUpTo(0, |rows|, faults) ==> Map(k) !in faults
    ensures faults == {} ==> ReadUpTo(0, |rows|, faults) == |rows|
  {
  }

  lemma LoadsPrefix(rows: seq<FormatRow>, k: nat, files: map<bytes, bytes>)
    requires k <= |rows|
    ensures Loads(rows[..k], files) == Loads(rows, files)[..k]
    ensures Loads(rows, files)[..k] == Loads(rows, files) <==> k == |rows|
  {
    hide BytesOf;
    assert k < |rows| ==> |Loads(rows, files)[..k]| != |Loads(rows, files)|;
    assert Loads(rows, files)[..|rows|] == Loads(rows, files);
  }

  lemma ContentsAt(t: Tables, files: map<bytes, bytes>, id: nat, u: iset<bytes>)
    requires id in t.clips && id in t.formats
    ensures id in Contents(t, files) && Contents(t, files)[id] == Loads(t.formats[id], files)
    ensures PayloadsOk(t, files, u) ==> t.formats[id] != []
  {
    hide RowsOk, Identity, Loads;
    assert PayloadsOk(t, files, u) ==> ClipOk(t.clips[id].hash, t.formats[id], files, u);
  }

  lemma LoadsStart(rows: seq<FormatRow>, files: map<bytes, bytes>)
    ensures Loads(rows[..0], files) == []
  {
  }

  lemma LoadsMore(rows: seq<FormatRow>, files: map<bytes, bytes>, k: nat)
    requires k < |rows|
    ensures Loads(rows[..k + 1], files) == Loads(rows[..k], files) + [Format(rows[k].mime, BytesOf(rows[k], files))]
  {
    hide BytesOf;
  }

  lemma RowIsThere(t: Tables, files: map<bytes, bytes>, id: nat, k: nat, u: iset<bytes>)
    requires PayloadsOk(t, files, u) && id in t.formats && k < |t.formats[id]|
    ensures var r := t.formats[id][k]; r.blob.Some? ==> r.blob.value in files
  {
    hide Identity, Loads, Sha256.Digest, AsBlob, BytesOf;
    assert ClipOk(t.clips[id].hash, t.formats[id], files, u);
    assert RowOk(t.formats[id][k], files, u);
  }

  /** A text and the same text as HTML. */
  function TwoFormats(): seq<Format> { [Format(MIME_TEXT, [97]), Format(MIME_HTML, [60, 98, 62, 97])] }

  const MIME_HTML: bytes := [116, 101, 120, 116, 47, 104, 116, 109, 108] // text/html

  lemma NoImage(mime: bytes)
    requires mime != [] && mime[0] != 105
    ensures !IsImage(mime)
  {
    assert [105, 109, 97, 103, 101, 47][0] == 105;
  }

  /**
   * Loading a clip of these two formats while reading the second row fails is a
   * success, and gives the text alone.
   */
  lemma HalfAClipLoads()
    ensures var (rows, faults) := (RowsFor(TwoFormats()), {Row(1)});
            && LoadGoes(rows, faults) && ReadUpTo(0, |rows|, faults) == 1
            && Loads(rows, map[]) == TwoFormats() && Loads(rows, map[])[..1] == [Format(MIME_TEXT, [97])]
  {
    hide Sha256.Digest;
    assert MIME_TEXT[0] != 105 && MIME_HTML[0] != 105;
    NoImage(MIME_TEXT);
    NoImage(MIME_HTML);
    assert ReadUpTo(1, 2, {Row(1)}) == 1;
  }

  // ---- editing the text of a clip ------------------------------------------------------------

  /** text/plain;charset=utf-8 */
  const MIME_TEXT: bytes := [116, 101, 120, 116, 47, 112, 108, 97, 105, 110, 59, 99, 104, 97, 114, 115, 101, 116, 61, 117, 116, 102, 45, 56]

  lemma TextMimeIs()
    ensures var name := "text/plain;charset=utf-8"; |MIME_TEXT| == |name| && forall i :: 0 <= i < |name| ==> MIME_TEXT[i] == name[i] as int
  {
  }

  datatype EditResult = Edited | NoSuchClip | EmptyText | NotUtf8 | Duplicate | DatabaseError

  predicate OthersHave(clips: map<nat, Clip>, h: bytes, id: nat) {
    exists k :: k in clips && k != id && clips[k].hash == h
  }

  function Rewritten(c: Clip, h: bytes, text: bytes, plain: Option<bytes>): Clip {
    c.(hash := h, size := |text|, plain := plain)
  }

  function TextFormat(text: bytes): Format { Format(MIME_TEXT, text) }

  /** What the statements of the transaction leave when all of them work. */
  function TextTables(t: Tables, id: nat, h: bytes, text: bytes, plain: Option<bytes>): Tables
    requires id in t.clips
  {
    t.(clips := t.clips[id := Rewritten(t.clips[id], h, text, plain)],
       formats := t.formats[id := RowsFor([TextFormat(text)])])
  }

  /** The clip's hash, size and searchable text become the new text's; its other columns and all other clips stay. */
  lemma TextIsAll(t: Tables, id: nat, h: bytes, text: bytes, plain: Option<bytes>)
    requires id in t.clips
    ensures var (t2, c, d) := (TextTables(t, id, h, text, plain), t.clips[id], TextTables(t, id, h, text, plain).clips[id]);
            && t2.clips.Keys == t.clips.Keys && (forall k :: k in t.clips && k != id ==> t2.clips[k] == t.clips[k])
            && d.hash == h && d.size == |text| && d.plain == plain && d == c.(hash := d.hash, size := d.size, plain := d.plain)
            && id in t2.formats && (forall k :: k in t.formats && k != id ==> k in t2.formats && t2.formats[k] == t.formats[k])
            && |t2.formats[id]| == 1 && t2.formats[id][0].mime == MIME_TEXT && t2.formats[id][0].size == |text|
            && t2.groups == t.groups && t2.buffers == t.buffers && t2.bound == t.bound
  {
    hide Sha256.Digest, BlobName, AsBlob;
  }

  /** The transaction goes through; a failing look-up for duplicates leaves them to the unique column. */
  predicate TextGoes(t: Tables, files: map<bytes, bytes>, id: nat, text: bytes, h: bytes, faults: set<Fault>) {
    && Prepare(0) !in faults && !OthersHave(t.clips, h, id)
    && Prepare(1) !in faults && Prepare(2) !in faults && Statement(2) !in faults
    && FormatsGo(files, [TextFormat(text)], faults) && Prepare(3) !in faults && Statement(3) !in faults
  }

  method SetTextTx(db: Db, id: nat, text: bytes, h: bytes, plain: Option<bytes>, faults: set<Fault>, ghost u: iset<bytes>)
    returns (r: EditResult)
    requires NoCollision(u) && FilesOk(db.files, u) && Given([TextFormat(text)], u)
    requires id in db.t.clips && db.t.formats.Keys == db.t.clips.Keys
    modifies db`t, db`files, db`temps
    ensures FilesOk(db.files, u) && Grown(old(db.files), db.files)
    ensures db.files == old(db.files) || PutSome(old(db.files), [TextFormat(text)], db.files)
    ensures r.Edited? || r.Duplicate? || r.DatabaseError?
    ensures r.Edited? <==> TextGoes(old(db.t), old(db.files), id, text, h, faults)
    ensures r.Edited? ==> db.files == PutAll(old(db.files), [TextFormat(text)]) && Stored([TextFormat(text)], db.files)
    ensures r.Edited? ==> db.t == TextTables(old(db.t), id, h, text, plain)
    ensures r.Duplicate? ==> OthersHave(old(db.t).clips, h, id)
    ensures NoFault(faults) ==> !r.DatabaseError?
  {
    hide *;
    GrownSelf(db.files);
    FaultsNone(faults);
    FaultKinds(faults);
    TextGoesIs(db.t, db.files, id, text, h, faults);
    if Prepare(0) in faults {
      return DatabaseError;
    }
    if Query !in faults && OthersHave(db.t.clips, h, id) {
      return Duplicate;
    }
    if Prepare(1) in faults || Prepare(2) in faults || Statement(2) in faults {
      return DatabaseError;
    }
    ghost var was := db.t;
    db.t := db.t.(formats := db.t.formats[id := []]);
    if NoFault(faults) {
      GoesUnlessFault(db.files, [TextFormat(text)], faults);
      OneIsDistinct(text);
    }
    var ok := InsertFormats(db, id, [TextFormat(text)], faults, u);
    if !ok || Prepare(3) in faults || Statement(3) in faults || OthersHave(db.t.clips, h, id) {
      return DatabaseError;
    }
    db.t := db.t.(clips := db.t.clips[id := Rewritten(db.t.clips[id], h, text, plain)]);
    TextTablesAre(was, db.t, id, h, text, plain);
    return Edited;
  }

  lemma TextGoesIs(t: Tables, files: map<bytes, bytes>, id: nat, text: bytes, h: bytes, faults: set<Fault>)
    ensures TextGoes(t, files, id, text, h, faults) <==>
              && Prepare(0) !in faults && !OthersHave(t.clips, h, id)
              && Prepare(1) !in faults && Prepare(2) !in faults && Statement(2) !in faults
              && FormatsGo(files, [TextFormat(text)], faults) && Prepare(3) !in faults && Statement(3) !in faults
  {
    hide OthersHave, FormatsGo, TextFormat;
  }

  lemma TextTablesAre(was: Tables, t: Tables, id: nat, h: bytes, text: bytes, plain: Option<bytes>)
    requires id in was.clips && id in was.formats
    requires t == was.(clips := was.clips[id := Rewritten(was.clips[id], h, text, plain)],
                       formats := was.formats[id := []][id := RowsFor([TextFormat(text)])])
    ensures t == TextTables(was, id, h, text, plain)
  {
    hide Rewritten, RowsFor;
    assert was.formats[id := []][id := RowsFor([TextFormat(text)])] == was.formats[id := RowsFor([TextFormat(text)])];
  }

  lemma OneIsDistinct(text: bytes)
    ensures Distinct([TextFormat(text)])
  {
  }

  lemma FaultKinds(faults: set<Fault>)
    ensures NoFault(faults) ==> forall f: Fault :: f in faults ==> !f.Prepare? && !f.Write? && !f.Insert?
  {
  }

  /** Some other clip holds just this text. */
  ghost predicate OthersHold(t: Tables, files: map<bytes, bytes>, text: bytes, id: nat) {
    exists k :: k in Contents(t, files) && k != id && Pairs(Contents(t, files)[k]) == {TextFormat(text)}
  }

  /** The content hash the clip gets. */
  function TextHash(text: bytes): bytes
    requires Qsorted([TextFormat(text)], [0])
  {
    Sha256.Digest(RecordsOf([TextFormat(text)], [0]))
  }

  /** Whether this edit would take a file that another clip still uses. */
  ghost predicate SetTextHarms(t: Tables, files: map<bytes, bytes>, id: nat, text: bytes, faults: set<Fault>)
    requires Qsorted([TextFormat(text)], [0])
  {
    && SetTextWorks(t, files, id, text, faults) && id in t.clips && id in t.formats
    && Lost(TextTables(t, id, TextHash(text), text, None), BlobsOf(t.formats[id]), faults) != {}
  }

  ghost predicate SetTextWorks(t: Tables, files: map<bytes, bytes>, id: nat, text: bytes, faults: set<Fault>)
    requires Qsorted([TextFormat(text)], [0])
  {
    && id in t.clips && Exists !in faults && text != [] && Utf8.IsUtf8(text)
    && Begin !in faults && Commit !in faults && TextGoes(t, files, id, text, TextHash(text), faults)
  }

  /** The formats become the one text; the clip's other columns stay. */
  method SetText(db: Db, id: nat, text: bytes, plain: Option<bytes>, faults: set<Fault>, ghost u: iset<bytes>) returns (r: EditResult)
    requires Valid(db, u) && Given([TextFormat(text)], u)
    requires Qsorted([TextFormat(text)], [0]) && RecordsOf([TextFormat(text)], [0]) in u
    modifies db`t, db`files, db`temps
    ensures Valid(db, u) <==> !SetTextHarms(old(db.t), old(db.files), id, text, faults)
    ensures Valid(db, u) <==> AllThere(db.t, db.files)
    ensures r.Edited? <==> SetTextWorks(old(db.t), old(db.files), id, text, faults)
    ensures r.Edited? ==>
              && id in old(db.t).clips && text != [] && Utf8.IsUtf8(text) && !old(OthersHold(db.t, db.files, text, id))
              && db.t == TextTables(old(db.t), id, TextHash(text), text, plain)
              && db.files == PutAll(old(db.files), [TextFormat(text)]) - Unlinked(db.t, BlobsOf(old(db.t).formats[id]), faults)
              && (Valid(db, u) ==> Contents(db.t, db.files) == old(Contents(db.t, db.files))[id := [TextFormat(text)]])
    ensures !r.Edited? ==> db.t == old(db.t) && Contents(db.t, db.files) == old(Contents(db.t, db.files))
    ensures r.NoSuchClip? <==> id !in old(db.t).clips || Exists in faults
    ensures r.EmptyText? <==> id in old(db.t).clips && Exists !in faults && text == []
    ensures r.NotUtf8? <==> id in old(db.t).clips && Exists !in faults && text != [] && !Utf8.IsUtf8(text)
    ensures r.Duplicate? ==> old(OthersHold(db.t, db.files, text, id))
    ensures NoFault(faults) ==> !r.DatabaseError?
  {
    hide *;
    ValidParts(db, u);
    SetTextIs(db.t, db.files, id, text, plain, faults);
    SoundIsThere(db.t, db.files, u);
    if id !in db.t.clips || Exists in faults {
      return NoSuchClip;
    }
    if text == [] {
      return EmptyText;
    }
    var good := Utf8.Valid(text);
    if !good {
      return NotUtf8;
    }
    FaultsNone(faults);
    if Begin in faults {
      return DatabaseError;
    }
    var saved := db.t;
    ghost var files := db.files;
    var h := TextHash(text);
    var blobs := BlobsOf(db.t.formats[id]);
    TextGoesIs(db.t, db.files, id, text, h, faults);
    r := SetTextTx(db, id, text, h, plain, faults, u);
    AfterSetText(saved, files, db.files, id, text, plain, r, u);
    if r.Edited? && Commit in faults {
      r := DatabaseError;
    }
    if !r.Edited? {
      db.t := saved;
      SoundIsThere(db.t, db.files, u);
      PartsValid(db, u);
      return;
    }
    SpareIff(db.t, db.files, blobs, faults, u);
    UnlinkUnused(db, blobs, faults);
    ValidIff(db, u);
  }

  lemma SetTextIs(t: Tables, files: map<bytes, bytes>, id: nat, text: bytes, plain: Option<bytes>, faults: set<Fault>)
    requires Qsorted([TextFormat(text)], [0])
    ensures TextHash(text) == Sha256.Digest(RecordsOf([TextFormat(text)], [0]))
    ensures SetTextWorks(t, files, id, text, faults) <==>
              && id in t.clips && Exists !in faults && text != [] && Utf8.IsUtf8(text)
              && Begin !in faults && Commit !in faults && TextGoes(t, files, id, text, TextHash(text), faults)
    ensures SetTextHarms(t, files, id, text, faults) <==>
              && SetTextWorks(t, files, id, text, faults) && id in t.clips && id in t.formats
              && Lost(TextTables(t, id, TextHash(text), text, plain), BlobsOf(t.formats[id]), faults) != {}
  {
    hide Sha256.Digest, RecordsOf, Qsorted, Utf8.IsUtf8, TextGoes, BlobsOf, TextFormat, RowsFor, RefIn;
    if id in t.clips {
      SameLost(TextTables(t, id, TextHash(text), text, None), TextTables(t, id, TextHash(text), text, plain),
               if id in t.formats then BlobsOf(t.formats[id]) else {}, faults);
    }
  }

  /** What is lost depends on the format rows alone. */
  lemma SameLost(t: Tables, t2: Tables, names: set<bytes>, faults: set<Fault>)
    requires t.formats == t2.formats
    ensures Lost(t, names, faults) == Lost(t2, names, faults)
  {
    hide RefIn;
  }

  lemma AfterSetText(t: Tables, files: map<bytes, bytes>, files2: map<bytes, bytes>, id: nat, text: bytes, plain: Option<bytes>,
                     r: EditResult, u: iset<bytes>)
    requires NoCollision(u) && PayloadsOk(t, files, u) && KeysOk(t.clips) && RefsOk(t) && Grown(files, files2)
    requires id in t.clips && Given([TextFormat(text)], u)
    requires Qsorted([TextFormat(text)], [0]) && RecordsOf([TextFormat(text)], [0]) in u
    requires var h := TextHash(text);
             && (r.Edited? ==> !OthersHave(t.clips, h, id) && Stored([TextFormat(text)], files2))
             && (r.Duplicate? ==> OthersHave(t.clips, h, id))
    ensures PayloadsOk(t, files2, u) && Contents(t, files2) == Contents(t, files)
    ensures r.Edited? ==>
              var t2 := TextTables(t, id, TextHash(text), text, plain);
              && PayloadsOk(t2, files2, u) && KeysOk(t2.clips) && RefsOk(t2) && !OthersHold(t, files, text, id)
              && Contents(t2, files2) == Contents(t, files)[id := [TextFormat(text)]]
    ensures r.Duplicate? ==> OthersHold(t, files, text, id)
  {
    hide *;
    var fs := [TextFormat(text)];
    var h := TextHash(text);
    TextHashIs(text);
    GrownSameRefs(t, files, files2);
    PayloadsKept(t, files, files2, u);
    OneIsDistinct(text);
    OthersIff(t, files, id, text, u);
    if r.Edited? {
      ClipStored(fs, [0], files2, u);
      RewriteKeeps(t, files2, id, h, text, plain, u);
    }
  }

  lemma TextHashIs(text: bytes)
    requires Qsorted([TextFormat(text)], [0])
    ensures TextHash(text) == Sha256.Digest(RecordsOf([TextFormat(text)], [0]))
  {
  }

  lemma OthersIff(t: Tables, files: map<bytes, bytes>, id: nat, text: bytes, u: iset<bytes>)
    requires NoCollision(u) && PayloadsOk(t, files, u)
    requires Given([TextFormat(text)], u) && Qsorted([TextFormat(text)], [0]) && RecordsOf([TextFormat(text)], [0]) in u
    ensures OthersHave(t.clips, Sha256.Digest(RecordsOf([TextFormat(text)], [0])), id) <==> OthersHold(t, files, text, id)
  {
    hide Sha256.Digest, Qsorted, RecordsOf, NoCollision, Given, Pairs, Distinct, ClipOk, Loads;
    var fs := [TextFormat(text)];
    OneIsDistinct(text);
    assert Pairs(fs) == {TextFormat(text)} by { PairsOfOne(TextFormat(text)); }
    forall k | k in t.clips
      ensures k in Contents(t, files)
      ensures t.clips[k].hash == Sha256.Digest(RecordsOf(fs, [0])) <==> Pairs(fs) == Pairs(Contents(t, files)[k])
    {
      ClipTells(t, files, k, fs, [0], u);
    }
  }

  lemma PairsOfOne(f: Format)
    ensures Pairs([f]) == {f}
  {
  }

  lemma RewriteKeeps(t: Tables, files: map<bytes, bytes>, id: nat, h: bytes, text: bytes, plain: Option<bytes>, u: iset<bytes>)
    requires PayloadsOk(t, files, u) && KeysOk(t.clips) && RefsOk(t) && id in t.clips && !OthersHave(t.clips, h, id)
    requires ClipOk(h, RowsFor([TextFormat(text)]), files, u) && Loads(RowsFor([TextFormat(text)]), files) == [TextFormat(text)]
    ensures var t2 := TextTables(t, id, h, text, plain);
            && PayloadsOk(t2, files, u) && KeysOk(t2.clips) && RefsOk(t2)
            && Contents(t2, files) == Contents(t, files)[id := [TextFormat(text)]]
  {
    hide ClipOk, RowsFor, Loads, TextFormat, KeysOk, RefsOk, Contents;
    RewriteKeepsKeys(t, id, h, text, plain);
    ClipPut(t, TextTables(t, id, h, text, plain), files, id, h, RowsFor([TextFormat(text)]), u);
  }

  lemma RewriteKeepsKeys(t: Tables, id: nat, h: bytes, text: bytes, plain: Option<bytes>)
    requires KeysOk(t.clips) && RefsOk(t) && id in t.clips && !OthersHave(t.clips, h, id)
    ensures var t2 := TextTables(t, id, h, text, plain); KeysOk(t2.clips) && RefsOk(t2)
  {
    hide RowsFor, TextFormat;
  }

  // ---- how a shared file is lost ------------------------------------------------------------

  /** image/png and image/gif */
  const PNG: bytes := [105, 109, 97, 103, 101, 47, 112, 110, 103]
  const GIF: bytes := [105, 109, 97, 103, 101, 47, 103, 105, 102]

  function PictureClip(n: nat, h: bytes): Clip {
    Clip([n % 256], h, 1, 0, 0, 0, None, None, None, None, None, false, None)
  }

  /** Two clips that hold the same one-byte picture under two mimes share its file. */
  function Shared(h1: bytes, h2: bytes): Tables {
    Tables(map[1 := PictureClip(1, h1), 2 := PictureClip(2, h2)],
           map[1 := RowsFor([Format(PNG, [7])]), 2 := RowsFor([Format(GIF, [7])])], map[], map[], {})
  }

  function SharedFiles(): map<bytes, bytes> { map[NameOf([7]) := [7]] }

  lemma PictureFacts(u: iset<bytes>)
    requires [7] in u
    ensures Given([Format(PNG, [7])], u) && Given([Format(GIF, [7])], u)
    ensures Distinct([Format(PNG, [7])]) && Distinct([Format(GIF, [7])])
    ensures Stored([Format(PNG, [7])], SharedFiles()) && Stored([Format(GIF, [7])], SharedFiles())
    ensures Qsorted([Format(PNG, [7])], [0]) && Qsorted([Format(GIF, [7])], [0])
    ensures FilesOk(SharedFiles(), u)
  {
    hide Sha256.Digest, BlobName;
  }

  lemma PictureRow(mime: bytes)
    requires IsImage(mime)
    ensures BlobsOf(RowsFor([Format(mime, [7])])) == {NameOf([7])} && RefIn(RowsFor([Format(mime, [7])]), NameOf([7]))
  {
    hide Sha256.Digest, BlobName;
    var rows := RowsFor([Format(mime, [7])]);
    assert rows[0].blob == Some(NameOf([7]));
  }

  function PictureHash(mime: bytes): bytes
    requires Qsorted([Format(mime, [7])], [0])
  {
    Sha256.Digest(RecordsOf([Format(mime, [7])], [0]))
  }

  /**
   * Deleting the first of them while the query for references fails leaves the
   * second without its file.
   */
  lemma SharedFileIsLost(u: iset<bytes>)
    requires NoCollision(u) && [7] in u
    requires Qsorted([Format(PNG, [7])], [0]) && RecordsOf([Format(PNG, [7])], [0]) in u
    requires Qsorted([Format(GIF, [7])], [0]) && RecordsOf([Format(GIF, [7])], [0]) in u
    ensures var t := Shared(PictureHash(PNG), PictureHash(GIF));
            && FilesOk(SharedFiles(), u) && PayloadsOk(t, SharedFiles(), u) && KeysOk(t.clips) && RefsOk(t)
            && DeleteHarms(t, 1, {Ask(NameOf([7]))})
            && var t2 := WithoutClips(t, {1});
               !PayloadsOk(t2, SharedFiles() - Unlinked(t2, BlobsOf(t.formats[1]), {Ask(NameOf([7]))}), u)
  {
    hide *;
    var (h1, h2) := (PictureHash(PNG), PictureHash(GIF));
    var t := Shared(h1, h2);
    var faults := {Ask(NameOf([7]))};
    PictureFacts(u);
    HashesDiffer(u);
    SharedIsSound(h1, h2, u);
    SharedShape(h1, h2);
    DeleteIs(t, SharedFiles(), {1}, u);
    PictureRow(PNG);
    PictureRow(GIF);
    var t2 := WithoutClips(t, {1});
    LostOne(t, t2, NameOf([7]));
    DeleteHarmIs(t, 1, faults);
    SpareIff(t2, SharedFiles(), BlobsOf(t.formats[1]), faults, u);
  }

  lemma HashesDiffer(u: iset<bytes>)
    requires NoCollision(u)
    requires Qsorted([Format(PNG, [7])], [0]) && RecordsOf([Format(PNG, [7])], [0]) in u
    requires Qsorted([Format(GIF, [7])], [0]) && RecordsOf([Format(GIF, [7])], [0]) in u
    ensures PictureHash(PNG) != PictureHash(GIF) && IsImage(PNG) && IsImage(GIF)
  {
    hide Sha256.Digest, Serialised, NoCollision;
    var (fs, gs) := (Arrange([Format(PNG, [7])], [0]), Arrange([Format(GIF, [7])], [0]));
    assert fs != gs by {
      assert PNG[6] != GIF[6];
      assert fs[0].mime != gs[0].mime;
    }
    OtherRecords(fs, gs);
    ToldApart(u, Serialised(fs), Serialised(gs));
  }

  lemma OtherRecords(fs: seq<Format>, gs: seq<Format>)
    requires forall f :: f in fs || f in gs ==> 0 !in f.mime && |f.data| < Sha256.TWO64
    requires fs != gs
    ensures Serialised(fs) != Serialised(gs)
  {
    hide Serialised;
    if Serialised(fs) == Serialised(gs) {
      SerialisedIsInjective(fs, gs);
    }
  }

  lemma ToldApart(u: iset<bytes>, x: bytes, y: bytes)
    requires NoCollision(u) && x in u && y in u && x != y
    ensures Sha256.Digest(x) != Sha256.Digest(y)
  {
    hide Sha256.Digest;
  }

  lemma SharedIsSound(h1: bytes, h2: bytes, u: iset<bytes>)
    requires NoCollision(u) && [7] in u && h1 != h2
    requires Qsorted([Format(PNG, [7])], [0]) && RecordsOf([Format(PNG, [7])], [0]) in u && h1 == PictureHash(PNG)
    requires Qsorted([Format(GIF, [7])], [0]) && RecordsOf([Format(GIF, [7])], [0]) in u && h2 == PictureHash(GIF)
    ensures var t := Shared(h1, h2); PayloadsOk(t, SharedFiles(), u) && KeysOk(t.clips) && RefsOk(t)
  {
    hide Sha256.Digest, RecordsOf, Qsorted, NoCollision, Given, Distinct, Stored, RowsFor, Loads, RowsOk, Identity, SharedFiles;
    PictureFacts(u);
    ClipStored([Format(PNG, [7])], [0], SharedFiles(), u);
    ClipStored([Format(GIF, [7])], [0], SharedFiles(), u);
  }

  lemma SharedShape(h1: bytes, h2: bytes)
    ensures var t := Shared(h1, h2);
            && 1 in t.clips && 1 in t.formats && t.formats[1] == RowsFor([Format(PNG, [7])])
            && 2 in WithoutClips(t, {1}).formats && WithoutClips(t, {1}).formats[2] == RowsFor([Format(GIF, [7])])
    ensures forall n: bytes :: DeleteWorks({Ask(n)})
  {
    hide RowsFor, PictureClip;
  }

  lemma LostOne(t: Tables, t2: Tables, n: bytes)
    requires 1 in t.formats && BlobsOf(t.formats[1]) == {n} && 2 in t2.formats && RefIn(t2.formats[2], n)
    ensures Lost(t2, BlobsOf(t.formats[1]), {Ask(n)}) != {}
  {
    hide RefIn, BlobsOf;
    assert Referenced(t2, n);
    assert n in Lost(t2, {n}, {Ask(n)});
  }
}
