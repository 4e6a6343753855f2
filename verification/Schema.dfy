/**
 * The tables of the clip store (daemon/src/schema.c) and the blob directory
 * beside them. A format row belongs to one clip and stands at its ord.
 */
module Schema {
  import opened Bytes

  datatype Clip = Clip(
    uuid: bytes, hash: bytes, size: nat, created: int, used: int, pastes: nat,
    app: Option<bytes>, title: Option<bytes>, plain: Option<bytes>,
    group: Option<nat>, sticky: Option<real>, locked: bool, quick: Option<bytes>)

  datatype FormatRow = FormatRow(mime: bytes, size: nat, hash: bytes, data: Option<bytes>, blob: Option<bytes>)

  datatype Group = Group(parent: Option<nat>, name: bytes)

  /** buffers: the copy buffers that hold a clip. bound: the clip uuids that hotkeys paste. */
  datatype Tables = Tables(
    clips: map<nat, Clip>, formats: map<nat, seq<FormatRow>>, groups: map<nat, Group>,
    buffers: map<nat, nat>, bound: set<bytes>)

  /** DELETE FROM clips, with its cascades: formats go too and buffers forget the clip. */
  function WithoutClips(t: Tables, ids: set<nat>): Tables {
    t.(clips := t.clips - ids, formats := t.formats - ids,
       buffers := map s | s in t.buffers && t.buffers[s] !in ids :: t.buffers[s])
  }

  /** The constraints: unique columns and foreign keys. */
  ghost predicate KeysOk(clips: map<nat, Clip>) {
    forall i, j :: i in clips && j in clips && i != j ==> Apart(clips[i], clips[j])
  }

  predicate Apart(c: Clip, d: Clip) {
    c.uuid != d.uuid && c.hash != d.hash && (c.quick.Some? ==> c.quick != d.quick)
  }

  ghost predicate RefsOk(t: Tables) {
    && (forall id :: id in t.clips ==> GroupIn(t.clips[id], t.groups))
    && (forall s :: s in t.buffers ==> t.buffers[s] in t.clips)
  }

  predicate GroupIn(c: Clip, groups: map<nat, Group>) { c.group.Some? ==> c.group.value in groups }

  lemma DeleteKeepsKeys(t: Tables, ids: set<nat>)
    requires KeysOk(t.clips) && RefsOk(t)
    ensures KeysOk(WithoutClips(t, ids).clips) && RefsOk(WithoutClips(t, ids))
  {
    hide Apart, GroupIn;
  }

  /** What SQLite gives a new row: one more than the largest id in use. */
  ghost predicate IsNext(used: set<nat>, id: nat) {
    && (forall k :: k in used ==> k < id)
    && (id == 1 || (id > 1 && id - 1 in used))
  }

  method NextRowid(used: set<nat>) returns (id: nat)
    requires 0 !in used
    ensures IsNext(used, id) && id !in used
  {
    id := 1;
    var left := used;
    while left != {}
      invariant left <= used && id >= 1
      invariant forall k :: k in used ==> k < id || k in left
      invariant id == 1 || id - 1 in used
    {
      var k :| k in left;
      if k >= id {
        id := k + 1;
      }
      left := left - {k};
    }
  }

  /** The database file, its log and the log's index, as they lie in the data directory. */
  const DB_FILE: bytes := [99, 108, 105, 112, 110, 101, 116, 46, 100, 98] // clipnet.db
  const WAL_FILE: bytes := DB_FILE + [45, 119, 97, 108] // -wal
  const SHM_FILE: bytes := DB_FILE + [45, 115, 104, 109] // -shm

  type digest = h: bytes | |h| == 32 witness seq(32, _ => 0)

  function NoTables(): Tables { Tables(map[], map[], map[], map[], {}) }

  class Db {
    var t: Tables
    var files: map<bytes, bytes>
    /** Blobs whose interrupted write left a temporary file. */
    var temps: set<digest>
    /** The files of the data directory itself, which holds the blob directory. */
    var beside: set<bytes>

    constructor ()
      ensures t == NoTables() && files == map[] && temps == {} && beside == {DB_FILE, WAL_FILE, SHM_FILE}
    {
      t := NoTables();
      files := map[];
      temps := {};
      beside := {DB_FILE, WAL_FILE, SHM_FILE};
    }
  }
}
