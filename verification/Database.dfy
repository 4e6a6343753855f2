/**
 * Runs of the whole clip store: captures, edits, deletes, group changes,
 * retention, garbage collection and reopening, in any order and with any faults.
 * Two kinds of fault break the invariants, and exactly those are named here; and
 * so is what unlinks the database file.
 */
module Database {
  import opened Bytes
  import opened Schema
  import ContentHash
  import Disk
  import Groups
  import Retention
  import Sha256
  import Store

  datatype Op =
    | Add(fs: seq<ContentHash.Format>, idx: seq<nat>, origin: Store.Origin, plain: Option<bytes>, now: int, faults: set<Store.Fault>)
    | Delete(id: nat, faults: set<Store.Fault>)
    | SetText(id: nat, text: bytes, plain: Option<bytes>, faults: set<Store.Fault>)
    | SetColumn(id: nat, col: Store.Column, faults: set<Store.Fault>)
    | SetSlot(slot: nat, id: nat, faults: set<Store.Fault>)
    | BindHotkeys(bound: set<bytes>)
    | Retain(now: int, settings: Retention.Settings, faults: set<Store.Fault>)
    | Collect(faults: set<Store.Fault>)
    | Reopen
    | CreateGroup(name: bytes, parent: nat, treeFaults: set<Groups.TreeFault>)
    | RenameGroup(id: nat, name: bytes, treeFaults: set<Groups.TreeFault>)
    | MoveGroup(id: nat, parent: nat, treeFaults: set<Groups.TreeFault>)
    | DeleteGroup(id: nat, cascade: bool, faults: set<Store.Fault>)
    | EnsurePath(path: bytes, pathFaults: set<(nat, Groups.TreeFault)>)

  datatype State = State(t: Tables, files: map<bytes, bytes>, beside: set<bytes>)

  type Clips = map<nat, seq<ContentHash.Format>>

  /** Inputs are C strings for mimes, qsort's order, and payloads SHA-256 tells apart. */
  ghost predicate Fair(op: Op, u: iset<bytes>) {
    match op
    case Add(fs, idx, _, _, _, _) =>
      Store.Given(fs, u) && ContentHash.Qsorted(fs, idx) && Store.RecordsOf(fs, idx) in u
    case SetText(_, text, _, _) =>
      var fs := [Store.TextFormat(text)];
      Store.Given(fs, u) && ContentHash.Qsorted(fs, [0]) && Store.RecordsOf(fs, [0]) in u
    case _ => true
  }

  /** Both invariants, of the clips and of the tree. */
  ghost predicate Sound(s: State, u: iset<bytes>) {
    && Store.NoCollision(u) && Store.FilesOk(s.files, u) && Store.PayloadsOk(s.t, s.files, u)
    && KeysOk(s.t.clips) && RefsOk(s.t) && Groups.GroupsOk(s.t.groups)
  }

  ghost function View(db: Db): State
    reads db`t, db`files, db`beside
  {
    State(db.t, db.files, db.beside)
  }

  ghost function Contents(s: State): Clips { Store.Contents(s.t, s.files) }

  /**
   * The operations that break an invariant, told from the state before them: a
   * used file unlinked because the query for references failed, or a cyclic move
   * let through because the subtree query failed.
   */
  ghost predicate Harms(op: Op, s: State) {
    match op
    case Delete(id, faults) => Store.DeleteHarms(s.t, id, faults)
    case SetText(id, text, _, faults) =>
      ContentHash.Qsorted([Store.TextFormat(text)], [0]) && Store.SetTextHarms(s.t, s.files, id, text, faults)
    case Retain(now, settings, faults) => Retention.RetainHarms(s.t, s.files, now, settings, faults)
    case Collect(faults) => Disk.CollectHarms(s.t, s.files, faults)
    case DeleteGroup(id, cascade, faults) => Groups.DeleteHarms(s.t, s.files, id, cascade, faults)
    case MoveGroup(id, parent, faults) => Groups.MoveHarms(s.t.groups, id, parent, faults)
    case _ => false
  }

  // ---- what a step does ---------------------------------------------------------------------

  /** The database file is where opening looks for it. */
  predicate Moored(s: State) { DB_FILE in s.beside }

  /** The operations that unlink it: each collection that is told of ".." and can. */
  predicate Unmoors(op: Op, s: State) {
    match op
    case Collect(faults) => Disk.SweepsDatabase(faults)
    case Retain(now, settings, faults) => Shrinks(op, s) && Disk.SweepsDatabase(faults)
    case DeleteGroup(id, cascade, faults) =>
      cascade && Groups.DeleteWorks(s.t.groups, id, cascade, faults) && Disk.SweepsDatabase(faults)
    case _ => false
  }

  /** A retention pass that goes through and removes something. */
  predicate Shrinks(op: Op, s: State)
    requires op.Retain?
  {
    && Retention.RetainWorks(op.settings, op.faults)
    && |Retention.After(s.t, op.now, op.settings).clips.Keys| < |s.t.clips.Keys|
  }

  ghost predicate Moors(op: Op, s: State, next: State) {
    Moored(next) <==> op.Reopen? || (Moored(s) && !Unmoors(op, s))
  }

  /** The clips that an operation takes out of the store. */
  ghost function Takes(op: Op, s: State): set<nat> {
    match op
    case Delete(id, faults) => if id in s.t.clips && Store.DeleteWorks(faults) then {id} else {}
    case Retain(now, settings, faults) =>
      if Retention.RetainWorks(settings, faults) then s.t.clips.Keys - Retention.After(s.t, now, settings).clips.Keys else {}
    case DeleteGroup(id, cascade, faults) =>
      if cascade && Groups.DeleteWorks(s.t.groups, id, cascade, faults)
      then Groups.ClipsIn(s.t.clips, Groups.Subtree(s.t.groups, id)) else {}
    case Reopen => if Moored(s) then {} else s.t.clips.Keys
    case _ => {}
  }

  /** Does the text of a clip become another? */
  ghost predicate Edits(op: Op, s: State)
    requires op.SetText?
  {
    ContentHash.Qsorted([Store.TextFormat(op.text)], [0]) && Store.SetTextWorks(s.t, s.files, op.id, op.text, op.faults)
  }

  /** The row a new clip gets. */
  ghost function RowOf(op: Op): Clip
    requires op.Add? && ContentHash.Qsorted(op.fs, op.idx)
  {
    Store.ClipFor(op.fs, Sha256.Digest(Store.RecordsOf(op.fs, op.idx)), op.origin, op.plain, op.now)
  }

  /**
   * A clip more, under the next id, with just these formats, unless some clip
   * holds them already, or the constraints or a fault are in the way.
   */
  ghost predicate Adds(op: Op, s: State, now: Clips)
    requires op.Add? && ContentHash.Qsorted(op.fs, op.idx)
  {
    var was := Contents(s);
    && (now == was || (!Store.Holds(s.t, s.files, op.fs) && exists id :: IsNext(s.t.clips.Keys, id) && id !in was && now == was[id := op.fs]))
    && (Store.NoFault(op.faults) && op.fs != [] && Store.Distinct(op.fs) ==>
          (now == was <==> Store.Holds(s.t, s.files, op.fs) || !Store.CanInsert(s.t, RowOf(op))))
  }

  /** Exactly what an operation does to what the store holds. */
  ghost predicate Effect(op: Op, s: State, now: Clips) {
    if op.Add? then ContentHash.Qsorted(op.fs, op.idx) && Adds(op, s, now)
    else if op.SetText? then
      now == if Edits(op, s) then Contents(s)[op.id := [Store.TextFormat(op.text)]] else Contents(s)
    else now == Contents(s) - Takes(op, s)
  }

  /** What an operation does to the tables, whether or not files are lost on the way. */
  ghost predicate Tabled(op: Op, s: State, next: Tables) {
    match op
    case Add(fs, idx, _, _, _, _) => ContentHash.Qsorted(fs, idx) && Stores(op, s, next)
    case Delete(id, faults) => next == if id in s.t.clips && Store.DeleteWorks(faults) then WithoutClips(s.t, {id}) else s.t
    case SetText(id, text, plain, _) =>
      next == if Edits(op, s) && id in s.t.clips then Store.TextTables(s.t, id, Store.TextHash(text), text, plain) else s.t
    case SetColumn(id, col, faults) =>
      next == if && id in s.t.clips && Store.Exists !in faults && Store.Statement(1) !in faults
                 && Store.CanUpdate(s.t, id, Store.With(s.t.clips[id], col))
              then s.t.(clips := s.t.clips[id := Store.With(s.t.clips[id], col)]) else s.t
    case SetSlot(slot, id, faults) =>
      next == if id in s.t.clips && Store.Statement(1) !in faults then s.t.(buffers := s.t.buffers[slot := id]) else s.t
    case BindHotkeys(bound) => next == s.t.(bound := bound)
    case Retain(now, settings, faults) => next == if Retention.RetainWorks(settings, faults) then Retention.After(s.t, now, settings) else s.t
    case Collect(_) => next == s.t
    case Reopen => next == if Moored(s) then s.t else NoTables()
    case DeleteGroup(id, cascade, faults) =>
      next == if Groups.DeleteWorks(s.t.groups, id, cascade, faults) then Groups.Pruned(s.t, id, cascade) else s.t
    case CreateGroup(name, parent, faults) =>
      next == s.t.(groups := next.groups) && Groups.Creates(s.t.groups, next.groups, name, parent, faults)
    case RenameGroup(id, name, faults) =>
      next == s.t.(groups := next.groups) && Groups.Renames(s.t.groups, next.groups, id, name, faults)
    case MoveGroup(id, parent, faults) =>
      next == s.t.(groups := next.groups) && Groups.Moves(s.t.groups, next.groups, id, parent, faults)
    case EnsurePath(path, faults) =>
      next == s.t.(groups := next.groups) && Groups.Paths(s.t.groups, next.groups, path, faults)
  }

  /** Nothing keeps the transaction as a whole from going through. */
  predicate Commits(op: Op)
    requires op.Add?
  {
    op.fs != [] && Store.Begin !in op.faults && Store.Commit !in op.faults
  }

  /**
   * A row more, or the row of the clip that holds these formats moved up, each
   * exactly when its statements go through; with nothing going wrong it is one of
   * them, unless the constraints refuse the row.
   */
  ghost predicate Stores(op: Op, s: State, next: Tables)
    requires op.Add? && ContentHash.Qsorted(op.fs, op.idx)
  {
    && (if Commits(op) && Store.Reuses(s.t.clips, Sha256.Digest(Store.RecordsOf(op.fs, op.idx)), op.faults) then MovedUp(op, s, next)
        else if Commits(op) && Store.Inserts(s.t, s.files, op.fs, RowOf(op), op.faults) then Grown(op, s, next)
        else next == s.t)
    && (Store.NoFault(op.faults) && op.fs != [] && Store.Distinct(op.fs) ==>
          if Store.Holds(s.t, s.files, op.fs) then MovedUp(op, s, next)
          else if Store.CanInsert(s.t, RowOf(op)) then Grown(op, s, next)
          else next == s.t)
  }

  ghost predicate MovedUp(op: Op, s: State, next: Tables)
    requires op.Add?
  {
    exists id :: id in s.t.clips && HeldBy(op.fs, s, id) && next == s.t.(clips := s.t.clips[id := Store.Reused(s.t.clips[id], op.origin, op.now)])
  }

  ghost predicate HeldBy(fs: seq<ContentHash.Format>, s: State, id: nat) {
    id in Contents(s) && ContentHash.Pairs(Contents(s)[id]) == ContentHash.Pairs(fs)
  }

  ghost predicate Grown(op: Op, s: State, next: Tables)
    requires op.Add? && ContentHash.Qsorted(op.fs, op.idx)
  {
    exists id :: IsNext(s.t.clips.Keys, id) && next == Store.Inserted(s.t, id, RowOf(op), Store.RowsFor(op.fs))
  }

  predicate TreeOp(op: Op) {
    op.CreateGroup? || op.RenameGroup? || op.MoveGroup? || op.DeleteGroup? || op.EnsurePath?
  }

  /** Only operations on the tree change it, and a reopening that finds no database. */
  ghost predicate Roots(op: Op, s: State, next: State) {
    TreeOp(op) || next.t.groups == if op.Reopen? && !Moored(s) then map[] else s.t.groups
  }

  /** What an integrity check can see: no row names a missing file and no group lies below itself. */
  ghost predicate Intact(s: State) { Store.AllThere(s.t, s.files) && Groups.Acyclic(s.t.groups) }

  lemma SoundIs(db: Db, u: iset<bytes>)
    ensures Sound(View(db), u) <==> Store.Valid(db, u) && Groups.GroupsOk(db.t.groups)
    ensures Intact(View(db)) <==> Store.AllThere(db.t, db.files) && Groups.Acyclic(db.t.groups)
    ensures Groups.GroupsOk(db.t.groups) ==> Groups.Acyclic(db.t.groups)
    ensures Store.Valid(db, u) ==> Store.AllThere(db.t, db.files)
  {
    hide Store.NoCollision, Store.FilesOk, Store.PayloadsOk, Store.AllThere, KeysOk, RefsOk, Groups.Acyclic, Groups.Closed,
         Groups.SiblingsDiffer, Groups.NamesOk;
    if Store.Valid(db, u) {
      Store.SoundIsThere(db.t, db.files, u);
    }
  }

  /** The operations no fault of which breaks an invariant. */
  predicate Harmless(op: Op) {
    op.Add? || op.SetColumn? || op.SetSlot? || op.BindHotkeys? || op.CreateGroup? || op.RenameGroup? || op.EnsurePath? || op.Reopen?
  }

  lemma HarmIs(op: Op, s: State)
    ensures op.Delete? ==> (Harms(op, s) <==> Store.DeleteHarms(s.t, op.id, op.faults))
    ensures op.Retain? ==> (Harms(op, s) <==> Retention.RetainHarms(s.t, s.files, op.now, op.settings, op.faults))
    ensures op.Collect? ==> (Harms(op, s) <==> Disk.CollectHarms(s.t, s.files, op.faults))
    ensures op.DeleteGroup? ==> (Harms(op, s) <==> Groups.DeleteHarms(s.t, s.files, op.id, op.cascade, op.faults))
    ensures op.MoveGroup? ==> (Harms(op, s) <==> Groups.MoveHarms(s.t.groups, op.id, op.parent, op.treeFaults))
    ensures op.SetText? && ContentHash.Qsorted([Store.TextFormat(op.text)], [0]) ==>
              (Harms(op, s) <==> Store.SetTextHarms(s.t, s.files, op.id, op.text, op.faults))
    ensures Harmless(op) ==> !Harms(op, s)
  {
    hide Store.DeleteHarms, Retention.RetainHarms, Disk.CollectHarms, Groups.DeleteHarms, Groups.MoveHarms, Store.SetTextHarms,
         ContentHash.Qsorted;
  }

  lemma FairIs(op: Op, u: iset<bytes>)
    requires Fair(op, u)
    ensures op.Add? ==>
              Store.Given(op.fs, u) && ContentHash.Qsorted(op.fs, op.idx) && Store.RecordsOf(op.fs, op.idx) in u
    ensures op.SetText? ==>
              var fs := [Store.TextFormat(op.text)];
              Store.Given(fs, u) && ContentHash.Qsorted(fs, [0]) && Store.RecordsOf(fs, [0]) in u
  {
    hide Store.Given, ContentHash.Qsorted, Store.RecordsOf;
  }

  lemma ViewIs(db: Db)
    ensures View(db) == State(db.t, db.files, db.beside) && Contents(View(db)) == Store.Contents(db.t, db.files)
  {
    hide Store.Contents;
  }

  lemma EffectIs(op: Op, s: State, now: Clips)
    ensures op.Add? ==> (Effect(op, s, now) <==> ContentHash.Qsorted(op.fs, op.idx) && Adds(op, s, now))
    ensures op.SetText? ==>
              (Effect(op, s, now) <==>
                 now == if Edits(op, s) then Contents(s)[op.id := [Store.TextFormat(op.text)]] else Contents(s))
    ensures !op.Add? && !op.SetText? ==> (Effect(op, s, now) <==> now == Contents(s) - Takes(op, s))
    ensures (Harmless(op) && !op.Add? && !op.Reopen?) || op.Collect? || op.MoveGroup? ==> Takes(op, s) == {} && !op.SetText?
    ensures forall c: Clips :: c - {} == c
  {
    hide Adds, Edits, Contents, ContentHash.Qsorted;
  }

  lemma MooringIs(op: Op, s: State, next: State)
    ensures (Moored(s) <==> DB_FILE in s.beside) && (Moored(next) <==> DB_FILE in next.beside)
    ensures !op.Reopen? && !op.Collect? && !op.Retain? && !op.DeleteGroup? && next.beside == s.beside ==> Moors(op, s, next)
    ensures op.Collect? ==> (Unmoors(op, s) <==> Disk.SweepsDatabase(op.faults))
    ensures op.Retain? ==> (Unmoors(op, s) <==> Shrinks(op, s) && Disk.SweepsDatabase(op.faults))
    ensures op.DeleteGroup? ==>
              (Unmoors(op, s) <==> op.cascade && Groups.DeleteWorks(s.t.groups, op.id, op.cascade, op.faults)
                                   && Disk.SweepsDatabase(op.faults))
    ensures Moors(op, s, next) <==> (Moored(next) <==> op.Reopen? || (Moored(s) && !Unmoors(op, s)))
    ensures Roots(op, s, next) <==>
              TreeOp(op) || next.t.groups == if op.Reopen? && !Moored(s) then map[] else s.t.groups
    ensures TreeOp(op) <==> op.CreateGroup? || op.RenameGroup? || op.MoveGroup? || op.DeleteGroup? || op.EnsurePath?
  {
    hide Disk.SweepsDatabase, Shrinks, Groups.DeleteWorks;
  }

  lemma TabledIs(op: Op, s: State, next: Tables)
    ensures op.Add? ==> (Tabled(op, s, next) <==> ContentHash.Qsorted(op.fs, op.idx) && Stores(op, s, next))
    ensures op.Delete? ==>
              (Tabled(op, s, next) <==>
                 next == if op.id in s.t.clips && Store.DeleteWorks(op.faults) then WithoutClips(s.t, {op.id}) else s.t)
    ensures op.SetText? ==>
              (Tabled(op, s, next) <==>
                 next == if Edits(op, s) && op.id in s.t.clips
                         then Store.TextTables(s.t, op.id, Store.TextHash(op.text), op.text, op.plain) else s.t)
    ensures op.SetColumn? ==>
              (Tabled(op, s, next) <==>
                 next == if && op.id in s.t.clips && Store.Exists !in op.faults && Store.Statement(1) !in op.faults
                            && Store.CanUpdate(s.t, op.id, Store.With(s.t.clips[op.id], op.col))
                         then s.t.(clips := s.t.clips[op.id := Store.With(s.t.clips[op.id], op.col)]) else s.t)
    ensures op.SetSlot? ==>
              (Tabled(op, s, next) <==>
                 next == if op.id in s.t.clips && Store.Statement(1) !in op.faults
                         then s.t.(buffers := s.t.buffers[op.slot := op.id]) else s.t)
    ensures op.BindHotkeys? ==> (Tabled(op, s, next) <==> next == s.t.(bound := op.bound))
    ensures op.Retain? ==>
              (Tabled(op, s, next) <==>
                 next == if Retention.RetainWorks(op.settings, op.faults) then Retention.After(s.t, op.now, op.settings) else s.t)
    ensures op.Collect? ==> (Tabled(op, s, next) <==> next == s.t)
    ensures op.Reopen? ==> (Tabled(op, s, next) <==> next == if DB_FILE in s.beside then s.t else NoTables())
    ensures op.DeleteGroup? ==>
              (Tabled(op, s, next) <==>
                 next == if Groups.DeleteWorks(s.t.groups, op.id, op.cascade, op.faults)
                         then Groups.Pruned(s.t, op.id, op.cascade) else s.t)
  {
    hide Stores, ContentHash.Qsorted, Store.DeleteWorks, WithoutClips, Store.TextTables, Store.TextHash, Edits, Store.CanUpdate,
         Store.With, Retention.RetainWorks, Retention.After, NoTables, Groups.DeleteWorks, Groups.Pruned, Groups.Paths,
         Groups.Creates, Groups.Renames, Groups.Moves;
  }

  lemma TreeIs(op: Op, s: State, next: Tables)
    requires next == s.t.(groups := next.groups)
    ensures op.CreateGroup? ==>
              (Tabled(op, s, next) <==> Groups.Creates(s.t.groups, next.groups, op.name, op.parent, op.treeFaults))
    ensures op.RenameGroup? ==>
              (Tabled(op, s, next) <==> Groups.Renames(s.t.groups, next.groups, op.id, op.name, op.treeFaults))
    ensures op.MoveGroup? ==>
              (Tabled(op, s, next) <==> Groups.Moves(s.t.groups, next.groups, op.id, op.parent, op.treeFaults))
    ensures op.EnsurePath? ==>
              (Tabled(op, s, next) <==> Groups.Paths(s.t.groups, next.groups, op.path, op.pathFaults))
  {
    hide Groups.Paths, Groups.Creates, Groups.Renames, Groups.Moves;
  }

  method AddClip(db: Db, op: Op, ghost u: iset<bytes>)
    requires Sound(View(db), u) && Fair(op, u) && op.Add?
    modifies db
    ensures Sound(View(db), u) && Intact(View(db)) && Effect(op, old(View(db)), Contents(View(db)))
    ensures Moors(op, old(View(db)), View(db)) && Roots(op, old(View(db)), View(db))
    ensures Tabled(op, old(View(db)), db.t)
  {
    hide *;
    SoundIs(db, u);
    ViewIs(db);
    FairIs(op, u);
    ghost var (s, t, was) := (View(db), db.t, Contents(View(db)));
    var r := Store.Add(db, op.fs, op.idx, op.origin, op.plain, op.now, op.faults, u);
    SoundIs(db, u);
    ViewIs(db);
    MooringIs(op, s, View(db));
    EffectIs(op, s, Contents(View(db)));
    RowIs(op);
    if r.New? {
      InsertedGroups(t, r.id, RowOf(op), Store.RowsFor(op.fs));
    }
    AddIs(op, s, Contents(View(db)), r);
    CommitsIs(op);
    AddRows(op, s, db.t, r);
    TabledIs(op, s, db.t);
  }

  lemma RowIs(op: Op)
    requires op.Add? && ContentHash.Qsorted(op.fs, op.idx)
    ensures RowOf(op) == Store.ClipFor(op.fs, Sha256.Digest(Store.RecordsOf(op.fs, op.idx)), op.origin, op.plain, op.now)
  {
    hide ContentHash.Qsorted, Store.ClipFor, Sha256.Digest, Store.RecordsOf;
  }

  lemma AddIs(op: Op, s: State, now: Clips, r: Store.AddResult)
    requires op.Add? && ContentHash.Qsorted(op.fs, op.idx)
    requires r.New? ==>
               && r.id !in Contents(s) && now == Contents(s)[r.id := op.fs] && IsNext(s.t.clips.Keys, r.id)
               && !Store.Holds(s.t, s.files, op.fs)
    requires !r.New? ==> now == Contents(s)
    requires Store.NoFault(op.faults) && op.fs != [] && Store.Distinct(op.fs) ==>
               (r.Dup? <==> Store.Holds(s.t, s.files, op.fs))
    requires Store.NoFault(op.faults) && op.fs != [] && Store.Distinct(op.fs) && !Store.Holds(s.t, s.files, op.fs) ==>
               (r.New? <==> Store.CanInsert(s.t, RowOf(op)))
    ensures Adds(op, s, now)
  {
    hide Contents, ContentHash.Qsorted, IsNext, Store.Holds, Store.NoFault, Store.Distinct, Store.CanInsert, RowOf;
  }

  lemma CommitsIs(op: Op)
    requires op.Add?
    ensures Commits(op) <==> op.fs != [] && Store.Begin !in op.faults && Store.Commit !in op.faults
  {
  }

  lemma AddRows(op: Op, s: State, next: Tables, r: Store.AddResult)
    requires op.Add? && ContentHash.Qsorted(op.fs, op.idx)
    requires r.Dup? <==> Commits(op) && Store.Reuses(s.t.clips, Sha256.Digest(Store.RecordsOf(op.fs, op.idx)), op.faults)
    requires r.New? <==> Commits(op) && Store.Inserts(s.t, s.files, op.fs, RowOf(op), op.faults)
    requires r.Failed? ==> next == s.t
    requires r.Dup? ==>
               && r.id in s.t.clips && r.id in Contents(s) && ContentHash.Pairs(Contents(s)[r.id]) == ContentHash.Pairs(op.fs)
               && next == s.t.(clips := s.t.clips[r.id := Store.Reused(s.t.clips[r.id], op.origin, op.now)])
    requires r.New? ==> IsNext(s.t.clips.Keys, r.id) && next == Store.Inserted(s.t, r.id, RowOf(op), Store.RowsFor(op.fs))
    requires Store.NoFault(op.faults) && op.fs != [] && Store.Distinct(op.fs) ==>
               (r.Dup? <==> Store.Holds(s.t, s.files, op.fs))
    requires Store.NoFault(op.faults) && op.fs != [] && Store.Distinct(op.fs) && !Store.Holds(s.t, s.files, op.fs) ==>
               (r.New? <==> Store.CanInsert(s.t, RowOf(op)))
    ensures Stores(op, s, next)
  {
    hide Contents, ContentHash.Qsorted, ContentHash.Pairs, IsNext, Store.Holds, Store.NoFault, Store.Distinct, Store.CanInsert, RowOf,
         Store.Reused, Store.Inserted, Store.RowsFor, Store.Reuses, Store.Inserts, Store.RecordsOf, Sha256.Digest;
    if r.Dup? { assert HeldBy(op.fs, s, r.id); }
  }

  lemma InsertedGroups(t: Tables, id: nat, c: Clip, rows: seq<FormatRow>)
    ensures Store.Inserted(t, id, c, rows).groups == t.groups
  {
  }

  method DeleteClip(db: Db, op: Op, ghost u: iset<bytes>)
    requires Sound(View(db), u) && op.Delete?
    modifies db
    ensures Sound(View(db), u) <==> !Harms(op, old(View(db)))
    ensures Sound(View(db), u) <==> Intact(View(db))
    ensures Sound(View(db), u) ==> Effect(op, old(View(db)), Contents(View(db)))
    ensures Moors(op, old(View(db)), View(db)) && Roots(op, old(View(db)), View(db))
    ensures Tabled(op, old(View(db)), db.t)
  {
    hide *;
    SoundIs(db, u);
    ViewIs(db);
    HarmIs(op, View(db));
    ghost var s := View(db);
    TakesIs(op, s);
    Groups.GroupsStay(db.t, {op.id});
    var r := Store.Delete(db, op.id, op.faults, u);
    SoundIs(db, u);
    ViewIs(db);
    MooringIs(op, s, View(db));
    EffectIs(op, s, Contents(View(db)));
    TabledIs(op, s, db.t);
  }

  lemma TakesIs(op: Op, s: State)
    ensures op.Delete? ==> Takes(op, s) == if op.id in s.t.clips && Store.DeleteWorks(op.faults) then {op.id} else {}
    ensures op.Retain? ==>
              Takes(op, s) == if Retention.RetainWorks(op.settings, op.faults)
                              then s.t.clips.Keys - Retention.After(s.t, op.now, op.settings).clips.Keys else {}
    ensures op.DeleteGroup? ==>
              Takes(op, s) == if op.cascade && Groups.DeleteWorks(s.t.groups, op.id, op.cascade, op.faults)
                              then Groups.ClipsIn(s.t.clips, Groups.Subtree(s.t.groups, op.id)) else {}
    ensures op.Reopen? ==> Takes(op, s) == if DB_FILE in s.beside then {} else s.t.clips.Keys
  {
    hide Store.DeleteWorks, Retention.RetainWorks, Retention.After, Groups.DeleteWorks, Groups.ClipsIn, Groups.Subtree;
  }

  method EditText(db: Db, op: Op, ghost u: iset<bytes>)
    requires Sound(View(db), u) && Fair(op, u) && op.SetText?
    modifies db
    ensures Sound(View(db), u) <==> !Harms(op, old(View(db)))
    ensures Sound(View(db), u) <==> Intact(View(db))
    ensures Sound(View(db), u) ==> Effect(op, old(View(db)), Contents(View(db)))
    ensures Moors(op, old(View(db)), View(db)) && Roots(op, old(View(db)), View(db))
    ensures Tabled(op, old(View(db)), db.t)
  {
    hide *;
    SoundIs(db, u);
    ViewIs(db);
    FairIs(op, u);
    HarmIs(op, View(db));
    ghost var (s, t) := (View(db), db.t);
    EditsIs(op, s);
    if op.id in db.t.clips {
      TextGroups(t, op.id, Store.TextHash(op.text), op.text, op.plain);
    }
    var r := Store.SetText(db, op.id, op.text, op.plain, op.faults, u);
    SoundIs(db, u);
    ViewIs(db);
    MooringIs(op, s, View(db));
    EffectIs(op, s, Contents(View(db)));
    TabledIs(op, s, db.t);
  }

  lemma EditsIs(op: Op, s: State)
    requires op.SetText? && ContentHash.Qsorted([Store.TextFormat(op.text)], [0])
    ensures Edits(op, s) <==> Store.SetTextWorks(s.t, s.files, op.id, op.text, op.faults)
  {
    hide ContentHash.Qsorted, Store.SetTextWorks;
  }

  lemma TextGroups(t: Tables, id: nat, h: bytes, text: bytes, plain: Option<bytes>)
    requires id in t.clips
    ensures Store.TextTables(t, id, h, text, plain).groups == t.groups
  {
    hide Store.Rewritten, Store.RowsFor;
  }

  method EditColumn(db: Db, op: Op, ghost u: iset<bytes>)
    requires Sound(View(db), u) && (op.SetColumn? || op.SetSlot? || op.BindHotkeys?)
    modifies db
    ensures Sound(View(db), u) && Intact(View(db)) && Effect(op, old(View(db)), Contents(View(db)))
    ensures Moors(op, old(View(db)), View(db)) && Roots(op, old(View(db)), View(db))
    ensures Tabled(op, old(View(db)), db.t)
  {
    hide *;
    SoundIs(db, u);
    ViewIs(db);
    ghost var s := View(db);
    HarmlessIs(op);
    if op.SetColumn? {
      var r := Store.SetColumn(db, op.id, op.col, op.faults, u);
    } else if op.SetSlot? {
      var ok := Store.SetSlot(db, op.slot, op.id, op.faults, u);
    } else {
      Store.ValidParts(db, u);
      Store.SlotKeeps(db.t, db.files, 0, 0, op.bound, u);
      db.t := db.t.(bound := op.bound);
      Store.PartsValid(db, u);
    }
    SoundIs(db, u);
    ViewIs(db);
    MooringIs(op, s, View(db));
    EffectIs(op, s, Contents(View(db)));
    TabledIs(op, s, db.t);
  }

  lemma HarmlessIs(op: Op)
    ensures Harmless(op) <==>
              op.Add? || op.SetColumn? || op.SetSlot? || op.BindHotkeys? || op.CreateGroup? || op.RenameGroup? || op.EnsurePath? || op.Reopen?
  {
  }

  method Expire(db: Db, op: Op, ghost u: iset<bytes>)
    requires Sound(View(db), u) && op.Retain?
    modifies db
    ensures Sound(View(db), u) <==> !Harms(op, old(View(db)))
    ensures Sound(View(db), u) <==> Intact(View(db))
    ensures Sound(View(db), u) ==> Effect(op, old(View(db)), Contents(View(db)))
    ensures Moors(op, old(View(db)), View(db)) && Roots(op, old(View(db)), View(db))
    ensures Tabled(op, old(View(db)), db.t)
  {
    hide *;
    SoundIs(db, u);
    ViewIs(db);
    HarmIs(op, View(db));
    AfterKeepsGroups(db.t, op.now, op.settings);
    ghost var s := View(db);
    TakesIs(op, s);
    Store.ValidParts(db, u);
    ContentsOf(db.t, db.files, u);
    Fewer(db.t, op.now, op.settings);
    var r := Retention.Retain(db, op.now, op.settings, op.faults, u);
    SoundIs(db, u);
    ViewIs(db);
    MooringIs(op, s, View(db));
    ShrinksIs(op, s);
    EffectIs(op, s, Contents(View(db)));
    if Store.Valid(db, u) {
      Store.ValidParts(db, u);
      ContentsOf(db.t, db.files, u);
      Remaining(Contents(s), Contents(View(db)), Takes(op, s));
    }
    TabledIs(op, s, db.t);
  }

  lemma ContentsOf(t: Tables, files: map<bytes, bytes>, u: iset<bytes>)
    requires Store.PayloadsOk(t, files, u)
    ensures Store.Contents(t, files).Keys == t.clips.Keys
  {
    hide Store.ClipOk, Store.Loads;
  }

  lemma Fewer(t: Tables, now: int, st: Retention.Settings)
    ensures Retention.After(t, now, st).clips.Keys <= t.clips.Keys
  {
    hide *;
    var t1 := WithoutClips(t, Retention.OldOnes(t, now, st));
    var t2 := WithoutClips(t1, Retention.HeavyOnes(t1, now, st));
    Retention.AgedIs(t, now, st);
    FewerWithout(t, Retention.OldOnes(t, now, st));
    FewerWithout(t1, Retention.HeavyOnes(t1, now, st));
    FewerWithout(t2, Retention.Excess(t2, st));
  }

  lemma FewerWithout(t: Tables, ids: set<nat>)
    ensures WithoutClips(t, ids).clips.Keys <= t.clips.Keys
  {
  }

  lemma Remaining(was: Clips, now: Clips, gone: set<nat>)
    requires now.Keys == was.Keys - gone && forall id :: id in now ==> id in was && now[id] == was[id]
    ensures now == was - gone
  {
  }

  lemma ShrinksIs(op: Op, s: State)
    requires op.Retain?
    ensures Shrinks(op, s) <==>
              && Retention.RetainWorks(op.settings, op.faults)
              && |Retention.After(s.t, op.now, op.settings).clips.Keys| < |s.t.clips.Keys|
  {
    hide Retention.RetainWorks, Retention.After;
  }

  lemma AfterKeepsGroups(t: Tables, now: int, s: Retention.Settings)
    ensures Retention.After(t, now, s).groups == t.groups
  {
    hide *;
    var t1 := WithoutClips(t, Retention.OldOnes(t, now, s));
    var t2 := WithoutClips(t1, Retention.HeavyOnes(t1, now, s));
    Retention.AgedIs(t, now, s);
    Groups.GroupsStay(t, Retention.OldOnes(t, now, s));
    Groups.GroupsStay(t1, Retention.HeavyOnes(t1, now, s));
    Groups.GroupsStay(t2, Retention.Excess(t2, s));
  }

  method CollectFiles(db: Db, op: Op, ghost u: iset<bytes>)
    requires Sound(View(db), u) && op.Collect?
    modifies db
    ensures Sound(View(db), u) <==> !Harms(op, old(View(db)))
    ensures Sound(View(db), u) <==> Intact(View(db))
    ensures Sound(View(db), u) ==> Effect(op, old(View(db)), Contents(View(db)))
    ensures Moors(op, old(View(db)), View(db)) && Roots(op, old(View(db)), View(db))
    ensures Tabled(op, old(View(db)), db.t)
  {
    hide *;
    SoundIs(db, u);
    ViewIs(db);
    HarmIs(op, View(db));
    ghost var s := View(db);
    Disk.Collect(db, op.faults, u);
    SoundIs(db, u);
    ViewIs(db);
    MooringIs(op, s, View(db));
    EffectIs(op, s, Contents(View(db)));
    TabledIs(op, s, db.t);
  }

  method OpenAgain(db: Db, op: Op, ghost u: iset<bytes>)
    requires Sound(View(db), u) && op.Reopen?
    modifies db
    ensures Sound(View(db), u) && Intact(View(db)) && Effect(op, old(View(db)), Contents(View(db)))
    ensures Moors(op, old(View(db)), View(db)) && Roots(op, old(View(db)), View(db))
    ensures Tabled(op, old(View(db)), db.t)
  {
    hide *;
    SoundIs(db, u);
    ViewIs(db);
    ghost var s := View(db);
    TakesIs(op, s);
    Store.ValidParts(db, u);
    ContentsOf(db.t, db.files, u);
    NoGroups();
    Disk.Reopen(db, u);
    SoundIs(db, u);
    ViewIs(db);
    MooringIs(op, s, View(db));
    EffectIs(op, s, Contents(View(db)));
    assert Contents(s) - Contents(s).Keys == map[];
    TabledIs(op, s, db.t);
  }

  lemma NoGroups()
    ensures Groups.GroupsOk(NoTables().groups) && NoTables().groups == map[]
  {
    assert Groups.GroupsOk(map[]);
  }

  method DropGroup(db: Db, op: Op, ghost u: iset<bytes>)
    requires Sound(View(db), u) && op.DeleteGroup?
    modifies db
    ensures Sound(View(db), u) <==> !Harms(op, old(View(db)))
    ensures Sound(View(db), u) <==> Intact(View(db))
    ensures Sound(View(db), u) ==> Effect(op, old(View(db)), Contents(View(db)))
    ensures Moors(op, old(View(db)), View(db)) && Roots(op, old(View(db)), View(db))
    ensures Tabled(op, old(View(db)), db.t)
  {
    hide *;
    SoundIs(db, u);
    ViewIs(db);
    HarmIs(op, View(db));
    ghost var s := View(db);
    TakesIs(op, s);
    var r, affected := Groups.Delete(db, op.id, op.cascade, op.faults, u);
    SoundIs(db, u);
    ViewIs(db);
    MooringIs(op, s, View(db));
    EffectIs(op, s, Contents(View(db)));
    TabledIs(op, s, db.t);
  }

  /** A change of the tree is no change of the clips. */
  lemma TreeEdit(t: Tables, t2: Tables, files: map<bytes, bytes>, u: iset<bytes>)
    requires Store.PayloadsOk(t, files, u) && KeysOk(t.clips) && RefsOk(t)
    requires t2 == t.(groups := t2.groups) && t.groups.Keys <= t2.groups.Keys
    ensures Store.PayloadsOk(t2, files, u) && KeysOk(t2.clips) && RefsOk(t2)
    ensures Store.Contents(t2, files) == Store.Contents(t, files)
  {
    hide *;
    Groups.TreeEditsKeepClips(t, t2.groups, files, u);
  }

  lemma KeysStay(groups: Groups.GroupMap, id: nat, parent: Option<nat>)
    requires id in groups
    ensures groups.Keys <= Groups.Moved(groups, id, parent).Keys
  {
  }

  lemma KeysGrow(groups: Groups.GroupMap, more: Groups.GroupMap, ids: seq<nat>)
    requires Groups.OnlyAdds(groups, more, ids)
    ensures groups.Keys <= more.Keys
  {
  }

  /** The four changes of the tree itself; only a move can break it. */
  method Reshape(db: Db, op: Op, ghost s: State)
    requires s.t == db.t && Groups.GroupsOk(db.t.groups) && (op.CreateGroup? || op.RenameGroup? || op.MoveGroup? || op.EnsurePath?)
    modifies db`t
    ensures db.t == old(db.t).(groups := db.t.groups) && old(db.t).groups.Keys <= db.t.groups.Keys
    ensures Groups.GroupsOk(db.t.groups) <==> Groups.Acyclic(db.t.groups)
    ensures Tabled(op, s, db.t)
    ensures Groups.GroupsOk(db.t.groups) <==>
              !(op.MoveGroup? && Groups.MoveHarms(old(db.t).groups, op.id, op.parent, op.treeFaults))
  {
    hide *;
    ghost var groups := db.t.groups;
    Groups.Parts(groups);
    if op.CreateGroup? {
      var r, id := Groups.Create(db, op.name, op.parent, op.treeFaults);
    } else if op.RenameGroup? {
      var r := Groups.Rename(db, op.id, op.name, op.treeFaults);
    } else if op.MoveGroup? {
      var r := Groups.Move(db, op.id, op.parent, op.treeFaults);
      if op.id in groups {
        KeysStay(groups, op.id, Groups.ParentOf(op.parent));
      }
    } else {
      ghost var ids;
      var r;
      r, ids := Groups.EnsurePath(db, op.path, op.pathFaults);
      KeysGrow(groups, db.t.groups, ids);
    }
    Groups.Parts(db.t.groups);
    TreeIs(op, s, db.t);
  }

  method EditTree(db: Db, op: Op, ghost u: iset<bytes>)
    requires Sound(View(db), u) && (op.CreateGroup? || op.RenameGroup? || op.MoveGroup? || op.EnsurePath?)
    modifies db
    ensures Sound(View(db), u) <==> !Harms(op, old(View(db)))
    ensures Sound(View(db), u) <==> Intact(View(db))
    ensures Effect(op, old(View(db)), Contents(View(db)))
    ensures Moors(op, old(View(db)), View(db)) && Roots(op, old(View(db)), View(db))
    ensures Tabled(op, old(View(db)), db.t)
  {
    hide *;
    SoundIs(db, u);
    ViewIs(db);
    HarmIs(op, View(db));
    TreeOpHarms(op, View(db));
    HarmlessIs(op);
    Store.ValidParts(db, u);
    ghost var (s, t) := (View(db), db.t);
    Reshape(db, op, s);
    TreeEdit(t, db.t, db.files, u);
    Store.PartsValid(db, u);
    SoundIs(db, u);
    ViewIs(db);
    MooringIs(op, s, View(db));
    EffectIs(op, s, Contents(View(db)));
  }

  lemma TreeOpHarms(op: Op, s: State)
    requires op.CreateGroup? || op.RenameGroup? || op.MoveGroup? || op.EnsurePath?
    ensures Harms(op, s) <==> op.MoveGroup? && Groups.MoveHarms(s.t.groups, op.id, op.parent, op.treeFaults)
  {
    hide Groups.MoveHarms;
  }

  /** One step: what keeps it sound, what it does to clips, tree and database file. */
  ghost predicate StepOf(op: Op, s: State, next: State, u: iset<bytes>) {
    && Sound(s, u) && (Sound(next, u) <==> !Harms(op, s))
    && (!Harms(op, s) ==> Effect(op, s, Contents(next)))
    && Moors(op, s, next) && Roots(op, s, next)
    && Tabled(op, s, next.t)
  }

  /**
   * One operation: the invariants are kept exactly when it does no harm, and then
   * it does to clips, tree and database file exactly what it is for; what unlinks
   * the database file is a collection.
   */
  method Apply(db: Db, op: Op, ghost u: iset<bytes>)
    requires Sound(View(db), u) && Fair(op, u)
    modifies db
    ensures StepOf(op, old(View(db)), View(db), u)
    ensures Sound(View(db), u) <==> Intact(View(db))
  {
    hide Sound, Contents, View, Effect, Harms, Fair, Intact, Moors, Roots, Tabled;
    ViewIs(db);
    HarmIs(op, View(db));
    if op.Add? {
      AddClip(db, op, u);
    } else if op.Delete? {
      DeleteClip(db, op, u);
    } else if op.SetText? {
      EditText(db, op, u);
    } else if op.SetColumn? || op.SetSlot? || op.BindHotkeys? {
      EditColumn(db, op, u);
    } else if op.Retain? {
      Expire(db, op, u);
    } else if op.Collect? {
      CollectFiles(db, op, u);
    } else if op.Reopen? {
      OpenAgain(db, op, u);
    } else if op.DeleteGroup? {
      DropGroup(db, op, u);
    } else {
      EditTree(db, op, u);
    }
    ViewIs(db);
  }

  /** The states a run goes through: sound ones, until an operation does harm. */
  ghost predicate IsTrace(ops: seq<Op>, trace: seq<State>, u: iset<bytes>) {
    && 0 < |trace| <= |ops| + 1
    && forall k :: 0 <= k < |trace| - 1 ==> StepOf(ops[k], trace[k], After(trace, k), u)
  }

  ghost function After(trace: seq<State>, k: nat): State
    requires k + 1 < |trace|
  {
    trace[k + 1]
  }

  /** The integrity check after an operation. */
  method Check(db: Db) returns (ok: bool)
    ensures ok <==> Intact(View(db))
  {
    hide Store.AllThere, Groups.Acyclic;
    ok := Store.AllThere(db.t, db.files);
    if ok {
      ok := Groups.Check(db.t.groups);
    }
  }

  /**
   * Over every run every state is sound until an operation does harm: the run
   * ends sound, having done everything, exactly when none of its operations did.
   */
  method Drive(db: Db, ops: seq<Op>, ghost u: iset<bytes>) returns (done: nat, ghost trace: seq<State>)
    requires Sound(View(db), u) && forall k :: 0 <= k < |ops| ==> Fair(ops[k], u)
    modifies db
    ensures IsTrace(ops, trace, u) && |trace| == done + 1 && trace[0] == old(View(db)) && trace[done] == View(db)
    ensures Sound(View(db), u) ==> done == |ops| && forall k :: 0 <= k < done ==> !Harms(ops[k], trace[k])
    ensures !Sound(View(db), u) ==> done > 0 && Harms(ops[done - 1], trace[done - 1])
  {
    hide Sound, Contents, Effect, Fair, Harms, View, Intact, Moors, Roots, Tabled;
    trace := [View(db)];
    done := 0;
    var ok := true;
    while done < |ops| && ok
      invariant done <= |ops| && |trace| == done + 1 && trace[0] == old(View(db)) && trace[done] == View(db)
      invariant IsTrace(ops, trace, u) && (ok <==> Sound(View(db), u))
      invariant forall k :: 0 <= k < done - 1 ==> !Harms(ops[k], trace[k])
      invariant done > 0 ==> (ok <==> !Harms(ops[done - 1], trace[done - 1]))
      decreases |ops| - done
    {
      ghost var was := trace;
      Apply(db, ops[done], u);
      trace := trace + [View(db)];
      TraceGrows(ops, was, View(db), u);
      ok := Check(db);
      done := done + 1;
    }
  }

  lemma TraceGrows(ops: seq<Op>, trace: seq<State>, next: State, u: iset<bytes>)
    requires IsTrace(ops, trace, u) && |trace| <= |ops| && StepOf(ops[|trace| - 1], trace[|trace| - 1], next, u)
    ensures IsTrace(ops, trace + [next], u)
  {
    hide StepOf;
    forall k | 0 <= k < |trace| ensures StepOf(ops[k], (trace + [next])[k], After(trace + [next], k), u) {
      if k < |trace| - 1 {
        assert StepOf(ops[k], trace[k], After(trace, k), u);
      }
    }
  }

  /** A store opened for the first time is sound. */
  lemma EmptyIsSound(u: iset<bytes>)
    requires Store.NoCollision(u)
    ensures Sound(Empty(), u) && Moored(Empty()) && Contents(Empty()) == map[]
  {
    hide Store.NoCollision, Store.PayloadsOk, Groups.GroupsOk, KeysOk, RefsOk, Store.Contents;
    Disk.EmptyIsSound(map[], u);
    NoGroups();
  }

  function Empty(): State { State(NoTables(), map[], {DB_FILE, WAL_FILE, SHM_FILE}) }

  /** Every run from a store opened for the first time. */
  method Live(ops: seq<Op>, ghost u: iset<bytes>) returns (db: Db, done: nat, ghost trace: seq<State>)
    requires Store.NoCollision(u) && forall k :: 0 <= k < |ops| ==> Fair(ops[k], u)
    ensures fresh(db) && IsTrace(ops, trace, u) && |trace| == done + 1 && trace[0] == Empty() && trace[done] == View(db)
    ensures Sound(View(db), u) ==> done == |ops| && forall k :: 0 <= k < done ==> !Harms(ops[k], trace[k])
    ensures !Sound(View(db), u) ==> done > 0 && Harms(ops[done - 1], trace[done - 1])
  {
    hide Sound, Contents, Fair, Harms, IsTrace, Moored, NoTables, Store.NoCollision;
    db := new Db();
    EmptyIsSound(u);
    done, trace := Drive(db, ops, u);
  }

  // ---- what lasts ----------------------------------------------------------------------------

  ghost predicate Opens(ops: seq<Op>, since: nat, n: nat)
    requires n <= |ops|
  {
    exists k :: since <= k < n && ops[k].Reopen?
  }

  /**
   * While the store stays open the database file stays in its place exactly when
   * no collection among the operations was told of ".." and could unlink it.
   */
  lemma {:induction false} MooredIff(ops: seq<Op>, trace: seq<State>, u: iset<bytes>, since: nat, n: nat)
    requires IsTrace(ops, trace, u) && since <= n < |trace| && !Opens(ops, since, n) && Moored(trace[since])
    ensures Moored(trace[n]) <==> forall k :: since <= k < n ==> !Unmoors(ops[k], trace[k])
    decreases n
  {
    hide Moored, Unmoors, Sound, Effect, Roots, Harms, Tabled;
    if since < n {
      MooredIff(ops, trace, u, since, n - 1);
      assert StepOf(ops[n - 1], trace[n - 1], After(trace, n - 1), u);
    }
  }

  /**
   * The clips are there after a reopening exactly when no collection since the
   * store was last opened did that; else every one of them is lost.
   */
  lemma ReopeningIff(ops: seq<Op>, trace: seq<State>, u: iset<bytes>, since: nat, n: nat)
    requires IsTrace(ops, trace, u) && since <= n && n + 1 < |trace| && !Opens(ops, since, n) && ops[n].Reopen?
    requires Moored(trace[since])
    ensures Contents(trace[n + 1]) == if forall k :: since <= k < n ==> !Unmoors(ops[k], trace[k])
                                       then Contents(trace[n]) else map[]
  {
    hide Moored, Unmoors, Sound, Roots, Contents, Moors, Tabled;
    MooredIff(ops, trace, u, since, n);
    assert StepOf(ops[n], trace[n], After(trace, n), u);
    ReopenTakes(ops[n], trace[n], u);
  }

  lemma ReopenTakes(op: Op, s: State, u: iset<bytes>)
    requires op.Reopen? && Sound(s, u)
    ensures !Harms(op, s) && Contents(s) - Takes(op, s) == if Moored(s) then Contents(s) else map[]
  {
    hide Store.PayloadsOk, Store.Contents, Moored;
    ContentsOf(s.t, s.files, u);
  }

  /** A clip that no operation of the run takes out or gives another text is there at its end, byte for byte. */
  lemma {:induction false} ClipStays(ops: seq<Op>, trace: seq<State>, u: iset<bytes>, id: nat, n: nat)
    requires IsTrace(ops, trace, u) && n < |trace| && id in Contents(trace[0])
    requires forall k :: 0 <= k < n ==> !Harms(ops[k], trace[k]) && id !in Takes(ops[k], trace[k])
    requires forall k :: 0 <= k < n ==> !(ops[k].SetText? && ops[k].id == id && Edits(ops[k], trace[k]))
    ensures id in Contents(trace[n]) && Contents(trace[n])[id] == Contents(trace[0])[id]
  {
    hide Takes, Contents, Edits, Sound, Harms, Moors, Roots, Tabled;
    if n > 0 {
      ClipStays(ops, trace, u, id, n - 1);
      assert StepOf(ops[n - 1], trace[n - 1], After(trace, n - 1), u);
      StaysInStep(ops[n - 1], trace[n - 1], Contents(trace[n]), id);
    }
  }

  lemma StaysInStep(op: Op, s: State, now: Clips, id: nat)
    requires Effect(op, s, now) && id in Contents(s) && id !in Takes(op, s)
    requires !(op.SetText? && op.id == id && Edits(op, s))
    ensures id in now && now[id] == Contents(s)[id]
  {
    hide Takes, Contents, Edits, ContentHash.Qsorted, Store.Holds, Store.CanInsert, Store.NoFault, Store.Distinct, IsNext, RowOf;
  }

  /** Retention takes no clip the user has invested in. */
  lemma ProtectedIsNotTaken(op: Op, s: State, id: nat)
    requires op.Retain? && id in s.t.clips && Retention.Invested(s.t, id)
    ensures id !in Takes(op, s)
  {
    hide *;
    TakesIs(op, s);
    Retention.InvestedIs(s.t, id);
    Retention.ProtectedStay(s.t, op.now, op.settings, id);
  }

  /** With nothing going wrong, every collection unlinks the database file. */
  lemma CollectionUnmoors(s: State)
    ensures Unmoors(Collect({}), s)
  {
  }

  function FirstClip(): seq<ContentHash.Format> { [Store.TextFormat([97])] }

  function FirstAdd(): Op { Add(FirstClip(), [0], Store.Origin([], 0, 0, None, None, 0), None, 0, {}) }

  lemma FirstIsFair(u: iset<bytes>)
    requires [97] in u && ContentHash.Qsorted(FirstClip(), [0]) && Store.RecordsOf(FirstClip(), [0]) in u
    ensures Fair(FirstAdd(), u) && Fair(Collect({}), u) && Fair(Reopen, u)
    ensures forall s :: !Harms(FirstAdd(), s)
  {
    hide ContentHash.Qsorted, Store.RecordsOf;
  }

  lemma FirstIsAdded(now: Clips)
    requires ContentHash.Qsorted(FirstClip(), [0]) && Effect(FirstAdd(), Empty(), now)
    ensures now == map[1 := FirstClip()]
  {
    hide ContentHash.Qsorted, Sha256.Digest, Store.RecordsOf;
    NothingHeld(FirstClip());
  }

  lemma NothingHeld(fs: seq<ContentHash.Format>)
    ensures !Store.Holds(Empty().t, Empty().files, fs) && Contents(Empty()) == map[]
  {
    hide ContentHash.Pairs;
  }

  /** A text clip, a collection with nothing going wrong, and a reopening: the clip is lost. */
  method CollectionLosesTheDatabase(ghost u: iset<bytes>) returns (db: Db, ghost stored: Clips)
    requires Store.NoCollision(u) && [97] in u
    requires ContentHash.Qsorted(FirstClip(), [0]) && Store.RecordsOf(FirstClip(), [0]) in u
    ensures fresh(db) && stored == map[1 := FirstClip()] && Sound(View(db), u) && Contents(View(db)) == map[]
  {
    hide *;
    var ops := [FirstAdd(), Collect({}), Reopen];
    FirstIsFair(u);
    ghost var trace;
    var done;
    db, done, trace := Live(ops, u);
    FirstRun(ops, trace, u);
    NothingHarmed(trace[2]);
    stored := Contents(trace[1]);
  }

  lemma FirstRun(ops: seq<Op>, trace: seq<State>, u: iset<bytes>)
    requires [97] in u && ContentHash.Qsorted(FirstClip(), [0]) && Store.RecordsOf(FirstClip(), [0]) in u
    requires ops == [FirstAdd(), Collect({}), Reopen] && IsTrace(ops, trace, u) && trace[0] == Empty()
    requires |trace| < 4 ==> |trace| > 1 && Harms(ops[|trace| - 2], trace[|trace| - 2])
    ensures |trace| == 4
    ensures Contents(trace[1]) == map[1 := FirstClip()] && Contents(trace[3]) == map[]
  {
    hide Sound, Effect, Harms, Moored, Unmoors, Contents, Roots, Tabled, ContentHash.Qsorted, FirstAdd, FirstClip, Empty, Store.RecordsOf;
    FirstIsFair(u);
    assert StepOf(ops[0], trace[0], After(trace, 0), u);
    FirstIsAdded(Contents(trace[1]));
    NothingHarmed(trace[1]);
    assert |trace| > 2 && StepOf(ops[1], trace[1], After(trace, 1), u);
    NothingHarmed(trace[2]);
    assert |trace| > 3 && StepOf(ops[2], trace[2], After(trace, 2), u);
    CollectionUnmoors(trace[1]);
    ReopenTakes(ops[2], trace[2], u);
    EffectIs(ops[2], trace[2], Contents(trace[3]));
  }

  lemma NothingHarmed(s: State)
    ensures !Harms(Collect({}), s) && !Harms(Reopen, s)
  {
    hide Disk.CollectHarms;
    Disk.WalkedIs(s.t, s.files, {});
  }
}
