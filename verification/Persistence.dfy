/** Persisting a cache incrementally: the files and the index of a cache directory (nucleus/tile/Cache.h). */
module Persistence {
  import opened Tiles
  import opened Entries

  datatype Option<T> = None | Some(value: T)

  datatype TileFile<T> = TileFile(version: string, tile: Named<T>)
  datatype MetaFile = MetaFile(version: string, entries: map<TileId, MetaData>)

  /** A cache directory: one file per tile id, and the index file. */
  class Disk<T> {
    var files: map<TileId, TileFile<T>>
    var meta: Option<MetaFile>

    constructor ()
      ensures files == map[] && meta == None
    {
      files, meta := map[], None;
    }
  }

  datatype ReadOutcome = ReadOk | CannotOpen | IncompatibleVersion

  ghost function Metas<T>(m: Store<T>): map<TileId, MetaData> {
    map id | id in m :: m[id].meta
  }

  /** The file of `id` is taken to hold the cached tile: both carry the same creation stamp. */
  predicate UpToDate<T>(cached: map<TileId, MetaData>, m: Store<T>, id: TileId) {
    id in cached && id in m && cached[id].created == m[id].meta.created
  }

  ghost function Outdated<T>(cached: map<TileId, MetaData>, m: Store<T>): set<TileId> {
    set id | id in cached && !UpToDate(cached, m, id)
  }

  ghost function NewFiles<T>(cached: map<TileId, MetaData>, m: Store<T>, version: string): map<TileId, TileFile<T>> {
    map id | id in m && !UpToDate(cached, m, id) :: TileFile(version, m[id].data)
  }

  lemma MetasStep<T>(m: Store<T>, remaining: set<TileId>, id: TileId)
    requires id in remaining && id in m
    ensures Metas(m - (remaining - {id})) == Metas(m - remaining)[id := m[id].meta]
  {
  }

  lemma NewFilesStep<T>(files: map<TileId, TileFile<T>>, cached: map<TileId, MetaData>, m: Store<T>, version: string,
                        remaining: set<TileId>, id: TileId)
    requires id in remaining && id in m
    ensures var added := NewFiles(cached, m, version);
      files + (added - (remaining - {id})) == if UpToDate(cached, m, id) then files + (added - remaining)
                                              else (files + (added - remaining))[id := TileFile(version, m[id].data)]
  {
  }

  ghost function FilesAfterWrite<T>(files: map<TileId, TileFile<T>>, cached: map<TileId, MetaData>, m: Store<T>,
                                    version: string): map<TileId, TileFile<T>>
  {
    (files - Outdated(cached, m)) + NewFiles(cached, m, version)
  }

  /** What a full rewrite would put on disk. */
  ghost function FullRewrite<T>(m: Store<T>, version: string): map<TileId, TileFile<T>> {
    map id | id in m :: TileFile(version, m[id].data)
  }

  ghost predicate Readable<T>(files: map<TileId, TileFile<T>>, meta: Option<MetaFile>, version: string) {
    && meta.Some? && meta.value.version == version
    && forall id :: id in meta.value.entries ==> id in files && files[id].version == version
  }

  ghost predicate WellNamed<T>(files: map<TileId, TileFile<T>>) {
    forall id :: id in files ==> files[id].tile.id == id
  }

  ghost function Restored<T>(files: map<TileId, TileFile<T>>, entries: map<TileId, MetaData>): Store<T> {
    map id | id in entries && id in files :: CacheObject(entries[id], files[id].tile)
  }

  /** Every tile remembered as written has a current file, unless the cache holds a newer tile. */
  ghost predicate Synced<T>(files: map<TileId, TileFile<T>>, cached: map<TileId, MetaData>, m: Store<T>,
                            version: string)
  {
    forall id :: id in cached ==>
      && id in files && files[id].version == version
      && (UpToDate(cached, m, id) ==> files[id].tile == m[id].data)
  }

  /** The incremental write leaves, for the cached tiles, what a full rewrite would; a read then restores
      exactly the written tiles and metadata. Files of other tiles may be left over. */
  lemma WriteThenRead<T>(files: map<TileId, TileFile<T>>, cached: map<TileId, MetaData>, m: Store<T>, version: string)
    requires Synced(files, cached, m, version)
    ensures var after := FilesAfterWrite(files, cached, m, version);
      && Restored(after, Metas(m)) == m
      && Readable(after, Some(MetaFile(version, Metas(m))), version)
      && Synced(after, Metas(m), m, version)
      && (forall id :: id in m ==> id in after && after[id] == FullRewrite(m, version)[id])
      && (WellKeyed(m) && WellNamed(files) ==> WellNamed(after))
  {
    var after := FilesAfterWrite(files, cached, m, version);
    forall id | id in m
      ensures id in after && after[id] == TileFile(version, m[id].data)
    {
      if UpToDate(cached, m, id) {
        assert id in files && id !in Outdated(cached, m);
      }
    }
    assert Restored(after, Metas(m)).Keys == m.Keys;
  }

  lemma FilesLeft<T>(files: map<TileId, TileFile<T>>, cached: map<TileId, MetaData>, m: Store<T>, version: string)
    requires Synced(files, cached, m, version)
    ensures FilesAfterWrite(files, cached, m, version).Keys == m.Keys + (files.Keys - cached.Keys)
  {
    forall id
      ensures id in FilesAfterWrite(files, cached, m, version) <==> id in m || (id in files && id !in cached)
    {
      assert id in Outdated(cached, m) <==> id in cached && !UpToDate(cached, m, id);
    }
  }

  /** The write leaves exactly what a full rewrite would if and only if the record of the disk knows all other files. */
  lemma WriteIsRewrite<T>(files: map<TileId, TileFile<T>>, cached: map<TileId, MetaData>, m: Store<T>, version: string)
    requires Synced(files, cached, m, version)
    ensures FilesAfterWrite(files, cached, m, version) == FullRewrite(m, version)
       <==> files.Keys <= cached.Keys + m.Keys
  {
    FilesLeft(files, cached, m, version);
    WriteThenRead(files, cached, m, version);
    assert FullRewrite(m, version).Keys == m.Keys;
    if files.Keys <= cached.Keys + m.Keys {
      assert FilesAfterWrite(files, cached, m, version).Keys == m.Keys;
    }
  }

  /** An insertion that reuses the creation stamp of the written version for another content. */
  ghost predicate Clash<T>(files: map<TileId, TileFile<T>>, cached: map<TileId, MetaData>, tile: Named<T>, now: Msecs) {
    tile.id in cached && cached[tile.id].created == now && (tile.id !in files || files[tile.id].tile != tile)
  }

  /** An insertion keeps the directory in step exactly when it does not clash. */
  lemma InsertSynced<T>(files: map<TileId, TileFile<T>>, cached: map<TileId, MetaData>, m: Store<T>, version: string,
                        tile: Named<T>, now: Msecs)
    requires Synced(files, cached, m, version)
    ensures Synced(files, cached, m[tile.id := Fresh(tile, now)], version) <==> !Clash(files, cached, tile, now)
  {
    var m' := m[tile.id := Fresh(tile, now)];
    assert UpToDate(cached, m', tile.id) <==> tile.id in cached && cached[tile.id].created == now;
    forall id | id in cached && id != tile.id
      ensures UpToDate(cached, m', id) <==> UpToDate(cached, m, id)
    {
    }
  }

  /** Inserting, writing and reading returns the inserted tile exactly when the insertion does not clash. */
  lemma InsertWriteRead<T>(files: map<TileId, TileFile<T>>, cached: map<TileId, MetaData>, m: Store<T>, version: string,
                           tile: Named<T>, now: Msecs)
    requires Synced(files, cached, m, version)
    ensures var m' := m[tile.id := Fresh(tile, now)];
      Restored(FilesAfterWrite(files, cached, m', version), Metas(m')) == m' <==> !Clash(files, cached, tile, now)
  {
    var m' := m[tile.id := Fresh(tile, now)];
    InsertSynced(files, cached, m, version, tile, now);
    if Clash(files, cached, tile, now) {
      assert UpToDate(cached, m', tile.id);
      var after := FilesAfterWrite(files, cached, m', version);
      assert after[tile.id] == files[tile.id];
      assert Restored(after, Metas(m'))[tile.id].data != m'[tile.id].data;
    } else {
      WriteThenRead(files, cached, m', version);
    }
  }

  // ---- whole runs -----------------------------------------------------------------------------

  datatype Session<T> = Session(m: Store<T>, cached: map<TileId, MetaData>, files: map<TileId, TileFile<T>>,
                                meta: Option<MetaFile>)

  datatype Event<T> =
    | Inserted(tile: Named<T>, now: Msecs)
    | VisitedAt(reached: set<TileId>, at: Msecs)
    | Purged(dropped: set<TileId>)
    | Written
    | Restarted
    | Reopened

  ghost function Step<T>(s: Session<T>, e: Event<T>, version: string): Session<T> {
    match e
    case Inserted(tile, now) => s.(m := s.m[tile.id := Fresh(tile, now)])
    case VisitedAt(reached, at) => s.(m := Marked(s.m, reached, at))
    case Purged(dropped) => s.(m := s.m - dropped)
    case Written => Session(s.m, Metas(s.m), FilesAfterWrite(s.files, s.cached, s.m, version),
                            Some(MetaFile(version, Metas(s.m))))
    case Restarted => s.(m := map[], cached := map[])
    case Reopened =>
      if Readable(s.files, s.meta, version)
      then s.(m := Restored(s.files, s.meta.value.entries), cached := s.meta.value.entries)
      else s.(m := map[], cached := map[])
  }

  ghost function Run<T>(s: Session<T>, events: seq<Event<T>>, version: string): Session<T>
    decreases |events|
  {
    if events == [] then s else Run(Step(s, events[0], version), events[1..], version)
  }

  ghost predicate NoClash<T>(s: Session<T>, e: Event<T>) {
    e.Inserted? ==> !Clash(s.files, s.cached, e.tile, e.now)
  }

  ghost predicate NeverClashes<T>(s: Session<T>, events: seq<Event<T>>, version: string)
    decreases |events|
  {
    events != [] ==> NoClash(s, events[0]) && NeverClashes(Step(s, events[0], version), events[1..], version)
  }

  ghost predicate InStep<T>(s: Session<T>, version: string) {
    Synced(s.files, s.cached, s.m, version) && WellKeyed(s.m) && WellNamed(s.files)
  }

  lemma StepInStep<T>(s: Session<T>, e: Event<T>, version: string)
    requires InStep(s, version) && NoClash(s, e)
    ensures InStep(Step(s, e, version), version)
  {
    match e
    case Inserted(tile, now) =>
      InsertSynced(s.files, s.cached, s.m, version, tile, now);
    case VisitedAt(reached, at) =>
    case Purged(dropped) =>
    case Written =>
      WriteThenRead(s.files, s.cached, s.m, version);
    case Restarted =>
    case Reopened =>
  }

  lemma {:induction false} RunInStep<T>(s: Session<T>, events: seq<Event<T>>, version: string)
    requires InStep(s, version) && NeverClashes(s, events, version)
    ensures InStep(Run(s, events, version), version)
    decreases |events|
  {
    if events != [] {
      StepInStep(s, events[0], version);
      RunInStep(Step(s, events[0], version), events[1..], version);
    }
  }

  /** After any run from an empty cache over any directory, a write followed by a fresh start and a read
      brings back exactly what was in the cache when it was written. */
  lemma RunPersists<T>(files: map<TileId, TileFile<T>>, meta: Option<MetaFile>, events: seq<Event<T>>, version: string)
    requires WellNamed(files) && NeverClashes(Session(map[], map[], files, meta), events, version)
    ensures var s := Run(Session(map[], map[], files, meta), events, version);
      Step(Step(Step(s, Written, version), Restarted, version), Reopened, version) == Step(s, Written, version)
  {
    RunInStep(Session(map[], map[], files, meta), events, version);
    RestartRestores(Run(Session(map[], map[], files, meta), events, version), version);
  }

  lemma RestartRestores<T>(s: Session<T>, version: string)
    requires InStep(s, version)
    ensures Step(Step(Step(s, Written, version), Restarted, version), Reopened, version) == Step(s, Written, version)
  {
    WriteThenRead(s.files, s.cached, s.m, version);
  }

  /** What was written under one version is not read under another: the cache stays empty. */
  lemma OtherVersionUnread<T>(s: Session<T>, written: string, expected: string)
    requires written != expected
    ensures var r := Step(Step(Step(s, Written, written), Restarted, written), Reopened, expected);
      r.m == map[] && r.cached == map[]
  {
  }

  ghost predicate NoRestart<T>(events: seq<Event<T>>) {
    forall i :: 0 <= i < |events| ==> !events[i].Restarted? && !events[i].Reopened?
  }

  lemma StepTracked<T>(s: Session<T>, e: Event<T>, version: string)
    requires InStep(s, version) && NoClash(s, e) && s.files.Keys <= s.cached.Keys && !e.Restarted? && !e.Reopened?
    ensures var q := Step(s, e, version); q.files.Keys <= q.cached.Keys
  {
    if e.Written? {
      WriteIsRewrite(s.files, s.cached, s.m, version);
    }
  }

  lemma {:induction false} RunTracked<T>(s: Session<T>, events: seq<Event<T>>, version: string)
    requires InStep(s, version) && NeverClashes(s, events, version) && NoRestart(events)
    requires s.files.Keys <= s.cached.Keys
    ensures var q := Run(s, events, version); InStep(q, version) && q.files.Keys <= q.cached.Keys
    decreases |events|
  {
    if events != [] {
      assert !events[0].Restarted? && !events[0].Reopened? && NoRestart(events[1..]);
      StepTracked(s, events[0], version);
      StepInStep(s, events[0], version);
      RunTracked(Step(s, events[0], version), events[1..], version);
    }
  }

  /** From an empty directory on, each write of an uninterrupted run without clashes leaves exactly the files of the
      cached tiles: no file of a tile that left the cache stays behind. */
  lemma RunLeavesNoFiles<T>(events: seq<Event<T>>, version: string)
    requires NeverClashes(Session(map[], map[], map[], None), events, version) && NoRestart(events)
    ensures var s := Run(Session(map[], map[], map[], None), events, version);
      Step(s, Written, version).files == FullRewrite(s.m, version)
  {
    var start: Session<T> := Session(map[], map[], map[], None);
    RunTracked(start, events, version);
    var s := Run(start, events, version);
    WriteIsRewrite(s.files, s.cached, s.m, version);
  }

  // ---- creation stamps ------------------------------------------------------------------------

  /** No insertion of an id repeats or precedes the stamp `last` of its previous insertion. */
  ghost predicate StampsAdvance<T>(events: seq<Event<T>>, last: map<TileId, nat>)
    decreases |events|
  {
    events != [] ==>
      match events[0]
      case Inserted(tile, now) =>
        (tile.id in last ==> last[tile.id] < now) && StampsAdvance(events[1..], last[tile.id := now])
      case _ => StampsAdvance(events[1..], last)
  }

  ghost predicate CreatedBy(entries: map<TileId, MetaData>, last: map<TileId, nat>) {
    forall id :: id in entries ==> id in last && entries[id].created <= last[id]
  }

  /** All creation stamps in the cache, in its record of the disk and in the index file are at most `last`. */
  ghost predicate StampedBy<T>(s: Session<T>, last: map<TileId, nat>) {
    CreatedBy(Metas(s.m), last) && CreatedBy(s.cached, last) && (s.meta.Some? ==> CreatedBy(s.meta.value.entries, last))
  }

  lemma InsertStamped<T>(s: Session<T>, tile: Named<T>, now: Msecs, last: map<TileId, nat>)
    requires StampedBy(s, last) && (tile.id in last ==> last[tile.id] < now)
    ensures !Clash(s.files, s.cached, tile, now)
    ensures StampedBy(s.(m := s.m[tile.id := Fresh(tile, now)]), last[tile.id := now])
  {
    assert Metas(s.m[tile.id := Fresh(tile, now)]) == Metas(s.m)[tile.id := Fresh(tile, now).meta];
  }

  lemma VisitStamped<T>(m: Store<T>, reached: set<TileId>, at: Msecs, last: map<TileId, nat>)
    requires CreatedBy(Metas(m), last)
    ensures CreatedBy(Metas(Marked(m, reached, at)), last)
  {
    forall id | id in Marked(m, reached, at)
      ensures Metas(Marked(m, reached, at))[id].created == Metas(m)[id].created
    {
    }
  }

  lemma ReopenStamped<T>(s: Session<T>, version: string, last: map<TileId, nat>)
    requires StampedBy(s, last)
    ensures StampedBy(Step(s, Reopened, version), last)
  {
    if Readable(s.files, s.meta, version) {
      assert Metas(Restored(s.files, s.meta.value.entries)) == s.meta.value.entries;
    }
  }

  lemma StepStamped<T>(s: Session<T>, e: Event<T>, version: string, last: map<TileId, nat>)
    requires StampedBy(s, last)
    requires e.Inserted? && e.tile.id in last ==> last[e.tile.id] < e.now
    ensures NoClash(s, e)
    ensures StampedBy(Step(s, e, version), if e.Inserted? then last[e.tile.id := e.now] else last)
  {
    match e
    case Inserted(tile, now) => InsertStamped(s, tile, now, last);
    case VisitedAt(reached, at) => VisitStamped(s.m, reached, at, last);
    case Purged(dropped) =>
    case Written =>
    case Restarted =>
    case Reopened => ReopenStamped(s, version, last);
  }

  /** Insertions whose stamps advance tile by tile never clash. */
  lemma {:induction false} AdvancingNeverClashes<T>(s: Session<T>, events: seq<Event<T>>, version: string,
                                                    last: map<TileId, nat>)
    requires StampedBy(s, last) && StampsAdvance(events, last)
    ensures NeverClashes(s, events, version)
    decreases |events|
  {
    if events != [] {
      var e := events[0];
      StepStamped(s, e, version, last);
      var last' := if e.Inserted? then last[e.tile.id := e.now] else last;
      AdvancingNeverClashes(Step(s, e, version), events[1..], version, last');
    }
  }

  /** So, starting without an index, every run in which no two insertions of one id share a creation stamp
      can be written, restarted and read back without loss. */
  lemma AdvancingRunPersists<T>(files: map<TileId, TileFile<T>>, events: seq<Event<T>>, version: string)
    requires WellNamed(files) && StampsAdvance(events, map[])
    ensures var s := Run(Session(map[], map[], files, None), events, version);
      Step(Step(Step(s, Written, version), Restarted, version), Reopened, version) == Step(s, Written, version)
  {
    AdvancingNeverClashes(Session(map[], map[], files, None), events, version, map[]);
    RunPersists(files, None, events, version);
  }

  /** The clash does occur: a tile is inserted and written, other content is inserted under the same stamp, and the
      next write and restart bring back the old content. */
  lemma ClashReachable<T>(id: TileId, a: T, b: T, now: Msecs, version: string)
    requires a != b
    ensures var start := Session(map[], map[], map[], None);
      var s := Step(Step(start, Inserted(Named(id, a), now), version), Written, version);
      && InStep(s, version) && Clash(s.files, s.cached, Named(id, b), now)
      && var q := Step(s, Inserted(Named(id, b), now), version);
         && q.m[id].data.body == b
         && var r := Step(Step(Step(q, Written, version), Restarted, version), Reopened, version);
            id in r.m && r.m[id].data.body == a
  {
    var m: Store<T> := map[id := Fresh(Named(id, a), now)];
    var s := Session(m, Metas(m), FilesAfterWrite(map[], map[], m, version), Some(MetaFile(version, Metas(m))));
    assert s.files == map[id := TileFile(version, Named(id, a))];
    var q := Step(s, Inserted(Named(id, b), now), version);
    assert UpToDate(s.cached, q.m, id) && Outdated(s.cached, q.m) == {};
    var w := Step(q, Written, version);
    assert w.files == s.files;
  }
}
